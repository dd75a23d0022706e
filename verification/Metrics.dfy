/**
 The metrics collector shared by all connections: byte counters, the throughput sampler and the error records.
 A call on one connection locks its entry.  Walking the map is no snapshot: the walk is a sequence of visits, and other
 calls come in between; so every method below is one locked section, and `Valid` holds between any two.
 */
module Metrics {
  import opened Basics

  type Id = nat

  datatype Protocol = Tcp | Udp | Quic
  datatype Direction = Sent | Received

  datatype ErrorType =
    ConnectionFailed | NetworkTimeout | SerializationError | MessageTooLarge
    | UnexpectedDisconnection | ProtocolError | IoError | Other

  datatype ErrorDetail = ErrorDetail(kind: ErrorType, message: string, timestamp: int, id: Id)

  datatype ConnectionMetrics = ConnectionMetrics(
    protocol: Protocol, sent: nat, received: nat, errors: nat, details: seq<ErrorDetail>, ended: bool)

  /** The byte totals of one walk, or the rates of one sample, by protocol and direction. */
  datatype Totals = Totals(tcpSent: nat, tcpReceived: nat, udpSent: nat, udpReceived: nat, quicSent: nat, quicReceived: nat)

  const ZERO := Totals(0, 0, 0, 0, 0, 0)

  function At(t: Totals, p: Protocol, d: Direction): nat {
    match p
    case Tcp => if d == Sent then t.tcpSent else t.tcpReceived
    case Udp => if d == Sent then t.udpSent else t.udpReceived
    case Quic => if d == Sent then t.quicSent else t.quicReceived
  }

  datatype Sample = Sample(elapsed: real, bps: Totals)

  /** What a visit reads of an entry. */
  datatype Reading = Reading(protocol: Protocol, sent: nat, received: nat)

  function ReadingOf(c: ConnectionMetrics): Reading { Reading(c.protocol, c.sent, c.received) }

  function Part(r: Reading, p: Protocol, d: Direction): nat {
    if r.protocol != p then 0 else if d == Sent then r.sent else r.received
  }

  ghost predicate Grown(r: Reading, r': Reading) {
    r.protocol == r'.protocol && r.sent <= r'.sent && r.received <= r'.received
  }

  function SumOver(ids: seq<Id>, seen: map<Id, Reading>, p: Protocol, d: Direction): nat {
    if ids == [] then 0
    else
      var last := ids[|ids| - 1];
      SumOver(ids[..|ids| - 1], seen, p, d) + if last in seen then Part(seen[last], p, d) else 0
  }

  // ------------------------------------------------------------------ sums over the ids

  /** Readings of other ids do not matter. */
  lemma {:induction false} SumSame(ids: seq<Id>, seen: map<Id, Reading>, seen': map<Id, Reading>, p: Protocol, d: Direction)
    requires forall id :: id in ids ==> (id in seen <==> id in seen') && (id in seen ==> seen[id] == seen'[id])
    ensures SumOver(ids, seen, p, d) == SumOver(ids, seen', p, d)
  {
    if ids != [] {
      SumSame(ids[..|ids| - 1], seen, seen', p, d);
    }
  }

  /** One more reading. */
  lemma {:induction false} SumVisit(ids: seq<Id>, seen: map<Id, Reading>, id: Id, r: Reading, p: Protocol, d: Direction)
    requires Distinct(ids) && id in ids && id !in seen
    ensures SumOver(ids, seen[id := r], p, d) == SumOver(ids, seen, p, d) + Part(r, p, d)
  {
    var n := |ids| - 1;
    if ids[n] == id {
      SumSame(ids[..n], seen, seen[id := r], p, d);
    } else {
      SumVisit(ids[..n], seen, id, r, p, d);
    }
  }

  /** A walk that sees everything an earlier one saw, no smaller, has no smaller a sum. */
  lemma {:induction false} SumGrows(ids: seq<Id>, seen: map<Id, Reading>, seen': map<Id, Reading>, p: Protocol, d: Direction)
    requires forall id :: id in seen ==> id in seen' && Grown(seen[id], seen'[id])
    ensures SumOver(ids, seen, p, d) <= SumOver(ids, seen', p, d)
  {
    if ids != [] {
      SumGrows(ids[..|ids| - 1], seen, seen', p, d);
    }
  }

  lemma {:induction false} SumNothing(ids: seq<Id>, p: Protocol, d: Direction)
    ensures SumOver(ids, map[], p, d) == 0
  {
    if ids != [] {
      SumNothing(ids[..|ids| - 1], p, d);
    }
  }

  // ------------------------------------------------------------------ what the collector keeps true

  type Connections = map<Id, ConnectionMetrics>
  type Readings = map<Id, Reading>

  ghost predicate IdsInv(ids: seq<Id>, connections: Connections) {
    Distinct(ids) && forall id :: id in ids <==> id in connections
  }

  ghost predicate SumsTo(t: Totals, ids: seq<Id>, seen: Readings) {
    forall p, d :: At(t, p, d) == SumOver(ids, seen, p, d)
  }

  ghost predicate UpTo(seen: Readings, connections: Connections) {
    forall id :: id in seen ==> id in connections && Grown(seen[id], ReadingOf(connections[id]))
  }

  /** A walk in progress: it has added up what it saw, and saw nothing smaller than the last sample did. */
  ghost predicate WalkInv(ids: seq<Id>, connections: Connections, seen: Readings, partial: Totals,
                          lastSeen: Readings, must: set<Id>) {
    && SumsTo(partial, ids, seen) && UpTo(seen, connections)
    && (forall id :: id in seen && id in lastSeen ==> Grown(lastSeen[id], seen[id]))
    && must <= connections.Keys && lastSeen.Keys <= must
  }

  function Sum(ts: seq<Totals>, p: Protocol, d: Direction): nat {
    if ts == [] then 0 else Sum(ts[..|ts| - 1], p, d) + At(ts[|ts| - 1], p, d)
  }

  /** The bytes that a rate comes to over an interval. */
  function Bytes(bps: nat, elapsed: real): real { bps as real * elapsed }

  /** A rate is the bytes since the last sample over the time since, rounded down. */
  ghost predicate RateOf(s: Sample, delta: Totals) {
    && s.elapsed >= 0.1
    && forall p, d :: Bytes(At(s.bps, p, d), s.elapsed) <= At(delta, p, d) as real < Bytes(At(s.bps, p, d) + 1, s.elapsed)
  }

  /** The deltas behind the samples add up to the last recorded totals. */
  ghost predicate SeriesInv(samples: seq<Sample>, deltas: seq<Totals>, last: Totals) {
    && |samples| == |deltas|
    && (forall i :: 0 <= i < |samples| ==> RateOf(samples[i], deltas[i]))
    && (forall p, d :: Sum(deltas, p, d) == At(last, p, d))
  }

  function DetailsOver(ids: seq<Id>, connections: Connections): multiset<ErrorDetail> {
    if ids == [] then multiset{}
    else
      var last := ids[|ids| - 1];
      DetailsOver(ids[..|ids| - 1], connections) + if last in connections then multiset(connections[last].details) else multiset{}
  }

  /** The collector's list, and the details on their way into it, are the connections' details. */
  ghost predicate ErrorsInv(ids: seq<Id>, connections: Connections, list: seq<ErrorDetail>, pending: multiset<ErrorDetail>) {
    && multiset(list) + pending == DetailsOver(ids, connections)
    && forall id :: id in connections ==> connections[id].errors >= |connections[id].details|
  }

  lemma {:induction false} DetailsSame(ids: seq<Id>, a: Connections, b: Connections)
    requires forall id :: id in ids ==> (id in a <==> id in b) && (id in a ==> a[id].details == b[id].details)
    ensures DetailsOver(ids, a) == DetailsOver(ids, b)
  {
    if ids != [] {
      DetailsSame(ids[..|ids| - 1], a, b);
    }
  }

  lemma {:induction false} DetailsAdd(ids: seq<Id>, a: Connections, id: Id, c: ConnectionMetrics, e: ErrorDetail)
    requires Distinct(ids) && id in ids && id in a && c.details == a[id].details + [e]
    ensures DetailsOver(ids, a[id := c]) == DetailsOver(ids, a) + multiset{e}
  {
    var n := |ids| - 1;
    if ids[n] == id {
      DetailsSame(ids[..n], a, a[id := c]);
    } else {
      DetailsAdd(ids[..n], a, id, c, e);
    }
  }

  /** One more error, with a detail that is on its way to the list. */
  lemma ErrorNoted(ids: seq<Id>, connections: Connections, id: Id, c: ConnectionMetrics, e: ErrorDetail,
                   list: seq<ErrorDetail>, pending: multiset<ErrorDetail>)
    requires IdsInv(ids, connections) && ErrorsInv(ids, connections, list, pending) && id in connections
    requires c.errors == connections[id].errors + 1 && c.details == connections[id].details + [e]
    ensures ErrorsInv(ids, connections[id := c], list, pending + multiset{e})
  {
    DetailsAdd(ids, connections, id, c, e);
  }

  /** An entry's counters grow. */
  lemma EntryGrows(ids: seq<Id>, connections: Connections, id: Id, c: ConnectionMetrics, seen: Readings, partial: Totals,
                   lastSeen: Readings, must: set<Id>)
    requires id in connections && Grown(ReadingOf(connections[id]), ReadingOf(c))
    requires WalkInv(ids, connections, seen, partial, lastSeen, must) && UpTo(lastSeen, connections)
    ensures WalkInv(ids, connections[id := c], seen, partial, lastSeen, must) && UpTo(lastSeen, connections[id := c])
  {
  }

  lemma SnocKeepsSums(ids: seq<Id>, id: Id, seen: Readings, t: Totals)
    requires SumsTo(t, ids, seen) && id !in seen
    ensures SumsTo(t, ids + [id], seen)
  {
    assert (ids + [id])[..|ids|] == ids;
  }

  lemma SnocKeepsErrors(ids: seq<Id>, connections: Connections, id: Id, c: ConnectionMetrics,
                        list: seq<ErrorDetail>, pending: multiset<ErrorDetail>)
    requires IdsInv(ids, connections) && id !in connections && c.details == []
    requires ErrorsInv(ids, connections, list, pending)
    ensures ErrorsInv(ids + [id], connections[id := c], list, pending)
  {
    assert (ids + [id])[..|ids|] == ids;
    DetailsSame(ids, connections, connections[id := c]);
  }

  lemma SnocKeepsWalk(ids: seq<Id>, connections: Connections, id: Id, c: ConnectionMetrics, seen: Readings, partial: Totals,
                      lastSeen: Readings, must: set<Id>)
    requires id !in connections && WalkInv(ids, connections, seen, partial, lastSeen, must)
    ensures WalkInv(ids + [id], connections[id := c], seen, partial, lastSeen, must)
  {
    hide SumsTo;
    SnocKeepsSums(ids, id, seen, partial);
  }

  /** A new entry, under an id not used before. */
  lemma EntryAdded(ids: seq<Id>, connections: Connections, id: Id, c: ConnectionMetrics, seen: Readings, partial: Totals,
                   lastSeen: Readings, last: Totals, must: set<Id>, list: seq<ErrorDetail>, pending: multiset<ErrorDetail>)
    requires id !in connections && c.details == [] && IdsInv(ids, connections)
    requires WalkInv(ids, connections, seen, partial, lastSeen, must) && UpTo(lastSeen, connections) && SumsTo(last, ids, lastSeen)
    requires ErrorsInv(ids, connections, list, pending)
    ensures IdsInv(ids + [id], connections[id := c])
    ensures WalkInv(ids + [id], connections[id := c], seen, partial, lastSeen, must)
    ensures UpTo(lastSeen, connections[id := c]) && SumsTo(last, ids + [id], lastSeen)
    ensures ErrorsInv(ids + [id], connections[id := c], list, pending)
  {
    hide SumsTo, WalkInv, ErrorsInv;
    SnocKeepsWalk(ids, connections, id, c, seen, partial, lastSeen, must);
    SnocKeepsSums(ids, id, lastSeen, last);
    SnocKeepsErrors(ids, connections, id, c, list, pending);
  }

  // ------------------------------------------------------------------ one sample

  function Delta(now: Totals, last: Totals): Totals {
    Totals(Saturating(now.tcpSent, last.tcpSent), Saturating(now.tcpReceived, last.tcpReceived),
           Saturating(now.udpSent, last.udpSent), Saturating(now.udpReceived, last.udpReceived),
           Saturating(now.quicSent, last.quicSent), Saturating(now.quicReceived, last.quicReceived))
  }

  lemma Between(f: nat, q: real, elapsed: real, bytes: real)
    requires elapsed > 0.0 && f as real <= q < (f + 1) as real && bytes == q * elapsed
    ensures Bytes(f, elapsed) <= bytes < Bytes(f + 1, elapsed)
  {
    Scaled(f as real, q, elapsed);
    Scaled((f + 1) as real, q, elapsed);
  }

  lemma RateBounds(delta: nat, elapsed: real)
    requires elapsed > 0.0
    ensures var f := (delta as real / elapsed).Floor;
            0 <= f && Bytes(f, elapsed) <= delta as real < Bytes(f + 1, elapsed)
  {
    hide Bytes;
    var q := delta as real / elapsed;
    assert q * elapsed == delta as real;
    Scaled(0.0, q, elapsed);
    Between(q.Floor, q, elapsed, delta as real);
  }

  /** `(delta as f64 / elapsed) as u64`, exactly. */
  function Rate(delta: nat, elapsed: real): (bps: nat)
    requires elapsed >= 0.1
    ensures Bytes(bps, elapsed) <= delta as real < Bytes(bps + 1, elapsed)
  {
    RateBounds(delta, elapsed);
    (delta as real / elapsed).Floor
  }

  function Rates(delta: Totals, elapsed: real): Totals
    requires elapsed >= 0.1
  {
    Totals(Rate(delta.tcpSent, elapsed), Rate(delta.tcpReceived, elapsed),
           Rate(delta.udpSent, elapsed), Rate(delta.udpReceived, elapsed),
           Rate(delta.quicSent, elapsed), Rate(delta.quicReceived, elapsed))
  }

  lemma RatesAreRates(delta: Totals, elapsed: real)
    requires elapsed >= 0.1
    ensures RateOf(Sample(elapsed, Rates(delta, elapsed)), delta)
  {
    hide Bytes, Rate;
    forall p, d ensures At(Rates(delta, elapsed), p, d) == Rate(At(delta, p, d), elapsed) {
    }
  }

  /** A finished walk has totals no smaller than the last, so nothing saturates; and the series goes on. */
  lemma SampleTaken(ids: seq<Id>, connections: Connections, seen: Readings, partial: Totals, lastSeen: Readings, must: set<Id>,
                    last: Totals, samples: seq<Sample>, deltas: seq<Totals>, elapsed: real)
    requires WalkInv(ids, connections, seen, partial, lastSeen, must) && must <= seen.Keys
    requires SumsTo(last, ids, lastSeen) && SeriesInv(samples, deltas, last) && elapsed >= 0.1
    ensures var delta := Delta(partial, last);
            && (forall p, d :: At(delta, p, d) == At(partial, p, d) - At(last, p, d))
            && SeriesInv(samples + [Sample(elapsed, Rates(delta, elapsed))], deltas + [delta], partial)
  {
    var delta := Delta(partial, last);
    forall p, d ensures At(last, p, d) <= At(partial, p, d) && At(delta, p, d) == At(partial, p, d) - At(last, p, d) {
      SumGrows(ids, lastSeen, seen, p, d);
    }
    RatesAreRates(delta, elapsed);
    assert (deltas + [delta])[..|deltas|] == deltas;
  }

  lemma WalkStarts(ids: seq<Id>, connections: Connections, lastSeen: Readings)
    requires UpTo(lastSeen, connections)
    ensures WalkInv(ids, connections, map[], ZERO, lastSeen, connections.Keys)
  {
    forall p, d ensures At(ZERO, p, d) == SumOver(ids, map[], p, d) {
      SumNothing(ids, p, d);
    }
  }

  /** `tcp_upload += metrics.bytes_sent` and so on, by the entry's protocol. */
  function AddEntry(t: Totals, c: ConnectionMetrics): Totals {
    match c.protocol
    case Tcp => t.(tcpSent := t.tcpSent + c.sent, tcpReceived := t.tcpReceived + c.received)
    case Udp => t.(udpSent := t.udpSent + c.sent, udpReceived := t.udpReceived + c.received)
    case Quic => t.(quicSent := t.quicSent + c.sent, quicReceived := t.quicReceived + c.received)
  }

  lemma EntryVisited(ids: seq<Id>, connections: Connections, seen: Readings, partial: Totals, lastSeen: Readings,
                     must: set<Id>, id: Id)
    requires WalkInv(ids, connections, seen, partial, lastSeen, must) && IdsInv(ids, connections) && UpTo(lastSeen, connections)
    requires id in connections && id !in seen
    ensures WalkInv(ids, connections, seen[id := ReadingOf(connections[id])], AddEntry(partial, connections[id]), lastSeen, must)
  {
    var c := connections[id];
    forall p, d ensures At(AddEntry(partial, c), p, d) == SumOver(ids, seen[id := ReadingOf(c)], p, d) {
      SumVisit(ids, seen, id, ReadingOf(c), p, d);
      assert At(AddEntry(partial, c), p, d) == At(partial, p, d) + Part(ReadingOf(c), p, d);
    }
  }

  // ------------------------------------------------------------------ the collector

  class MetricsCollector {
    var connections: Connections
    var throughput: seq<Sample>
    var lastTotals: Totals
    var lastTime: real
    var errorDetails: seq<ErrorDetail>

    // the walk of a sampler that is under way
    var walking: bool
    var walkTime: real
    var partial: Totals

    ghost var ids: seq<Id>                    // in the order of their start
    ghost var seen: Readings                  // what the walk under way has read
    ghost var must: set<Id>                   // the entries that were there when it began
    ghost var lastSeen: Readings              // what the walk of the last sample read
    ghost var deltas: seq<Totals>             // the byte deltas behind the samples
    ghost var pending: multiset<ErrorDetail>  // details on their way into `errorDetails`

    ghost predicate Valid() reads this {
      && IdsInv(ids, connections)
      && UpTo(lastSeen, connections) && SumsTo(lastTotals, ids, lastSeen)
      && SeriesInv(throughput, deltas, lastTotals)
      && ErrorsInv(ids, connections, errorDetails, pending)
      && (walking ==> WalkInv(ids, connections, seen, partial, lastSeen, must) && lastTime <= walkTime)
    }

    constructor (now: real)
      ensures Valid() && connections == map[] && throughput == [] && lastTotals == ZERO && errorDetails == []
      ensures lastTime == now && !walking && pending == multiset{}
    {
      connections := map[];
      throughput := [];
      lastTotals := ZERO;
      lastTime := now;
      errorDetails := [];
      walking := false;
      walkTime := now;
      partial := ZERO;
      ids := [];
      seen := map[];
      must := {};
      lastSeen := map[];
      deltas := [];
      pending := multiset{};
    }

    /** `start_connection` under a new id. */
    method StartConnection(id: Id, protocol: Protocol)
      requires Valid() && id !in connections
      modifies this`connections, this`ids
      ensures Valid() && ids == old(ids) + [id]
      ensures connections == old(connections)[id := ConnectionMetrics(protocol, 0, 0, 0, [], false)]
    {
      hide IdsInv, WalkInv, UpTo, SumsTo, SeriesInv, ErrorsInv;
      var c := ConnectionMetrics(protocol, 0, 0, 0, [], false);
      if walking {
        EntryAdded(ids, connections, id, c, seen, partial, lastSeen, lastTotals, must, errorDetails, pending);
      } else {
        WalkStarts(ids, connections, lastSeen);
        EntryAdded(ids, connections, id, c, map[], ZERO, lastSeen, lastTotals, connections.Keys, errorDetails, pending);
      }
      connections := connections[id := c];
      ids := ids + [id];
    }

    /** An entry is overwritten by one whose counters are no smaller and whose details are the same. */
    ghost predicate Updates(id: Id, c: ConnectionMetrics) reads this {
      && id in connections && Grown(ReadingOf(connections[id]), ReadingOf(c))
      && c.details == connections[id].details && c.errors >= connections[id].errors
    }

    lemma Updated(id: Id, c: ConnectionMetrics)
      requires Valid() && Updates(id, c)
      ensures IdsInv(ids, connections[id := c]) && UpTo(lastSeen, connections[id := c])
      ensures ErrorsInv(ids, connections[id := c], errorDetails, pending)
      ensures walking ==> WalkInv(ids, connections[id := c], seen, partial, lastSeen, must)
    {
      DetailsSame(ids, connections, connections[id := c]);
      if walking {
        EntryGrows(ids, connections, id, c, seen, partial, lastSeen, must);
      }
    }

    method RecordBytesSent(id: Id, bytes: nat)
      requires Valid()
      modifies this`connections
      ensures Valid()
      ensures connections == if id in old(connections)
                             then old(connections)[id := old(connections)[id].(sent := old(connections)[id].sent + bytes)]
                             else old(connections)
    {
      hide IdsInv, WalkInv, UpTo, SumsTo, SeriesInv, ErrorsInv;
      if id in connections {
        var c := connections[id].(sent := connections[id].sent + bytes);
        Updated(id, c);
        connections := connections[id := c];
      }
    }

    method RecordBytesReceived(id: Id, bytes: nat)
      requires Valid()
      modifies this`connections
      ensures Valid()
      ensures connections == if id in old(connections)
                             then old(connections)[id := old(connections)[id].(received := old(connections)[id].received + bytes)]
                             else old(connections)
    {
      hide IdsInv, WalkInv, UpTo, SumsTo, SeriesInv, ErrorsInv;
      if id in connections {
        var c := connections[id].(received := connections[id].received + bytes);
        Updated(id, c);
        connections := connections[id := c];
      }
    }

    method EndConnection(id: Id)
      requires Valid()
      modifies this`connections
      ensures Valid()
      ensures connections == if id in old(connections)
                             then old(connections)[id := old(connections)[id].(ended := true)]
                             else old(connections)
    {
      hide IdsInv, WalkInv, UpTo, SumsTo, SeriesInv, ErrorsInv;
      if id in connections {
        var c := connections[id].(ended := true);
        Updated(id, c);
        connections := connections[id := c];
      }
    }

    // ---------------------------------------------------------------- errors

    method RecordError(id: Id)
      requires Valid()
      modifies this`connections
      ensures Valid()
      ensures connections == if id in old(connections)
                             then old(connections)[id := old(connections)[id].(errors := old(connections)[id].errors + 1)]
                             else old(connections)
    {
      hide IdsInv, WalkInv, UpTo, SumsTo, SeriesInv, ErrorsInv;
      if id in connections {
        var c := connections[id].(errors := connections[id].errors + 1);
        Updated(id, c);
        connections := connections[id := c];
      }
    }

    /** The first half of `record_error_with_detail`: the entry is locked; the detail is still to go to the list. */
    method NoteDetail(id: Id, detail: ErrorDetail) returns (noted: bool)
      requires Valid()
      modifies this`connections, this`pending
      ensures Valid() && (noted <==> id in old(connections))
      ensures pending == if noted then old(pending) + multiset{detail} else old(pending)
      ensures connections ==
              if noted
              then old(connections)[id := old(connections)[id].(errors := old(connections)[id].errors + 1,
                                                                details := old(connections)[id].details + [detail])]
              else old(connections)
    {
      hide IdsInv, WalkInv, UpTo, SumsTo, SeriesInv, ErrorsInv;
      noted := id in connections;
      if noted {
        var c := connections[id].(errors := connections[id].errors + 1, details := connections[id].details + [detail]);
        DetailNoted(id, c, detail);
        connections := connections[id := c];
        pending := pending + multiset{detail};
      }
    }

    lemma DetailNoted(id: Id, c: ConnectionMetrics, e: ErrorDetail)
      requires Valid() && id in connections
      requires c == connections[id].(errors := connections[id].errors + 1, details := connections[id].details + [e])
      ensures IdsInv(ids, connections[id := c]) && UpTo(lastSeen, connections[id := c])
      ensures ErrorsInv(ids, connections[id := c], errorDetails, pending + multiset{e})
      ensures walking ==> WalkInv(ids, connections[id := c], seen, partial, lastSeen, must)
    {
      hide SumsTo, SeriesInv, ErrorsInv;
      ErrorNoted(ids, connections, id, c, e, errorDetails, pending);
      if walking {
        EntryGrows(ids, connections, id, c, seen, partial, lastSeen, must);
      }
    }

    /** The second half: the list is locked. */
    method PushDetail(detail: ErrorDetail)
      requires Valid() && detail in pending
      modifies this`errorDetails, this`pending
      ensures Valid() && errorDetails == old(errorDetails) + [detail] && pending == old(pending) - multiset{detail}
    {
      hide IdsInv, WalkInv, UpTo, SumsTo, SeriesInv;
      errorDetails := errorDetails + [detail];
      pending := pending - multiset{detail};
    }

    /** With no `record_error_with_detail` under way, the list is a permutation of the connections' details,
        and no connection has fewer errors than details. */
    lemma QuiescentDetails()
      requires Valid() && pending == multiset{}
      ensures multiset(errorDetails) == DetailsOver(ids, connections)
      ensures forall id :: id in connections ==> connections[id].errors >= |connections[id].details|
    {
    }

    // ---------------------------------------------------------------- sampling

    /** `sample_throughput` reads the clock and starts to walk the map. */
    method BeginSample(now: real)
      requires Valid() && !walking && lastTime <= now
      modifies this`walking, this`walkTime, this`partial, this`seen, this`must
      ensures Valid() && walking && walkTime == now && seen == map[] && must == connections.Keys
    {
      hide IdsInv, WalkInv, UpTo, SumsTo, SeriesInv, ErrorsInv;
      WalkStarts(ids, connections, lastSeen);
      walking := true;
      walkTime := now;
      partial := ZERO;
      seen := map[];
      must := connections.Keys;
    }

    /** The walk comes to an entry it has not seen. */
    method VisitEntry(id: Id)
      requires Valid() && walking && id in connections && id !in seen
      modifies this`partial, this`seen
      ensures Valid() && seen == old(seen)[id := ReadingOf(connections[id])]
      ensures var t, c := old(partial), connections[id];
              match c.protocol
              case Tcp => partial == t.(tcpSent := t.tcpSent + c.sent, tcpReceived := t.tcpReceived + c.received)
              case Udp => partial == t.(udpSent := t.udpSent + c.sent, udpReceived := t.udpReceived + c.received)
              case Quic => partial == t.(quicSent := t.quicSent + c.sent, quicReceived := t.quicReceived + c.received)
    {
      hide IdsInv, WalkInv, UpTo, SumsTo, SeriesInv, ErrorsInv;
      EntryVisited(ids, connections, seen, partial, lastSeen, must, id);
      partial := AddEntry(partial, connections[id]);
      seen := seen[id := ReadingOf(connections[id])];
    }

    /** The walk is over, having come to every entry that was there throughout; a sample is pushed
        unless the last is less than a tenth of a second old, and then nothing is lost. */
    method EndSample()
      requires Valid() && walking && must <= seen.Keys
      modifies this`walking, this`throughput, this`lastTotals, this`lastTime, this`lastSeen, this`deltas
      ensures Valid() && !walking
      ensures walkTime - old(lastTime) < 0.1 ==>
                throughput == old(throughput) && lastTotals == old(lastTotals) && lastTime == old(lastTime)
      ensures walkTime - old(lastTime) >= 0.1 ==>
                && lastTotals == partial && lastTime == walkTime && lastSeen == seen
                && |throughput| == |old(throughput)| + 1 && throughput[..|old(throughput)|] == old(throughput)
                && throughput[|old(throughput)|].elapsed == walkTime - old(lastTime)
                && (forall p, d :: At(old(lastTotals), p, d) <= At(partial, p, d))
                && deltas == old(deltas) + [Delta(partial, old(lastTotals))]
    {
      hide IdsInv, ErrorsInv, SeriesInv;
      var elapsed := walkTime - lastTime;
      walking := false;
      if elapsed >= 0.1 {
        SampleTaken(ids, connections, seen, partial, lastSeen, must, lastTotals, throughput, deltas, elapsed);
        var delta := Delta(partial, lastTotals);
        throughput := throughput + [Sample(elapsed, Rates(delta, elapsed))];
        deltas := deltas + [delta];
        lastTotals := partial;
        lastTime := walkTime;
        lastSeen := seen;
      }
    }

    /** Conservation over a whole run: the rates, taken over their intervals, come to the bytes of the last
        totals, short by less than one byte per second over each interval. */
    lemma RatesConserve(p: Protocol, d: Direction)
      requires Valid()
      ensures LowBytes(throughput, p, d) <= At(lastTotals, p, d) as real
      ensures throughput != [] ==> At(lastTotals, p, d) as real < HighBytes(throughput, p, d)
      ensures At(lastTotals, p, d) <= SumOver(ids, map id | id in connections :: ReadingOf(connections[id]), p, d)
    {
      SeriesBounds(throughput, deltas, p, d);
      SumGrows(ids, lastSeen, map id | id in connections :: ReadingOf(connections[id]), p, d);
    }
  }

  function LowBytes(samples: seq<Sample>, p: Protocol, d: Direction): real {
    if samples == [] then 0.0
    else
      var s := samples[|samples| - 1];
      LowBytes(samples[..|samples| - 1], p, d) + Bytes(At(s.bps, p, d), s.elapsed)
  }

  function HighBytes(samples: seq<Sample>, p: Protocol, d: Direction): real {
    if samples == [] then 0.0
    else
      var s := samples[|samples| - 1];
      HighBytes(samples[..|samples| - 1], p, d) + Bytes(At(s.bps, p, d) + 1, s.elapsed)
  }

  lemma {:induction false} SeriesBounds(samples: seq<Sample>, deltas: seq<Totals>, p: Protocol, d: Direction)
    requires |samples| == |deltas| && forall i :: 0 <= i < |samples| ==> RateOf(samples[i], deltas[i])
    ensures LowBytes(samples, p, d) <= Sum(deltas, p, d) as real
    ensures samples == [] ==> Sum(deltas, p, d) == 0
    ensures samples != [] ==> Sum(deltas, p, d) as real < HighBytes(samples, p, d)
  {
    hide Bytes, At;
    if samples != [] {
      var n := |samples| - 1;
      SeriesBounds(samples[..n], deltas[..n], p, d);
      assert RateOf(samples[n], deltas[n]);
      assert Sum(deltas, p, d) as real == Sum(deltas[..n], p, d) as real + At(deltas[n], p, d) as real;
    }
  }
}
