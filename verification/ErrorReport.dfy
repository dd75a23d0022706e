/** The error figures of a report, and their agreement with the collector they are drawn from. */
module ErrorReport {
  import opened Basics
  import opened Metrics
  import opened Sorting

  // ------------------------------------------------------------------ the details of a list of connections

  function Collected(connections: seq<ConnectionMetrics>): seq<ErrorDetail> {
    if connections == [] then []
    else Collected(connections[..|connections| - 1]) + connections[|connections| - 1].details
  }

  /** `*error_types.entry(kind).or_insert(0) += 1` */
  function Counted(types: map<ErrorType, nat>, kind: ErrorType): map<ErrorType, nat> {
    types[kind := (if kind in types then types[kind] else 0) + 1]
  }

  function Tally(details: seq<ErrorDetail>): map<ErrorType, nat> {
    if details == [] then map[]
    else Counted(Tally(details[..|details| - 1]), details[|details| - 1].kind)
  }

  function OfKind(details: seq<ErrorDetail>, kind: ErrorType): nat {
    if details == [] then 0
    else OfKind(details[..|details| - 1], kind) + if details[|details| - 1].kind == kind then 1 else 0
  }

  lemma NothingTallied()
    ensures Tally([]) == map[]
  {
  }

  /** The entries are the kinds that occur, each with the number of its details. */
  lemma {:induction false} TallyCounts(details: seq<ErrorDetail>, kind: ErrorType)
    ensures kind in Tally(details) <==> OfKind(details, kind) > 0
    ensures kind in Tally(details) ==> Tally(details)[kind] == OfKind(details, kind)
  {
    if details != [] {
      TallyCounts(details[..|details| - 1], kind);
    }
  }

  /** The sum of the counts. */
  function SumOfCounts(types: map<ErrorType, nat>): nat {
    At0(types, ConnectionFailed) + At0(types, NetworkTimeout) + At0(types, SerializationError) + At0(types, MessageTooLarge)
    + At0(types, UnexpectedDisconnection) + At0(types, ProtocolError) + At0(types, IoError) + At0(types, Other)
  }

  function At0(types: map<ErrorType, nat>, kind: ErrorType): nat { if kind in types then types[kind] else 0 }

  lemma {:induction false} TallyAddsUp(details: seq<ErrorDetail>)
    ensures SumOfCounts(Tally(details)) == |details|
  {
    if details != [] {
      var n := |details| - 1;
      TallyAddsUp(details[..n]);
      OneMore(Tally(details[..n]), details[n].kind);
    }
  }

  lemma OneMore(types: map<ErrorType, nat>, kind: ErrorType)
    ensures SumOfCounts(Counted(types, kind)) == SumOfCounts(types) + 1
  {
  }

  // ------------------------------------------------------------------ the most recent errors

  const MOST_RECENT := 10

  function Newest(e: ErrorDetail): real { -(e.timestamp as real) }

  function MostRecent(details: seq<ErrorDetail>): seq<ErrorDetail> {
    Sort(details, Newest)[..Min(MOST_RECENT, |details|)]
  }

  /** Ten of the details, or all if fewer: none of the others is later, they run from the latest down, and of two
      with one timestamp the one collected first comes first. */
  lemma MostRecentAreLatest(details: seq<ErrorDetail>) returns (rest: seq<ErrorDetail>)
    ensures var recent := MostRecent(details);
            && |recent| == Min(10, |details|)
            && multiset(recent) + multiset(rest) == multiset(details)
            && (forall i, j | 0 <= i <= j < |recent| :: recent[i].timestamp >= recent[j].timestamp)
            && (forall i, j | 0 <= i < |recent| && 0 <= j < |rest| :: recent[i].timestamp >= rest[j].timestamp)
            && (forall k :: WithKey(recent + rest, Newest, k) == WithKey(details, Newest, k))
  {
    var s := Sort(details, Newest);
    SortSorts(details, Newest);
    hide Sort;
    var recent := MostRecent(details);
    rest := s[|recent|..];
    assert s == recent + rest;
    forall i, j | 0 <= i <= j < |s| ensures s[i].timestamp >= s[j].timestamp {
      assert Newest(s[i]) <= Newest(s[j]);
    }
    forall i, j | 0 <= i < |recent| && 0 <= j < |rest| ensures recent[i].timestamp >= rest[j].timestamp {
      assert rest[j] == s[|recent| + j];
    }
  }

  // ------------------------------------------------------------------ error counts

  function Errors(connections: seq<ConnectionMetrics>): nat {
    if connections == [] then 0 else Errors(connections[..|connections| - 1]) + connections[|connections| - 1].errors
  }

  function ErrorsBy(connections: seq<ConnectionMetrics>, p: Protocol): nat {
    if connections == [] then 0
    else
      var last := connections[|connections| - 1];
      ErrorsBy(connections[..|connections| - 1], p) + if last.protocol == p then last.errors else 0
  }

  /** Sums over lists of connections put together. */
  lemma {:induction false} ErrorsAppend(a: seq<ConnectionMetrics>, b: seq<ConnectionMetrics>, p: Protocol)
    ensures Errors(a + b) == Errors(a) + Errors(b) && ErrorsBy(a + b, p) == ErrorsBy(a, p) + ErrorsBy(b, p)
    ensures Collected(a + b) == Collected(a) + Collected(b)
  {
    if b == [] {
      assert a + b == a;
    } else {
      var n := |b| - 1;
      ErrorsAppend(a, b[..n], p);
      assert (a + b)[..|a| + n] == a + b[..n];
      Associate(Collected(a), Collected(b[..n]), b[n].details);
    }
  }

  lemma ErrorsOfOne(c: ConnectionMetrics, p: Protocol)
    ensures Errors([c]) == c.errors && ErrorsBy([c], p) == (if c.protocol == p then c.errors else 0) && Collected([c]) == c.details
  {
    assert [c][..0] == [];
  }

  lemma {:induction false} ErrorsSplit(connections: seq<ConnectionMetrics>)
    ensures Errors(connections) == ErrorsBy(connections, Tcp) + ErrorsBy(connections, Udp) + ErrorsBy(connections, Quic)
  {
    if connections != [] {
      ErrorsSplit(connections[..|connections| - 1]);
    }
  }

  lemma {:induction false} NoErrorsBy(connections: seq<ConnectionMetrics>, p: Protocol)
    ensures ErrorsBy(connections, p) == 0 <==> forall c | c in connections && c.protocol == p :: c.errors == 0
  {
    if connections != [] {
      var n := |connections| - 1;
      NoErrorsBy(connections[..n], p);
      assert connections == connections[..n] + [connections[n]];
    }
  }

  /** The reported distribution, which has no entry for QUIC, comes to the total exactly when no QUIC connection has an error. */
  lemma DistributionIsTotalIff(connections: seq<ConnectionMetrics>)
    ensures ErrorsBy(connections, Tcp) + ErrorsBy(connections, Udp) <= Errors(connections)
    ensures ErrorsBy(connections, Tcp) + ErrorsBy(connections, Udp) == Errors(connections)
            <==> forall c | c in connections && c.protocol == Quic :: c.errors == 0
  {
    ErrorsSplit(connections);
    NoErrorsBy(connections, Quic);
  }

  // ------------------------------------------------------------------ the figures

  datatype ErrorStats = ErrorStats(
    total: nat, tcp: nat, udp: nat, rate: real, distribution: map<string, nat>, types: map<ErrorType, nat>,
    details: seq<ErrorDetail>, recent: seq<ErrorDetail>)

  method CalculateErrorStats(connections: seq<ConnectionMetrics>) returns (stats: ErrorStats)
    ensures stats.total == Errors(connections)
    ensures stats.tcp == ErrorsBy(connections, Tcp) && stats.udp == ErrorsBy(connections, Udp)
    ensures connections == [] ==> stats.rate == 0.0
    ensures connections != [] ==> stats.rate * |connections| as real == stats.total as real
    ensures stats.distribution == map["tcp_errors" := stats.tcp, "udp_errors" := stats.udp]
    ensures stats.details == Collected(connections)
    ensures stats.types == Tally(stats.details) && SumOfCounts(stats.types) == |stats.details|
    ensures stats.recent == MostRecent(stats.details)
  {
    hide Errors, ErrorsBy, Tally, MostRecent, SumOfCounts;
    var total := Errors(connections);
    var tcp, udp := ErrorsBy(connections, Tcp), ErrorsBy(connections, Udp);
    var types: map<ErrorType, nat>, details: seq<ErrorDetail> := map[], [];
    assert types == Tally(details) by { NothingTallied(); }
    for i := 0 to |connections|
      invariant details == Collected(connections[..i]) && types == Tally(details)
    {
      assert connections[..i + 1][..i] == connections[..i];
      details, types := Gather(details, types, connections[i].details);
    }
    assert connections[..|connections|] == connections;
    TallyAddsUp(details);
    var rate := if connections == [] then 0.0 else total as real / |connections| as real;
    var distribution := map["tcp_errors" := tcp, "udp_errors" := udp];
    stats := ErrorStats(total, tcp, udp, rate, distribution, types, details, MostRecent(details));
  }

  /** The inner loop, over one connection's details. */
  method Gather(before: seq<ErrorDetail>, counts: map<ErrorType, nat>, more: seq<ErrorDetail>)
    returns (details: seq<ErrorDetail>, types: map<ErrorType, nat>)
    requires counts == Tally(before)
    ensures details == before + more && types == Tally(details)
  {
    details, types := before, counts;
    for j := 0 to |more|
      invariant details == before + more[..j] && types == Tally(details)
    {
      assert (details + [more[j]])[..|details|] == details;
      details := details + [more[j]];
      types := Counted(types, more[j].kind);
    }
  }

  // ------------------------------------------------------------------ from the collector to the report

  /** The connections in the order in which the map was walked. */
  function Entries(order: seq<Id>, connections: Connections): seq<ConnectionMetrics>
    requires forall id | id in order :: id in connections
  {
    if order == [] then [] else Entries(order[..|order| - 1], connections) + [connections[order[|order| - 1]]]
  }

  lemma {:induction false} CollectedEntries(order: seq<Id>, connections: Connections)
    requires forall id | id in order :: id in connections
    ensures multiset(Collected(Entries(order, connections))) == DetailsOver(order, connections)
  {
    if order != [] {
      var n := |order| - 1;
      CollectedEntries(order[..n], connections);
      var es := Entries(order[..n], connections);
      assert (es + [connections[order[n]]])[..|es|] == es;
    }
  }

  function Without(ids: seq<Id>, i: nat): (r: seq<Id>)
    requires i < |ids|
    ensures |r| == |ids| - 1
  {
    ids[..i] + ids[i + 1..]
  }

  function DetailsOf(id: Id, connections: Connections): multiset<ErrorDetail> {
    if id in connections then multiset(connections[id].details) else multiset{}
  }

  lemma DetailsSnoc(ids: seq<Id>, id: Id, connections: Connections)
    ensures DetailsOver(ids + [id], connections) == DetailsOver(ids, connections) + DetailsOf(id, connections)
  {
    assert (ids + [id])[..|ids|] == ids;
  }

  lemma LastApart(ids: seq<Id>)
    requires ids != []
    ensures ids == ids[..|ids| - 1] + [ids[|ids| - 1]]
  {
  }

  lemma WithoutSnoc(front: seq<Id>, last: Id, i: nat)
    requires i <= |front|
    ensures Without(front + [last], i) == if i == |front| then front else Without(front, i) + [last]
  {
  }

  lemma {:induction false} DetailsWithout(ids: seq<Id>, i: nat, connections: Connections)
    requires i < |ids|
    ensures DetailsOver(ids, connections) == DetailsOver(Without(ids, i), connections) + DetailsOf(ids[i], connections)
  {
    hide DetailsOver, DetailsOf, Without;
    var n := |ids| - 1;
    var front, last := ids[..n], ids[n];
    LastApart(ids);
    DetailsSnoc(front, last, connections);
    WithoutSnoc(front, last, i);
    if i < n {
      DetailsWithout(front, i, connections);
      DetailsSnoc(Without(front, i), last, connections);
    }
  }

  lemma WithoutIsDistinct(ids: seq<Id>, i: nat)
    requires Distinct(ids) && i < |ids|
    ensures Distinct(Without(ids, i))
    ensures forall id :: id in Without(ids, i) <==> id in ids && id != ids[i]
  {
    var r := Without(ids, i);
    forall id | id in ids && id != ids[i] ensures id in r {
      var j :| 0 <= j < |ids| && ids[j] == id;
      assert id == r[if j < i then j else j - 1];
    }
  }

  /** The order of the walk does not matter. */
  lemma {:induction false} DetailsInAnyOrder(a: seq<Id>, b: seq<Id>, connections: Connections)
    requires Distinct(a) && Distinct(b) && (forall id :: id in a <==> id in b) && forall id | id in a :: id in connections
    ensures DetailsOver(a, connections) == DetailsOver(b, connections)
  {
    assert b != [] ==> b[0] in b;
    if a != [] {
      var n := |a| - 1;
      assert a[n] in b;
      var i :| 0 <= i < |b| && b[i] == a[n];
      WithoutIsDistinct(b, i);
      WithoutIsDistinct(a, n);
      assert Without(a, n) == a[..n];
      DetailsInAnyOrder(a[..n], Without(b, i), connections);
      DetailsWithout(b, i, connections);
    }
  }

  lemma {:induction false} ErrorsCoverDetails(connections: seq<ConnectionMetrics>)
    requires forall i | 0 <= i < |connections| :: connections[i].errors >= |connections[i].details|
    ensures Errors(connections) >= |Collected(connections)|
  {
    if connections != [] {
      ErrorsCoverDetails(connections[..|connections| - 1]);
    }
  }

  lemma {:induction false} EntriesOf(order: seq<Id>, connections: Connections)
    requires forall id | id in order :: id in connections
    ensures |Entries(order, connections)| == |order|
    ensures forall i | 0 <= i < |order| :: Entries(order, connections)[i] == connections[order[i]]
  {
    if order != [] {
      EntriesOf(order[..|order| - 1], connections);
    }
  }

  lemma EntriesCover(order: seq<Id>, connections: Connections)
    requires forall id | id in order :: id in connections
    requires forall id | id in connections :: connections[id].errors >= |connections[id].details|
    ensures Errors(Entries(order, connections)) >= |Collected(Entries(order, connections))|
  {
    hide Errors, Collected, Entries;
    EntriesOf(order, connections);
    ErrorsCoverDetails(Entries(order, connections));
  }

  lemma SameSize<T>(s: seq<T>, t: seq<T>)
    requires multiset(s) == multiset(t)
    ensures |s| == |t|
  {
    assert |multiset(s)| == |s| && |multiset(t)| == |t|;
  }

  /** Conservation from collector to report: of a collector at rest, whatever the order of the walk, the report has the
      details of the collector's own list, its counts by type come to their number, and its error total is no less. */
  lemma ReportAgrees(ids: seq<Id>, connections: Connections, list: seq<ErrorDetail>, order: seq<Id>)
    requires IdsInv(ids, connections) && ErrorsInv(ids, connections, list, multiset{})
    requires Distinct(order) && forall id :: id in order <==> id in connections
    ensures var entries := Entries(order, connections);
            && multiset(Collected(entries)) == multiset(list)
            && SumOfCounts(Tally(Collected(entries))) == |list|
            && Errors(entries) >= |list|
  {
    var details := Collected(Entries(order, connections));
    hide DetailsOver, Entries, Collected, Tally, SumOfCounts, Errors;
    DetailsInAnyOrder(order, ids, connections);
    CollectedEntries(order, connections);
    assert multiset(list) + multiset{} == multiset(list);
    SameSize(details, list);
    TallyAddsUp(details);
    EntriesCover(order, connections);
  }
}
