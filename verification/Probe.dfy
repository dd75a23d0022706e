/**
 A whole probe run over TCP: the flows, the stall watchdog, the throughput sampler and the task that
 joins them and writes the metrics.  Every interleaving of single operations is a run.
 */
module Probe {
  import opened Basics
  import opened Flow
  import opened Sums
  import V = Verdict

  datatype Config = Config(flows: nat, stallMs: nat, deadline: nat, frameLen: nat, durationSecs: nat)

  // ------------------------------------------------------------------ state

  /** A recorded stall.  Besides what the program stores: how many stamps the flow had when the
      watchdog looked, whether its reader then held an unstored stamp below `at`, and how often the
      reader had ended a stall before. */
  datatype StallRecord = StallRecord(conn: nat, at: nat, gap: nat, seen: nat, raced: bool, episode: nat)

  datatype Stage =
    | LookConnected
    | LookDisconnected
    | LookFirst
    | LookGap
    | TrySwap(gap: nat, seen: nat, raced: bool)
    | Push(record: StallRecord)

  datatype DogPc =
    | DogIdle
    | DogAwake
    | DogFlag
    | DogClock
    | Look(now: nat, conn: nat, stage: Stage)
    | DogStopped
    | DogCancelled(conn: nat)   // aborted while waiting for the lock in front of a push

  datatype SamplerPc = Asleep | SumDown | SumUp(down: nat) | Pushed | SamplerDone

  datatype Sampler = Sampler(
    pc: SamplerPc, t: nat, acc: nat, prevDown: nat, prevUp: nat,
    down: seq<nat>, up: seq<nat>,             // byte deltas of the series
    current: seq<nat>,                        // the flow counters read so far in the current sum
    currentDown: seq<nat>,
    lastDown: seq<nat>, lastUp: seq<nat>)     // the counters read for the last sample

  datatype MainPc = Joining | Winding | SamplerJoined | Aborted | Finished(metrics: V.PortMetrics)

  /** `abort` only asks: the watchdog stops at its next await, which may be after `finalize`. */
  predicate AbortAsked(main: MainPc) { main.Aborted? || main.Finished? }

  datatype Probe = Probe(
    flows: seq<Flow>, clock: nat, windingDown: bool,
    connectFailed: nat, midstream: nat, stalls: seq<StallRecord>,
    dog: DogPc, sampler: Sampler, main: MainPc)

  ghost predicate Init(c: Config, s: Probe) {
    && c.flows > 0 && c.frameLen > 0
    && |s.flows| == c.flows && (forall i :: 0 <= i < |s.flows| ==> s.flows[i] == NEW_FLOW)
    && s.clock == 0 && !s.windingDown && s.connectFailed == 0 && s.midstream == 0 && s.stalls == []
    && s.dog == DogIdle && s.main == Joining
    && s.sampler == Sampler(Asleep, 1, 0, 0, 0, [], [], [], [], Repeated(0, c.flows), Repeated(0, c.flows))
  }

  function EnvOf(c: Config, s: Probe): Env { Env(s.clock, c.deadline, s.windingDown) }

  // ------------------------------------------------------------------ steps

  ghost predicate TaskStep(c: Config, s: Probe, s': Probe, i: nat, f': Flow, eff: Effect) {
    && i < |s.flows|
    && FlowStep(EnvOf(c, s), s.flows[i], f', eff, c.frameLen)
    && s' == s.(flows := s.flows[i := f'], midstream := s.midstream + eff.mid,
                connectFailed := s.connectFailed + eff.fail)
  }

  ghost predicate Tick(s: Probe, s': Probe) {
    s.clock <= s'.clock && s' == s.(clock := s'.clock)
  }

  /** The watchdog between ticks, and on its way into a scan. */
  ghost predicate DogWakes(c: Config, s: Probe, s': Probe) {
    match s.dog
    case DogIdle => s' == s.(dog := DogAwake) || (AbortAsked(s.main) && s' == s.(dog := DogStopped))
    case DogAwake => s' == s.(dog := if s.clock >= c.deadline then DogStopped else DogFlag)
    case DogFlag => s' == s.(dog := if s.windingDown then DogStopped else DogClock)
    case DogClock => s' == s.(dog := Look(s.clock, 0, LookConnected))
    case _ => false
  }

  function Onward(now: nat, conn: nat): DogPc { Look(now, conn + 1, LookConnected) }

  /** The watchdog loads one field of one flow. */
  ghost predicate DogLooks(c: Config, s: Probe, s': Probe) {
    && s.dog.Look?
    && var now, i := s.dog.now, s.dog.conn;
       if i >= |s.flows| then s' == s.(dog := DogIdle)
       else
         var f := s.flows[i];
         match s.dog.stage
         case LookConnected => s' == s.(dog := if f.connected then Look(now, i, LookDisconnected) else Onward(now, i))
         case LookDisconnected => s' == s.(dog := if f.disconnected then Onward(now, i) else Look(now, i, LookFirst))
         case LookFirst => s' == s.(dog := if f.firstRecv then Look(now, i, LookGap) else Onward(now, i))
         case LookGap =>
           var gap := Saturating(now, f.lastRecvMs);
           var raced := HoldsStamp(f.task) && f.task.t < now;
           s' == s.(dog := if gap > c.stallMs then Look(now, i, TrySwap(gap, |f.stamps|, raced)) else Onward(now, i))
         case _ => false
  }

  function MarkedFlow(f: Flow, seen: nat): Flow {
    f.(inStall := true, marks := f.marks + 1, markSeen := seen, markedAt := |f.stamps|)
  }

  /** `in_stall.swap(true)`: only the swap that found it off leads to a push. */
  ghost predicate DogSwaps(s: Probe, s': Probe) {
    && s.dog.Look? && s.dog.stage.TrySwap? && s.dog.conn < |s.flows|
    && var now, i, stage := s.dog.now, s.dog.conn, s.dog.stage;
       var f := s.flows[i];
       if f.inStall then s' == s.(dog := Onward(now, i))
       else
         s' == s.(flows := s.flows[i := MarkedFlow(f, stage.seen)],
                  dog := Look(now, i, Push(StallRecord(i, now, stage.gap, stage.seen, stage.raced, f.clears))))
  }

  ghost predicate DogPushes(s: Probe, s': Probe) {
    && s.dog.Look? && s.dog.stage.Push? && s.dog.conn < |s.flows|
    && (|| s' == s.(stalls := s.stalls + [s.dog.stage.record], dog := Onward(s.dog.now, s.dog.conn))
        || (AbortAsked(s.main) && s' == s.(dog := DogCancelled(s.dog.conn))))
  }

  ghost predicate SamplerStep(c: Config, s: Probe, s': Probe) {
    && s' == s.(sampler := s'.sampler)
    && var m, m' := s.sampler, s'.sampler;
       match m.pc
       case Asleep =>
         m' == if m.t > c.durationSecs then m.(pc := SamplerDone) else m.(pc := SumDown, acc := 0, current := [])
       case SumDown =>
         if |m.current| < |s.flows| then
           var v := s.flows[|m.current|].bytesRecv;
           m' == m.(acc := m.acc + v, current := m.current + [v])
         else m' == m.(pc := SumUp(m.acc), acc := 0, currentDown := m.current, current := [])
       case SumUp(down) =>
         if |m.current| < |s.flows| then
           var v := s.flows[|m.current|].bytesSent;
           m' == m.(acc := m.acc + v, current := m.current + [v])
         else
           m' == m.(pc := Pushed, down := m.down + [Saturating(down, m.prevDown)],
                    up := m.up + [Saturating(m.acc, m.prevUp)], prevDown := down, prevUp := m.acc,
                    lastDown := m.currentDown, lastUp := m.current)
       case Pushed => m' == if s.windingDown then m.(pc := SamplerDone) else m.(pc := Asleep, t := m.t + 1)
       case SamplerDone => false
  }

  /** Once the flow tasks are joined only the watchdog still runs, and it touches none of the
      fields read here but `stalls`; so the whole of `finalize` is one step. */
  ghost predicate MainStep(c: Config, s: Probe, s': Probe) {
    match s.main
    case Joining => (forall i :: 0 <= i < |s.flows| ==> s.flows[i].task == Joined) && s' == s.(main := Winding, windingDown := true)
    case Winding => s.sampler.pc == SamplerDone && s' == s.(main := SamplerJoined)
    case SamplerJoined => s' == s.(main := Aborted)
    case Aborted => exists p95: real :: s' == s.(main := Finished(Finalize(c, s, p95)))
    case Finished(_) => false
  }

  ghost predicate Next(c: Config, s: Probe, s': Probe) {
    || (exists i, f', eff :: TaskStep(c, s, s', i, f', eff))
    || Tick(s, s')
    || DogWakes(c, s, s') || DogLooks(c, s, s') || DogSwaps(s, s') || DogPushes(s, s')
    || SamplerStep(c, s, s') || MainStep(c, s, s')
  }

  // ------------------------------------------------------------------ finalize

  function Brokens(fs: seq<Flow>): seq<nat> { seq(|fs|, i requires 0 <= i < |fs| => Broken(fs[i])) }
  function Adds(fs: seq<Flow>): seq<nat> { seq(|fs|, i requires 0 <= i < |fs| => PendingAdds(fs[i])) }
  function GaveUps(fs: seq<Flow>): seq<nat> { seq(|fs|, i requires 0 <= i < |fs| => GaveUp(fs[i])) }
  function Sents(fs: seq<Flow>): seq<nat> { seq(|fs|, i requires 0 <= i < |fs| => fs[i].bytesSent) }
  function Recvs(fs: seq<Flow>): seq<nat> { seq(|fs|, i requires 0 <= i < |fs| => fs[i].bytesRecv) }
  function Connecteds(fs: seq<Flow>): seq<nat> {
    seq(|fs|, i requires 0 <= i < |fs| => if fs[i].connected then 1 else 0)
  }
  function Silents(fs: seq<Flow>): seq<nat> {
    seq(|fs|, i requires 0 <= i < |fs| => if fs[i].connected && fs[i].bytesRecv == 0 then 1 else 0)
  }

  function Events(stalls: seq<StallRecord>): seq<V.StallEvent> {
    seq(|stalls|, i requires 0 <= i < |stalls| => V.StallEvent(stalls[i].conn, stalls[i].at, stalls[i].gap))
  }

  function Finalize(c: Config, s: Probe, p95: real): V.PortMetrics {
    var dur := if c.durationSecs == 0 then 1 else c.durationSecs;
    var recv := Total(Recvs(s.flows));
    V.PortMetrics(|s.flows|, Total(Connecteds(s.flows)), s.connectFailed, s.midstream, Total(Silents(s.flows)),
                  Events(s.stalls), Total(Sents(s.flows)), recv,
                  recv as real * 8.0 / 1000.0 / dur as real, p95)
  }

  // ------------------------------------------------------------------ invariant

  /** Flows whose disconnect is counted, and tasks about to count one, are the flows marked broken. */
  ghost predicate CountsInv(s: Probe) {
    && s.midstream + Total(Adds(s.flows)) == Total(Brokens(s.flows))
    && s.connectFailed == Total(GaveUps(s.flows))
  }

  ghost predicate FlowsInv(c: Config, s: Probe) {
    && |s.flows| == c.flows
    && forall i :: 0 <= i < |s.flows| ==> FlowInv(s.clock, s.flows[i])
  }

  function RecordsOf(stalls: seq<StallRecord>, conn: nat): nat {
    if stalls == [] then 0
    else RecordsOf(stalls[..|stalls| - 1], conn) + if stalls[|stalls| - 1].conn == conn then 1 else 0
  }

  /** A mark of this flow that is not (or no longer) on its way into the list. */
  function InHand(dog: DogPc, conn: nat): nat {
    if (dog.Look? && dog.stage.Push? && dog.conn == conn) || (dog.DogCancelled? && dog.conn == conn) then 1 else 0
  }

  /** The record is true of the flow's stamps: quiet for `gap` up to `at` when the watchdog
      looked, and later stamps are at or after `at`, but for the one the reader was holding. */
  ghost predicate Truthful(c: Config, clock: nat, f: Flow, r: StallRecord) {
    && 1 <= r.seen <= |f.stamps|
    && r.gap > c.stallMs && r.at <= clock
    && f.stamps[r.seen - 1] + r.gap == r.at
    && (forall k :: r.seen < k < |f.stamps| ==> r.at <= f.stamps[k])
    && (if |f.stamps| == r.seen then r.raced <==> HoldsStamp(f.task) && f.task.t < r.at
        else
          && (r.raced <==> f.stamps[r.seen] < r.at)
          && (HoldsStamp(f.task) ==> r.at <= f.task.t))
  }

  ghost predicate RecordOk(c: Config, s: Probe, r: StallRecord) {
    r.conn < |s.flows| && Truthful(c, s.clock, s.flows[r.conn], r)
  }

  ghost predicate RecordsInv(c: Config, s: Probe) {
    && (forall j :: 0 <= j < |s.stalls| ==> RecordOk(c, s, s.stalls[j]))
    && (forall j :: 0 <= j < |s.stalls| ==> s.stalls[j].episode == RecordsOf(s.stalls[..j], s.stalls[j].conn))
  }

  ghost predicate MarksInv(s: Probe) {
    forall i :: 0 <= i < |s.flows| ==> s.flows[i].marks == RecordsOf(s.stalls, i) + InHand(s.dog, i)
  }

  ghost predicate DogInv(c: Config, s: Probe) {
    && (s.dog.Look? ==> s.dog.now <= s.clock)
    && (s.dog.Look? && s.dog.conn < |s.flows| ==>
          match s.dog.stage
          case LookGap => s.flows[s.dog.conn].firstRecv
          case TrySwap(gap, seen, raced) => RecordOk(c, s, StallRecord(s.dog.conn, s.dog.now, gap, seen, raced, 0))
          case Push(r) => r.conn == s.dog.conn && RecordOk(c, s, r) && r.episode == RecordsOf(s.stalls, r.conn)
          case _ => true)
    && (s.dog.Look? && s.dog.conn >= |s.flows| ==> s.dog.stage == LookConnected)
    && (s.dog.DogCancelled? ==> AbortAsked(s.main))
  }

  /** The counters read in an unfinished sum lie between the last sample's and the present ones. */
  ghost predicate PartialInv(part: seq<nat>, last: seq<nat>, present: seq<nat>) {
    && |part| <= |last| == |present|
    && forall i :: 0 <= i < |part| ==> last[i] <= part[i] <= present[i]
  }

  ghost predicate SamplerInv(s: Probe) {
    var m := s.sampler;
    && Below(m.lastDown, Recvs(s.flows)) && Below(m.lastUp, Sents(s.flows))
    && m.prevDown == Total(m.lastDown) && m.prevUp == Total(m.lastUp)
    && Total(m.down) == m.prevDown && Total(m.up) == m.prevUp
    && (m.pc == SumDown ==> PartialInv(m.current, m.lastDown, Recvs(s.flows)) && m.acc == Total(m.current))
    && (m.pc.SumUp? ==>
          && PartialInv(m.current, m.lastUp, Sents(s.flows)) && m.acc == Total(m.current)
          && PartialInv(m.currentDown, m.lastDown, Recvs(s.flows)) && |m.currentDown| == |s.flows|
          && m.pc.down == Total(m.currentDown))
  }

  ghost predicate AllJoined(s: Probe) {
    forall i :: 0 <= i < |s.flows| ==> s.flows[i].task == Joined
  }

  ghost predicate MainInv(c: Config, s: Probe) {
    && (s.main != Joining ==> AllJoined(s) && s.windingDown)
    && (s.main.Finished? ==>
          exists p95: real, k: nat ::
            k <= |s.stalls| && s.main.metrics == Finalize(c, s.(stalls := s.stalls[..k]), p95))
  }

  ghost predicate Inv(c: Config, s: Probe) {
    && FlowsInv(c, s) && CountsInv(s)
    && RecordsInv(c, s) && MarksInv(s) && DogInv(c, s)
    && SamplerInv(s) && MainInv(c, s)
  }

  // ------------------------------------------------------------------ preservation: a flow's own step

  lemma CountsKept(s: Probe, s': Probe, i: nat, f': Flow, eff: Effect)
    requires i < |s.flows| && CountsInv(s) && CountEffect(s.flows[i], f', eff)
    requires s'.flows == s.flows[i := f'] && s'.midstream == s.midstream + eff.mid
    requires s'.connectFailed == s.connectFailed + eff.fail
    ensures CountsInv(s')
  {
    assert Brokens(s'.flows) == Brokens(s.flows)[i := Broken(f')];
    assert Adds(s'.flows) == Adds(s.flows)[i := PendingAdds(f')];
    assert GaveUps(s'.flows) == GaveUps(s.flows)[i := GaveUp(f')];
    TotalUpdate(Brokens(s.flows), i, Broken(f'));
    TotalUpdate(Adds(s.flows), i, PendingAdds(f'));
    TotalUpdate(GaveUps(s.flows), i, GaveUp(f'));
  }

  lemma TruthKept(c: Config, clock: nat, f: Flow, f': Flow, r: StallRecord)
    requires Truthful(c, clock, f, r) && StampEffect(clock, f, f')
    ensures Truthful(c, clock, f', r)
  {
  }

  lemma RecordsKept(c: Config, s: Probe, s': Probe, i: nat, f': Flow)
    requires i < |s.flows| && s'.flows == s.flows[i := f'] && StampEffect(s.clock, s.flows[i], f')
    requires s'.clock == s.clock && s'.stalls == s.stalls && RecordsInv(c, s)
    ensures RecordsInv(c, s')
    ensures forall r :: RecordOk(c, s, r) ==> RecordOk(c, s', r)
  {
    forall r | RecordOk(c, s, r) ensures RecordOk(c, s', r) {
      if r.conn == i {
        TruthKept(c, s.clock, s.flows[i], f', r);
      }
    }
  }

  lemma PartialKept(part: seq<nat>, last: seq<nat>, present: seq<nat>, present': seq<nat>)
    requires PartialInv(part, last, present) && Below(present, present')
    ensures PartialInv(part, last, present')
  {
  }

  lemma SamplerKept(s: Probe, s': Probe)
    requires SamplerInv(s) && s'.sampler == s.sampler && |s'.flows| == |s.flows|
    requires forall i :: 0 <= i < |s.flows| ==> Grows(s.flows[i], s'.flows[i])
    ensures SamplerInv(s')
  {
    var m := s.sampler;
    assert Below(Recvs(s.flows), Recvs(s'.flows));
    assert Below(Sents(s.flows), Sents(s'.flows));
    if m.pc == SumDown {
      PartialKept(m.current, m.lastDown, Recvs(s.flows), Recvs(s'.flows));
    } else if m.pc.SumUp? {
      PartialKept(m.currentDown, m.lastDown, Recvs(s.flows), Recvs(s'.flows));
      PartialKept(m.current, m.lastUp, Sents(s.flows), Sents(s'.flows));
    }
  }

  lemma JoinedIsStill(e: Env, f: Flow, f': Flow, eff: Effect, frameLen: nat)
    requires FlowInv(e.clock, f) && f.task == Joined
    ensures !FlowStep(e, f, f', eff, frameLen)
  {
  }

  lemma TaskKeeps(c: Config, s: Probe, s': Probe, i: nat, f': Flow, eff: Effect)
    requires Inv(c, s) && TaskStep(c, s, s', i, f', eff)
    ensures Inv(c, s')
  {
    hide CountsInv, RecordsInv, SamplerInv, CountEffect, StampEffect, StallEffect;
    var e := EnvOf(c, s);
    FlowKeeps(e, s.flows[i], f', eff, c.frameLen);
    CountsKept(s, s', i, f', eff);
    RecordsKept(c, s, s', i, f');
    SamplerKept(s, s');
    if AllJoined(s) {
      JoinedIsStill(e, s.flows[i], f', eff, c.frameLen);
    }
  }

  // ------------------------------------------------------------------ preservation: clock and watchdog

  /** What `finalize` reads of a flow. */
  ghost predicate SameReading(f: Flow, f': Flow) {
    f'.connected == f.connected && f'.bytesSent == f.bytesSent && f'.bytesRecv == f.bytesRecv && f'.task == f.task
  }

  /** The metrics, once written, hold the stalls recorded by then. */
  lemma MainKept(c: Config, s: Probe, s': Probe)
    requires MainInv(c, s) && s'.main == s.main && s'.windingDown == s.windingDown
    requires s'.connectFailed == s.connectFailed && s'.midstream == s.midstream && s.stalls <= s'.stalls
    requires |s'.flows| == |s.flows| && forall i :: 0 <= i < |s.flows| ==> SameReading(s.flows[i], s'.flows[i])
    ensures MainInv(c, s')
  {
    if s.main.Finished? {
      var p95: real, k: nat :| k <= |s.stalls| && s.main.metrics == Finalize(c, s.(stalls := s.stalls[..k]), p95);
      assert s'.stalls[..k] == s.stalls[..k];
      SameFinalize(c, s.(stalls := s.stalls[..k]), s'.(stalls := s'.stalls[..k]), p95);
    }
  }

  lemma SameFinalize(c: Config, s: Probe, s': Probe, p95: real)
    requires s'.connectFailed == s.connectFailed && s'.midstream == s.midstream && s.stalls == s'.stalls
    requires |s'.flows| == |s.flows| && forall i :: 0 <= i < |s.flows| ==> SameReading(s.flows[i], s'.flows[i])
    ensures Finalize(c, s', p95) == Finalize(c, s, p95)
  {
    assert Recvs(s'.flows) == Recvs(s.flows);
    assert Sents(s'.flows) == Sents(s.flows);
    assert Connecteds(s'.flows) == Connecteds(s.flows);
    assert Silents(s'.flows) == Silents(s.flows);
  }

  lemma ClockRecords(c: Config, s: Probe, s': Probe)
    requires s'.flows == s.flows && s.clock <= s'.clock
    ensures forall r :: RecordOk(c, s, r) ==> RecordOk(c, s', r)
  {
  }

  lemma ClockFlows(c: Config, s: Probe, s': Probe)
    requires FlowsInv(c, s) && s'.flows == s.flows && s.clock <= s'.clock
    ensures FlowsInv(c, s')
  {
    forall i | 0 <= i < |s.flows| ensures FlowInv(s'.clock, s'.flows[i]) {
      ClockKeeps(s.clock, s'.clock, s.flows[i]);
    }
  }

  lemma TickKeeps(c: Config, s: Probe, s': Probe)
    requires Inv(c, s) && Tick(s, s')
    ensures Inv(c, s')
  {
    ClockFlows(c, s, s');
    ClockRecords(c, s, s');
    MainKept(c, s, s');
  }

  /** A step of the watchdog's program counter alone. */
  lemma DogMoves(c: Config, s: Probe, s': Probe)
    requires FlowsInv(c, s) && CountsInv(s) && RecordsInv(c, s) && MarksInv(s) && SamplerInv(s) && MainInv(c, s)
    requires s' == s.(dog := s'.dog)
    requires forall i :: 0 <= i < |s.flows| ==> InHand(s'.dog, i) == InHand(s.dog, i)
    ensures FlowsInv(c, s') && CountsInv(s') && RecordsInv(c, s') && MarksInv(s') && SamplerInv(s') && MainInv(c, s')
    ensures forall r :: RecordOk(c, s, r) ==> RecordOk(c, s', r)
  {
    ClockRecords(c, s, s');
    MainKept(c, s, s');
  }

  lemma DogWakesKeeps(c: Config, s: Probe, s': Probe)
    requires Inv(c, s) && DogWakes(c, s, s')
    ensures Inv(c, s')
  {
    DogMoves(c, s, s');
  }

  /** What the watchdog computes when it finds a long gap is true of the flow. */
  lemma GapIsTrue(c: Config, clock: nat, f: Flow, conn: nat, now: nat)
    requires FlowInv(clock, f) && f.firstRecv && now <= clock && Saturating(now, f.lastRecvMs) > c.stallMs
    ensures Truthful(c, clock, f, StallRecord(conn, now, Saturating(now, f.lastRecvMs), |f.stamps|,
                                              HoldsStamp(f.task) && f.task.t < now, 0))
  {
  }

  lemma DogLooksKeeps(c: Config, s: Probe, s': Probe)
    requires Inv(c, s) && DogLooks(c, s, s')
    ensures Inv(c, s')
  {
    hide CountsInv, RecordsInv, SamplerInv, MarksInv, MainInv, FlowsInv;
    DogMoves(c, s, s');
    var i := s.dog.conn;
    if i < |s.flows| && s.dog.stage == LookGap && Saturating(s.dog.now, s.flows[i].lastRecvMs) > c.stallMs {
      GapIsTrue(c, s.clock, s.flows[i], i, s.dog.now);
    }
  }

  lemma SwapFlow(clock: nat, f: Flow, seen: nat)
    requires FlowInv(clock, f) && !f.inStall
    ensures var f' := MarkedFlow(f, seen);
            && FlowInv(clock, f') && StampEffect(clock, f, f') && CountEffect(f, f', QUIET) && Grows(f, f')
  {
  }

  lemma SwapMarks(s: Probe, s': Probe)
    requires MarksInv(s) && DogSwaps(s, s') && !s.flows[s.dog.conn].inStall
    ensures MarksInv(s')
  {
    var i := s.dog.conn;
    forall k | 0 <= k < |s'.flows| ensures s'.flows[k].marks == RecordsOf(s'.stalls, k) + InHand(s'.dog, k) {
      assert s.flows[k].marks == RecordsOf(s.stalls, k) + InHand(s.dog, k);
    }
  }

  lemma SwapRecord(c: Config, s: Probe, s': Probe)
    requires FlowsInv(c, s) && MarksInv(s) && DogInv(c, s) && DogSwaps(s, s')
    requires !s.flows[s.dog.conn].inStall
    requires forall r :: RecordOk(c, s, r) ==> RecordOk(c, s', r)
    ensures DogInv(c, s')
  {
    var i, stage := s.dog.conn, s.dog.stage;
    var f := s.flows[i];
    assert FlowInv(s.clock, f);
    assert f.marks == RecordsOf(s.stalls, i) + InHand(s.dog, i);
    SameTruth(c, s', StallRecord(i, s.dog.now, stage.gap, stage.seen, stage.raced, 0), f.clears);
  }

  lemma SameTruth(c: Config, s: Probe, r: StallRecord, episode: nat)
    requires RecordOk(c, s, r)
    ensures RecordOk(c, s, r.(episode := episode))
  {
  }

  lemma DogSwapsKeeps(c: Config, s: Probe, s': Probe)
    requires Inv(c, s) && DogSwaps(s, s')
    ensures Inv(c, s')
  {
    hide CountsInv, RecordsInv, SamplerInv, MarksInv, MainInv;
    var i := s.dog.conn;
    var f := s.flows[i];
    if f.inStall {
      DogMoves(c, s, s');
    } else {
      var f' := MarkedFlow(f, s.dog.stage.seen);
      SwapFlow(s.clock, f, s.dog.stage.seen);
      CountsKept(s, s', i, f', QUIET);
      RecordsKept(c, s, s', i, f');
      SamplerKept(s, s');
      MainKept(c, s, s');
      SwapMarks(s, s');
      SwapRecord(c, s, s');
    }
  }

  lemma PushedRecords(c: Config, s: Probe, s': Probe, r: StallRecord)
    requires RecordsInv(c, s) && s'.flows == s.flows && s'.clock == s.clock && s'.stalls == s.stalls + [r]
    requires RecordOk(c, s, r) && r.episode == RecordsOf(s.stalls, r.conn)
    ensures RecordsInv(c, s')
    ensures forall i :: RecordsOf(s'.stalls, i) == RecordsOf(s.stalls, i) + if r.conn == i then 1 else 0
  {
    ClockRecords(c, s, s');
    assert s'.stalls[..|s'.stalls| - 1] == s.stalls;
    forall j | 0 <= j < |s'.stalls|
      ensures RecordOk(c, s', s'.stalls[j]) && s'.stalls[j].episode == RecordsOf(s'.stalls[..j], s'.stalls[j].conn)
    {
      assert s'.stalls[..j] == if j == |s.stalls| then s.stalls else s.stalls[..j];
    }
  }

  /** The record goes into the list. */
  lemma PushKeeps(c: Config, s: Probe, s': Probe)
    requires Inv(c, s) && s.dog.Look? && s.dog.stage.Push? && s.dog.conn < |s.flows|
    requires s' == s.(stalls := s.stalls + [s.dog.stage.record], dog := Onward(s.dog.now, s.dog.conn))
    ensures Inv(c, s')
  {
    hide FlowsInv, CountsInv, SamplerInv, RecordsInv, MainInv, RecordOk, RecordsOf;
    SameFlows(c, s, s');
    PushedRecords(c, s, s', s.dog.stage.record);
    MainKept(c, s, s');
  }

  lemma SameFlows(c: Config, s: Probe, s': Probe)
    requires s'.flows == s.flows && s'.clock == s.clock && s'.midstream == s.midstream
    requires s'.connectFailed == s.connectFailed && s'.sampler == s.sampler
    ensures FlowsInv(c, s') == FlowsInv(c, s) && CountsInv(s') == CountsInv(s) && SamplerInv(s') == SamplerInv(s)
  {
  }

  /** The abort meets the watchdog in front of the lock. */
  lemma CancelKeeps(c: Config, s: Probe, s': Probe)
    requires Inv(c, s) && s.dog.Look? && s.dog.stage.Push? && s.dog.conn < |s.flows|
    requires AbortAsked(s.main) && s' == s.(dog := DogCancelled(s.dog.conn))
    ensures Inv(c, s')
  {
    hide FlowsInv, CountsInv, RecordsInv, MarksInv, SamplerInv, MainInv, RecordOk;
    DogMoves(c, s, s');
  }

  lemma DogPushesKeeps(c: Config, s: Probe, s': Probe)
    requires Inv(c, s) && DogPushes(s, s')
    ensures Inv(c, s')
  {
    hide Inv;
    if s'.dog.DogCancelled? {
      CancelKeeps(c, s, s');
    } else {
      PushKeeps(c, s, s');
    }
  }

  // ------------------------------------------------------------------ preservation: sampler and main

  /** One more counter is read into an unfinished sum. */
  lemma ReadOne(part: seq<nat>, last: seq<nat>, present: seq<nat>, v: nat)
    requires PartialInv(part, last, present) && Below(last, present)
    requires |part| < |present| && v == present[|part|]
    ensures PartialInv(part + [v], last, present) && Total(part + [v]) == Total(part) + v
  {
    TotalSnoc(part, v);
  }

  /** A finished sum lies between the last sample's total and the present one. */
  lemma ReadAll(part: seq<nat>, last: seq<nat>, present: seq<nat>)
    requires PartialInv(part, last, present) && |part| == |present|
    ensures Below(last, part) && Below(part, present) && Total(last) <= Total(part)
  {
    TotalBelow(last, part);
  }

  lemma SamplerSums(c: Config, s: Probe, s': Probe)
    requires |s.flows| == c.flows && SamplerInv(s) && SamplerStep(c, s, s')
    ensures SamplerInv(s')
  {
    var m := s.sampler;
    match m.pc
    case SumDown =>
      if |m.current| < |s.flows| {
        ReadOne(m.current, m.lastDown, Recvs(s.flows), s.flows[|m.current|].bytesRecv);
      }
    case SumUp(down) =>
      if |m.current| < |s.flows| {
        ReadOne(m.current, m.lastUp, Sents(s.flows), s.flows[|m.current|].bytesSent);
      } else {
        ReadAll(m.currentDown, m.lastDown, Recvs(s.flows));
        ReadAll(m.current, m.lastUp, Sents(s.flows));
        TotalSnoc(m.down, Saturating(down, m.prevDown));
        TotalSnoc(m.up, Saturating(m.acc, m.prevUp));
      }
    case _ =>
  }

  lemma SamplerKeeps(c: Config, s: Probe, s': Probe)
    requires Inv(c, s) && SamplerStep(c, s, s')
    ensures Inv(c, s')
  {
    SamplerSums(c, s, s');
    ClockRecords(c, s, s');
    MainKept(c, s, s');
  }

  lemma MainMoves(c: Config, s: Probe, s': Probe)
    requires MainInv(c, s) && MainStep(c, s, s')
    ensures MainInv(c, s')
  {
    if s.main == Aborted {
      var p95: real :| s' == s.(main := Finished(Finalize(c, s, p95)));
      assert s.stalls[..|s.stalls|] == s.stalls;
      SameFinalize(c, s, s'.(stalls := s'.stalls[..|s.stalls|]), p95);
    }
  }

  lemma MainFrame(c: Config, s: Probe, s': Probe)
    requires FlowsInv(c, s) && CountsInv(s) && RecordsInv(c, s) && MarksInv(s) && DogInv(c, s) && SamplerInv(s)
    requires s' == s.(main := s'.main, windingDown := s'.windingDown) && (AbortAsked(s.main) ==> AbortAsked(s'.main))
    ensures FlowsInv(c, s') && CountsInv(s') && RecordsInv(c, s') && MarksInv(s') && DogInv(c, s') && SamplerInv(s')
  {
    ClockRecords(c, s, s');
  }

  lemma MainKeeps(c: Config, s: Probe, s': Probe)
    requires Inv(c, s) && MainStep(c, s, s')
    ensures Inv(c, s')
  {
    hide MainInv, FlowsInv, CountsInv, RecordsInv, MarksInv, DogInv, SamplerInv;
    MainFrame(c, s, s');
    MainMoves(c, s, s');
  }

  lemma InitInv(c: Config, s: Probe)
    requires Init(c, s)
    ensures Inv(c, s)
  {
    NewFlowInv(0);
    TotalZero(Brokens(s.flows));
    TotalZero(Adds(s.flows));
    TotalZero(GaveUps(s.flows));
    TotalZero(s.sampler.lastDown);
    TotalZero(s.sampler.lastUp);
  }

  lemma NextKeeps(c: Config, s: Probe, s': Probe)
    requires Inv(c, s) && Next(c, s, s')
    ensures Inv(c, s')
  {
    if i: nat, f', eff :| TaskStep(c, s, s', i, f', eff) {
      TaskKeeps(c, s, s', i, f', eff);
    } else if Tick(s, s') {
      TickKeeps(c, s, s');
    } else if DogWakes(c, s, s') {
      DogWakesKeeps(c, s, s');
    } else if DogLooks(c, s, s') {
      DogLooksKeeps(c, s, s');
    } else if DogSwaps(s, s') {
      DogSwapsKeeps(c, s, s');
    } else if DogPushes(s, s') {
      DogPushesKeeps(c, s, s');
    } else if SamplerStep(c, s, s') {
      SamplerKeeps(c, s, s');
    } else {
      MainKeeps(c, s, s');
    }
  }

  ghost predicate StepAt(c: Config, run: seq<Probe>, i: nat)
    requires 0 < i < |run|
  {
    Next(c, run[i - 1], run[i])
  }

  ghost predicate IsRun(c: Config, run: seq<Probe>) {
    && run != [] && Init(c, run[0])
    && forall i :: 0 < i < |run| ==> StepAt(c, run, i)
  }

  lemma StepKeeps(c: Config, run: seq<Probe>, i: nat)
    requires 0 < i < |run| && StepAt(c, run, i) && Inv(c, run[i - 1])
    ensures Inv(c, run[i])
  {
    NextKeeps(c, run[i - 1], run[i]);
  }

  lemma {:induction false} RunInv(c: Config, run: seq<Probe>, i: nat)
    requires IsRun(c, run) && i < |run|
    ensures Inv(c, run[i])
  {
    hide Inv;
    if i == 0 {
      InitInv(c, run[i]);
    } else {
      RunInv(c, run, i - 1);
      StepKeeps(c, run, i);
    }
  }
}
