/**
 The watchdog's scan: which flows it comes to, what it loads of each, and what it then does.  All of it is said of the
 states of a run, without the step relation's own account of where the watchdog goes next.
 */
module Scans {
  import opened Basics
  import opened Flow
  import opened Probe
  import Q = QuietPeriods
  import R = ProbeResults
  import V = Verdict

  /** The visit to one flow: the state in which it begins, the states in which a field of the flow is loaded, the one in front
      of the swap if it comes to that, and the state in which it is over. */
  datatype Visit = Visit(start: nat, loads: seq<nat>, swap: nat, end: nat)

  /** What the `m`th load must say for the watchdog to go on with the flow. */
  predicate GoesOn(c: Config, f: Flow, now: nat, m: nat) {
    if m == 0 then f.connected
    else if m == 1 then !f.disconnected
    else if m == 2 then f.firstRecv
    else Saturating(now, f.lastRecvMs) > c.stallMs
  }

  function StageOf(m: nat): Stage {
    if m == 0 then LookConnected else if m == 1 then LookDisconnected else if m == 2 then LookFirst else LookGap
  }

  function FlowAt(run: seq<Probe>, k: nat, i: nat): Flow {
    if k < |run| && i < |run[k].flows| then run[k].flows[i] else NEW_FLOW
  }

  /** State `k` is the one in front of the `m`th load. */
  ghost predicate LoadAt(run: seq<Probe>, now: nat, i: nat, k: nat, m: nat) {
    k + 1 < |run| && i < |run[k].flows| && run[k].dog == Look(now, i, StageOf(m)) && run[k + 1].dog != run[k].dog
  }

  /** The `m`th of the loads: where the watchdog stands, and, if there is another, what it says and that the other is later. */
  ghost predicate LoadOk(c: Config, run: seq<Probe>, now: nat, i: nat, start: nat, loads: seq<nat>, m: nat) {
    && m < |loads| && start <= loads[m] && LoadAt(run, now, i, loads[m], m)
    && (m + 1 < |loads| ==> loads[m] < loads[m + 1] && GoesOn(c, FlowAt(run, loads[m], i), now, m))
  }

  /** The loads, one after the other, each but for the last saying that the watchdog goes on. */
  ghost predicate Loads(c: Config, run: seq<Probe>, now: nat, i: nat, start: nat, loads: seq<nat>, before: nat) {
    && |loads| <= 4 && (loads != [] ==> loads[|loads| - 1] < before)
    && forall m | 0 <= m < |loads| :: LoadOk(c, run, now, i, start, loads, m)
  }

  predicate LastSays(c: Config, run: seq<Probe>, now: nat, i: nat, v: Visit)
    requires v.loads != []
  {
    GoesOn(c, FlowAt(run, v.loads[|v.loads| - 1], i), now, |v.loads| - 1)
  }

  /** The gap that the last load gives. */
  function GapOf(run: seq<Probe>, now: nat, i: nat, v: Visit): nat
    requires v.loads != []
  {
    Saturating(now, FlowAt(run, v.loads[|v.loads| - 1], i).lastRecvMs)
  }

  /** How many stamps the flow has at the last load. */
  function SeenOf(run: seq<Probe>, i: nat, v: Visit): nat
    requires v.loads != []
  {
    |FlowAt(run, v.loads[|v.loads| - 1], i).stamps|
  }

  /** State `k` is the one in front of the swap, which leaves the flow in a stall. */
  ghost predicate SwapAt(run: seq<Probe>, now: nat, i: nat, k: nat, gap: nat, seen: nat) {
    && k + 1 < |run| && run[k].dog.Look? && run[k].dog.now == now && run[k].dog.conn == i
    && run[k].dog.stage.TrySwap? && run[k].dog.stage.gap == gap && run[k].dog.stage.seen == seen
    && DogSwaps(run[k], run[k + 1]) && FlowAt(run, k + 1, i).inStall
  }

  /** The record of the gap goes into the list with the step in front of state `k`. */
  ghost predicate PushedAt(run: seq<Probe>, now: nat, i: nat, k: nat, gap: nat, seen: nat) {
    && 0 < k < |run|
    && exists r: StallRecord ::
         r.conn == i && r.at == now && r.gap == gap && r.seen == seen && run[k].stalls == run[k - 1].stalls + [r]
  }

  /** A whole visit.  Either the last load turns the flow down, and the watchdog is gone with that very step; or all four loads
      say that it goes on, and it swaps, and if it is the one that sets the flag it pushes the record. */
  ghost predicate IsVisit(c: Config, run: seq<Probe>, now: nat, i: nat, v: Visit) {
    && v.start < v.end < |run| && v.loads != [] && Loads(c, run, now, i, v.start, v.loads, v.end)
    && run[v.start].dog == Look(now, i, LookConnected) && run[v.end].dog == Look(now, i + 1, LookConnected)
    && var last := v.loads[|v.loads| - 1];
       if !LastSays(c, run, now, i, v) then v.end == last + 1
       else
         && |v.loads| == 4 && last < v.swap < v.end && SwapAt(run, now, i, v.swap, GapOf(run, now, i, v), SeenOf(run, i, v))
         && if FlowAt(run, v.swap, i).inStall then v.end == v.swap + 1
            else PushedAt(run, now, i, v.end, GapOf(run, now, i, v), SeenOf(run, i, v))
  }

  // ------------------------------------------------------------------ a visit under way

  ghost predicate UnderWay(c: Config, run: seq<Probe>, now: nat, i: nat, v: Visit, k: nat) {
    && v.start <= k < |run| && Loads(c, run, now, i, v.start, v.loads, k)
    && run[v.start].dog == Look(now, i, LookConnected) && run[k].dog.Look? && run[k].dog.now == now && run[k].dog.conn == i
    && if |v.loads| < 4 then
         run[k].dog.stage == StageOf(|v.loads|) && (v.loads != [] ==> LastSays(c, run, now, i, v))
       else
         && LastSays(c, run, now, i, v)
         && match run[k].dog.stage
            case TrySwap(gap, seen, _) => gap == GapOf(run, now, i, v) && seen == SeenOf(run, i, v)
            case Push(r) =>
              && v.loads[3] < v.swap < k && SwapAt(run, now, i, v.swap, GapOf(run, now, i, v), SeenOf(run, i, v))
              && !FlowAt(run, v.swap, i).inStall
              && r.conn == i && r.at == now && r.gap == GapOf(run, now, i, v) && r.seen == SeenOf(run, i, v)
            case _ => false
  }

  lemma DogsOwn(c: Config, s: Probe, s': Probe)
    requires Next(c, s, s') && s'.dog != s.dog
    ensures DogWakes(c, s, s') || DogLooks(c, s, s') || DogSwaps(s, s') || DogPushes(s, s')
    ensures |s'.flows| == |s.flows|
  {
  }

  lemma Waits(c: Config, run: seq<Probe>, now: nat, i: nat, v: Visit, k: nat)
    requires k + 1 < |run| && UnderWay(c, run, now, i, v, k) && run[k + 1].dog == run[k].dog
    ensures UnderWay(c, run, now, i, v, k + 1)
  {
    hide LoadOk, GoesOn, SwapAt;
  }

  lemma BeginsAt(c: Config, run: seq<Probe>, now: nat, i: nat, k: nat)
    requires k < |run| && run[k].dog == Look(now, i, LookConnected)
    ensures UnderWay(c, run, now, i, Visit(k, [], 0, 0), k)
  {
  }

  /** What a load of the watchdog leads to, stage by stage. */
  lemma LoadLeads(c: Config, s: Probe, s': Probe, now: nat, i: nat, m: nat)
    requires DogLooks(c, s, s') && m < 4 && s.dog == Look(now, i, StageOf(m)) && i < |s.flows|
    ensures !GoesOn(c, s.flows[i], now, m) ==> s'.dog == Look(now, i + 1, LookConnected)
    ensures GoesOn(c, s.flows[i], now, m) && m < 3 ==> s'.dog == Look(now, i, StageOf(m + 1))
    ensures GoesOn(c, s.flows[i], now, m) && m == 3 ==>
              && s'.dog.Look? && s'.dog.now == now && s'.dog.conn == i && s'.dog.stage.TrySwap?
              && s'.dog.stage.gap == Saturating(now, s.flows[i].lastRecvMs) && s'.dog.stage.seen == |s.flows[i].stamps|
  {
  }

  /** The visit has come one step further, or is over. */
  ghost predicate Further(c: Config, run: seq<Probe>, now: nat, i: nat, v: Visit, k: nat) {
    UnderWay(c, run, now, i, v, k) || (v.end == k && IsVisit(c, run, now, i, v))
  }

  lemma OneMoreLoad(c: Config, run: seq<Probe>, now: nat, i: nat, start: nat, loads: seq<nat>, k: nat)
    requires start <= k && Loads(c, run, now, i, start, loads, k) && |loads| < 4 && LoadAt(run, now, i, k, |loads|)
    requires loads != [] ==> GoesOn(c, FlowAt(run, loads[|loads| - 1], i), now, |loads| - 1)
    ensures Loads(c, run, now, i, start, loads + [k], k + 1)
  {
    hide LoadAt, GoesOn;
    forall m | 0 <= m < |loads| + 1 ensures LoadOk(c, run, now, i, start, loads + [k], m) {
      assert m < |loads| ==> LoadOk(c, run, now, i, start, loads, m);
    }
  }

  lemma Loaded(c: Config, run: seq<Probe>, now: nat, i: nat, v: Visit, k: nat) returns (v': Visit)
    requires k + 1 < |run| && UnderWay(c, run, now, i, v, k) && run[k + 1].dog != run[k].dog
    requires |v.loads| < 4 && i < |run[k].flows| && DogLooks(c, run[k], run[k + 1])
    ensures v'.start == v.start && Further(c, run, now, i, v', k + 1)
  {
    var m := |v.loads|;
    LoadLeads(c, run[k], run[k + 1], now, i, m);
    v' := Visit(v.start, v.loads + [k], 0, k + 1);
    assert LoadAt(run, now, i, k, m);
    assert v'.loads[m] == k;
    hide DogLooks, GoesOn, LoadAt, SwapAt, PushedAt, Loads;
    OneMoreLoad(c, run, now, i, v.start, v.loads, k);
  }

  lemma Swapped(c: Config, run: seq<Probe>, now: nat, i: nat, v: Visit, k: nat) returns (v': Visit)
    requires k + 1 < |run| && UnderWay(c, run, now, i, v, k) && i < |run[k].flows| && DogSwaps(run[k], run[k + 1])
    ensures v'.start == v.start && Further(c, run, now, i, v', k + 1)
  {
    v' := Visit(v.start, v.loads, k, k + 1);
    assert |v.loads| == 4 && v.loads[3] < k;
    assert SwapAt(run, now, i, k, GapOf(run, now, i, v), SeenOf(run, i, v));
  }

  lemma Pushed(c: Config, run: seq<Probe>, now: nat, i: nat, v: Visit, k: nat) returns (v': Visit)
    requires k + 1 < |run| && UnderWay(c, run, now, i, v, k) && i < |run[k].flows| && DogPushes(run[k], run[k + 1])
    requires !run[k + 1].dog.DogCancelled?
    ensures v'.start == v.start && v'.end == k + 1 && IsVisit(c, run, now, i, v')
  {
    v' := v.(end := k + 1);
    assert |v.loads| == 4;
    hide SwapAt;
    assert PushedAt(run, now, i, k + 1, run[k].dog.stage.record.gap, run[k].dog.stage.record.seen);
  }

  /** A step of the watchdog while it visits flow `i`: the visit goes on, or is over, or the abort takes the record from its
      hand. */
  lemma Onwards(c: Config, run: seq<Probe>, now: nat, i: nat, v: Visit, k: nat) returns (v': Visit)
    requires k + 1 < |run| && UnderWay(c, run, now, i, v, k) && Next(c, run[k], run[k + 1]) && i < |run[k].flows|
    requires run[k + 1].dog.Look?
    ensures v'.start == v.start && Further(c, run, now, i, v', k + 1)
  {
    hide DogLooks, DogSwaps, DogPushes, Loads, GoesOn, SwapAt;
    if run[k + 1].dog == run[k].dog {
      Waits(c, run, now, i, v, k);
      return v;
    }
    DogsOwn(c, run[k], run[k + 1]);
    if DogLooks(c, run[k], run[k + 1]) {
      StillLoading(c, run, now, i, v, k);
      v' := Loaded(c, run, now, i, v, k);
    } else if DogSwaps(run[k], run[k + 1]) {
      v' := Swapped(c, run, now, i, v, k);
    } else {
      v' := Pushed(c, run, now, i, v, k);
    }
  }

  lemma StillLoading(c: Config, run: seq<Probe>, now: nat, i: nat, v: Visit, k: nat)
    requires k + 1 < |run| && UnderWay(c, run, now, i, v, k) && i < |run[k].flows| && DogLooks(c, run[k], run[k + 1])
    ensures |v.loads| < 4
  {
  }

  // ------------------------------------------------------------------ the scan

  /** The watchdog has read the clock with the step in front of state `j`, and has been at it ever since, up to state `k`. */
  ghost predicate Scanning(run: seq<Probe>, j: nat, k: nat) {
    0 < j <= k < |run| && run[j - 1].dog == DogClock && forall l | j <= l <= k :: run[l].dog.Look?
  }

  /** The visits follow one another without a gap, from state `j` to state `k`. */
  ghost predicate Chained(visits: seq<Visit>, j: nat, k: nat) {
    if visits == [] then j == k
    else
      && visits[0].start == j && visits[|visits| - 1].end == k
      && forall i | 0 < i < |visits| :: visits[i - 1].end == visits[i].start
  }

  ghost predicate AllVisits(c: Config, run: seq<Probe>, now: nat, visits: seq<Visit>) {
    forall i | 0 <= i < |visits| :: IsVisit(c, run, now, i, visits[i])
  }

  /** The flows before `|visits|` have been visited, and flow `|visits|`, if there is one, is being visited. */
  ghost predicate SoFar(c: Config, run: seq<Probe>, j: nat, k: nat, visits: seq<Visit>, v: Visit) {
    && j <= k < |run| && 0 < j && v.start <= k && |visits| <= |run[k].flows| && Chained(visits, j, v.start)
    && AllVisits(c, run, run[j - 1].clock, visits)
    && if |visits| < |run[k].flows| then UnderWay(c, run, run[j - 1].clock, |visits|, v, k)
       else run[k].dog == Look(run[j - 1].clock, |visits|, LookConnected)
  }

  lemma FlowsStay(c: Config, s: Probe, s': Probe)
    requires Next(c, s, s')
    ensures |s'.flows| == |s.flows|
  {
  }

  lemma ChainOn(visits: seq<Visit>, j: nat, v: Visit)
    requires Chained(visits, j, v.start)
    ensures Chained(visits + [v], j, v.end)
  {
  }

  lemma {:induction false} ScanSoFar(c: Config, run: seq<Probe>, j: nat, k: nat) returns (visits: seq<Visit>, v: Visit)
    requires IsRun(c, run) && Scanning(run, j, k)
    ensures SoFar(c, run, j, k, visits, v)
    decreases k
  {
    hide IsRun, UnderWay, IsVisit, Next;
    if j == k {
      R.LastStep(c, run, j);
      ScanBegins(c, run, j);
      v := Visit(j, [], 0, 0);
      visits := [];
      BeginsAt(c, run, run[j - 1].clock, 0, j);
    } else {
      visits, v := ScanSoFar(c, run, j, k - 1);
      R.LastStep(c, run, k);
      FlowsStay(c, run[k - 1], run[k]);
      var now := run[j - 1].clock;
      if |visits| < |run[k].flows| {
        v := Onwards(c, run, now, |visits|, v, k - 1);
        if !UnderWay(c, run, now, |visits|, v, k) {
          ChainOn(visits, j, v);
          visits, v := NextFlow(c, run, now, visits, v, k);
        }
      } else {
        PastAll(c, run[k - 1], run[k]);
      }
    }
  }

  lemma ScanBegins(c: Config, run: seq<Probe>, j: nat)
    requires IsRun(c, run) && 0 < j < |run| && run[j - 1].dog == DogClock && run[j].dog.Look?
    requires Next(c, run[j - 1], run[j])
    ensures run[j].dog == Look(run[j - 1].clock, 0, LookConnected) && |run[j].flows| > 0
  {
    hide IsRun, Next;
    Several(c, run, j);
    ClockLeads(c, run[j - 1], run[j]);
  }

  lemma ClockLeads(c: Config, s: Probe, s': Probe)
    requires Next(c, s, s') && s.dog == DogClock && s'.dog.Look?
    ensures s'.dog == Look(s.clock, 0, LookConnected)
  {
  }

  lemma Some(c: Config, run: seq<Probe>)
    requires IsRun(c, run)
    ensures c.flows > 0
  {
  }

  lemma PastAll(c: Config, s: Probe, s': Probe)
    requires Next(c, s, s') && s.dog.Look? && s.dog.conn >= |s.flows| && s.dog.stage == LookConnected
    ensures s'.dog == s.dog || s'.dog == DogIdle
  {
  }

  lemma NextFlow(c: Config, run: seq<Probe>, now: nat, visits: seq<Visit>, v: Visit, k: nat)
    returns (visits': seq<Visit>, v': Visit)
    requires k < |run| && v.end == k && IsVisit(c, run, now, |visits|, v) && AllVisits(c, run, now, visits)
    ensures visits' == visits + [v] && AllVisits(c, run, now, visits') && v'.start == k
    ensures UnderWay(c, run, now, |visits'|, v', k) && run[k].dog == Look(now, |visits'|, LookConnected)
  {
    visits' := visits + [v];
    v' := Visit(k, [], 0, 0);
    BeginsAt(c, run, now, |visits'|, k);
    hide UnderWay;
    assert run[k].dog == Look(now, |visits| + 1, LookConnected);
    hide IsVisit;
  }

  /** A scan: begun with the step in front of state `j`, and left with the step into state `l`. */
  ghost predicate IsScan(run: seq<Probe>, j: nat, l: nat) {
    j < l < |run| && Scanning(run, j, l - 1) && !run[l].dog.Look?
  }

  lemma LeavesFrom(c: Config, s: Probe, s': Probe)
    requires Next(c, s, s') && s.dog.Look? && !s'.dog.Look?
    ensures s'.dog == DogIdle ==> s.dog.conn >= |s.flows|
    ensures s'.dog == DogIdle || (s'.dog.DogCancelled? && AbortAsked(s.main))
  {
  }

  /** A scan comes to every flow, in order and one after the other, from its first state on, unless the abort takes a record
      from the watchdog's hand; nothing else ends it early.  All of them are judged by the clock reading it began with. */
  lemma ScanVisitsAll(c: Config, run: seq<Probe>, j: nat, l: nat) returns (visits: seq<Visit>)
    requires IsRun(c, run) && IsScan(run, j, l)
    ensures run[l].dog == DogIdle || (run[l].dog.DogCancelled? && AbortAsked(run[l - 1].main))
    ensures AllVisits(c, run, run[j - 1].clock, visits)
    ensures run[l].dog == DogIdle ==>
              |visits| == |run[l].flows| > 0 && visits[|visits| - 1].end < l && Chained(visits, j, visits[|visits| - 1].end)
  {
    hide IsRun, Next, IsVisit, LoadAt;
    var v;
    visits, v := ScanSoFar(c, run, j, l - 1);
    R.LastStep(c, run, l);
    LeavesFrom(c, run[l - 1], run[l]);
    FlowsStay(c, run[l - 1], run[l]);
    Several(c, run, l);
  }

  lemma Several(c: Config, run: seq<Probe>, k: nat)
    requires IsRun(c, run) && k < |run|
    ensures |run[k].flows| == c.flows > 0
  {
    hide IsRun;
    RunInv(c, run, k);
    Some(c, run);
  }

  lemma LooksAfterClock(c: Config, s: Probe, s': Probe)
    requires Next(c, s, s') && s'.dog.Look?
    ensures s.dog.Look? || s.dog == DogClock
  {
  }

  /** The scan that the watchdog is in. */
  lemma {:induction false} ScanOf(c: Config, run: seq<Probe>, k: nat) returns (j: nat)
    requires IsRun(c, run) && k < |run| && run[k].dog.Look?
    ensures Scanning(run, j, k)
  {
    IdleAtFirst(c, run);
    hide IsRun, Next;
    R.LastStep(c, run, k);
    LooksAfterClock(c, run[k - 1], run[k]);
    if run[k - 1].dog.Look? {
      j := ScanOf(c, run, k - 1);
    } else {
      j := k;
    }
  }

  lemma IdleAtFirst(c: Config, run: seq<Probe>)
    requires IsRun(c, run)
    ensures run[0].dog == DogIdle
  {
  }

  /** Wherever the watchdog stands in front of a swap, in a whole scan or one that the abort cuts short, it has loaded of that
      flow, in this scan and in this order, that it is connected, not disconnected, has had a first frame, and has been
      silent for longer than the threshold, by the clock reading that the scan began with. */
  lemma SwapIsEarned(c: Config, run: seq<Probe>, k: nat) returns (j: nat, v: Visit)
    requires IsRun(c, run) && k < |run| && run[k].dog.Look? && run[k].dog.stage.TrySwap?
    requires run[k].dog.conn < |run[k].flows|
    ensures Scanning(run, j, k) && run[k].dog.now == run[j - 1].clock
    ensures j <= v.start && |v.loads| == 4 && Loads(c, run, run[k].dog.now, run[k].dog.conn, v.start, v.loads, k)
    ensures LastSays(c, run, run[k].dog.now, run[k].dog.conn, v)
    ensures run[k].dog.stage.gap == GapOf(run, run[k].dog.now, run[k].dog.conn, v)
  {
    hide IsRun, Loads, LastSays, IsVisit;
    j := ScanOf(c, run, k);
    var visits;
    visits, v := ScanSoFar(c, run, j, k);
    AtSwap(c, run, run[j - 1].clock, |visits|, v, k);
    InOrder(c, run, run[j - 1].clock, visits, j, v.start);
  }

  lemma AtSwap(c: Config, run: seq<Probe>, now: nat, i: nat, v: Visit, k: nat)
    requires UnderWay(c, run, now, i, v, k) && run[k].dog.stage.TrySwap?
    ensures |v.loads| == 4 && run[k].dog.now == now && run[k].dog.conn == i
  {
  }

  lemma InOrder(c: Config, run: seq<Probe>, now: nat, visits: seq<Visit>, j: nat, k: nat)
    requires AllVisits(c, run, now, visits) && Chained(visits, j, k)
    ensures j <= k
  {
    if visits != [] {
      forall m | 0 <= m < |visits| ensures visits[m].start < visits[m].end {
        assert IsVisit(c, run, now, m, visits[m]);
      }
      VisitWithin(visits, j, k, 0);
    }
  }

  // ------------------------------------------------------------------ a scan ends

  function StageRank(stage: Stage): (r: nat)
    ensures r <= 5
  {
    match stage
    case LookConnected => 0
    case LookDisconnected => 1
    case LookFirst => 2
    case LookGap => 3
    case TrySwap(_, _, _) => 4
    case Push(_) => 5
  }

  /** The most steps that a scan still takes before it is past the last flow. */
  function Ahead(s: Probe): nat {
    if s.dog.Look? && s.dog.conn < |s.flows| then 6 * (|s.flows| - s.dog.conn) - StageRank(s.dog.stage) else 0
  }

  /** Within a scan the watchdog always has a step of its own, and each brings the end nearer. */
  lemma ScanGoesOn(c: Config, s: Probe) returns (s': Probe)
    requires s.dog.Look?
    ensures Next(c, s, s') && s'.dog != s.dog
  {
    var now, i, stage := s.dog.now, s.dog.conn, s.dog.stage;
    if i >= |s.flows| {
      s' := s.(dog := DogIdle);
    } else if stage.Push? {
      s' := s.(stalls := s.stalls + [stage.record], dog := Look(now, i + 1, LookConnected));
      assert DogPushes(s, s');
    } else if stage.TrySwap? {
      var f := s.flows[i];
      s' := if f.inStall then s.(dog := Look(now, i + 1, LookConnected))
            else s.(flows := s.flows[i := MarkedFlow(f, stage.seen)],
                    dog := Look(now, i, Push(StallRecord(i, now, stage.gap, stage.seen, stage.raced, f.clears))));
      assert DogSwaps(s, s');
    } else {
      s' := LoadStep(c, s);
    }
  }

  lemma LoadStep(c: Config, s: Probe) returns (s': Probe)
    requires s.dog.Look? && s.dog.conn < |s.flows| && !s.dog.stage.Push? && !s.dog.stage.TrySwap?
    ensures DogLooks(c, s, s') && s'.dog != s.dog
  {
    var now, i, stage := s.dog.now, s.dog.conn, s.dog.stage;
    var f := s.flows[i];
    var m := StageRank(stage);
    var next := if m < 3 then StageOf(m + 1)
                else TrySwap(Saturating(now, f.lastRecvMs), |f.stamps|, HoldsStamp(f.task) && f.task.t < now);
    s' := s.(dog := if GoesOn(c, f, now, m) then Look(now, i, next) else Look(now, i + 1, LookConnected));
  }

  lemma Nearer(c: Config, s: Probe, s': Probe)
    requires Next(c, s, s') && s.dog.Look?
    ensures s'.dog != s.dog ==> Ahead(s') < Ahead(s) || s'.dog == DogIdle
    ensures Ahead(s') <= Ahead(s)
  {
    FlowsStay(c, s, s');
    if s'.dog != s.dog {
      DogsOwn(c, s, s');
    }
  }

  lemma {:induction false} NearerYet(c: Config, run: seq<Probe>, j: nat, k: nat, l: nat)
    requires IsRun(c, run) && Scanning(run, j, l) && j <= k <= l
    ensures Ahead(run[l]) <= Ahead(run[k])
    decreases l
  {
    hide IsRun, Next, Ahead;
    if k < l {
      NearerYet(c, run, j, k, l - 1);
      R.LastStep(c, run, l);
      Nearer(c, run[l - 1], run[l]);
    }
  }

  // ------------------------------------------------------------------ a silent flow

  /** In state `k` the flow is one for the watchdog, has been silent for more than the threshold, and has `n` stamps. */
  ghost predicate SilentAt(c: Config, run: seq<Probe>, now: nat, i: nat, k: nat, n: nat) {
    var f := FlowAt(run, k, i);
    f.connected && !f.disconnected && f.firstRecv && Saturating(now, f.lastRecvMs) > c.stallMs && |f.stamps| == n
  }

  ghost predicate SilentFrom(c: Config, run: seq<Probe>, now: nat, i: nat, from: nat, to: nat, n: nat) {
    forall k | from <= k < to :: SilentAt(c, run, now, i, k, n)
  }

  /** The watchdog comes to its swap. */
  lemma SilentIsSwapped(c: Config, run: seq<Probe>, now: nat, i: nat, v: Visit, n: nat)
    requires IsVisit(c, run, now, i, v) && SilentFrom(c, run, now, i, v.start, v.end, n)
    ensures LastSays(c, run, now, i, v) && SeenOf(run, i, v) == n
    ensures v.start < v.swap < v.end && SwapAt(run, now, i, v.swap, GapOf(run, now, i, v), n)
  {
    hide LoadAt, SwapAt, PushedAt;
    var last := v.loads[|v.loads| - 1];
    assert LoadOk(c, run, now, i, v.start, v.loads, |v.loads| - 1);
    assert SilentAt(c, run, now, i, last, n);
  }

  lemma VisitWithin(visits: seq<Visit>, j: nat, k: nat, i: nat)
    requires Chained(visits, j, k) && i < |visits| && forall m | 0 <= m < |visits| :: visits[m].start < visits[m].end
    ensures j <= visits[i].start && visits[i].end <= k
  {
    StartsLater(visits, j, i);
    EndsBefore(visits, k, i);
  }

  lemma {:induction false} StartsLater(visits: seq<Visit>, j: nat, i: nat)
    requires visits != [] && Chained(visits, j, visits[|visits| - 1].end) && i < |visits|
    requires forall m | 0 <= m < |visits| :: visits[m].start < visits[m].end
    ensures j <= visits[i].start
  {
    if i > 0 {
      StartsLater(visits, j, i - 1);
    }
  }

  lemma {:induction false} EndsBefore(visits: seq<Visit>, k: nat, i: nat)
    requires visits != [] && Chained(visits, visits[0].start, k) && i < |visits|
    requires forall m | 0 <= m < |visits| :: visits[m].start < visits[m].end
    ensures visits[i].end <= k
    decreases |visits| - i
  {
    if i + 1 < |visits| {
      EndsBefore(visits, k, i + 1);
    }
  }

  lemma StallsStay(c: Config, s: Probe, s': Probe)
    requires Next(c, s, s')
    ensures s.stalls <= s'.stalls
  {
  }

  lemma {:induction false} StallsGrow(c: Config, run: seq<Probe>, k: nat, l: nat)
    requires IsRun(c, run) && k <= l < |run|
    ensures run[k].stalls <= run[l].stalls
    decreases l
  {
    hide IsRun, Next;
    if k < l {
      StallsGrow(c, run, k, l - 1);
      R.LastStep(c, run, l);
      StallsStay(c, run[l - 1], run[l]);
    }
  }

  lemma TaskLeavesFlag(c: Config, s: Probe, s': Probe, n: nat, f': Flow, eff: Effect, i: nat)
    requires FlowsInv(c, s) && TaskStep(c, s, s', n, f', eff) && i < |s.flows| && !s.flows[i].inStall
    ensures !s'.flows[i].inStall
  {
    hide FlowStep, FlowInv;
    FlowKeeps(EnvOf(c, s), s.flows[n], f', eff, c.frameLen);
  }

  /** Only the watchdog's swap at the flow turns its flag on. */
  lemma OnlySwap(c: Config, s: Probe, s': Probe, i: nat)
    requires FlowsInv(c, s) && Next(c, s, s') && i < |s.flows| == |s'.flows| && !s.flows[i].inStall && s'.flows[i].inStall
    ensures DogSwaps(s, s') && s.dog.conn == i
  {
    hide FlowsInv, FlowInv, TaskStep, SamplerStep, MainStep, DogWakes, DogLooks;
    if n: nat, f', eff :| TaskStep(c, s, s', n, f', eff) {
      TaskLeavesFlag(c, s, s', n, f', eff, i);
    } else if !DogSwaps(s, s') {
      Q.SameFlowsBut(c, s, s');
    }
  }

  lemma FlowsOf(c: Config, s: Probe)
    requires Inv(c, s)
    ensures FlowsInv(c, s)
  {
  }

  /** A flag that is off when the scan begins is off when the watchdog comes to its swap at the flow. */
  lemma {:induction false} FlagStaysOff(c: Config, run: seq<Probe>, j: nat, k: nat, l: nat, i: nat)
    requires IsRun(c, run) && Scanning(run, j, l) && j <= k <= l && i < |run[j].flows| == |run[k].flows|
    requires run[l].dog.conn == i && run[l].dog.stage.TrySwap? && i < |run[l].flows| && !run[j].flows[i].inStall
    ensures !run[k].flows[i].inStall
    decreases k
  {
    hide IsRun, Next, Inv, FlowsInv, DogSwaps;
    if j < k {
      Several(c, run, k - 1);
      Several(c, run, k);
      FlagStaysOff(c, run, j, k - 1, l, i);
      R.LastStep(c, run, k);
      RunInv(c, run, k - 1);
      FlowsOf(c, run[k - 1]);
      if run[k].flows[i].inStall {
        OnlySwap(c, run[k - 1], run[k], i);
        NearerYet(c, run, j, k, l);
        Several(c, run, l);
        SwapIsPast(run[k - 1], run[k], run[l], i);
      }
    }
  }

  lemma SwapIsPast(s: Probe, s': Probe, t: Probe, i: nat)
    requires DogSwaps(s, s') && s.dog.conn == i && |s.flows| == |s'.flows| == |t.flows|
    requires t.dog.Look? && t.dog.conn == i && t.dog.stage.TrySwap?
    ensures Ahead(t) > Ahead(s')
  {
  }

  /** The record of the visit is in the list from its end on. */
  lemma PushedIsListed(c: Config, run: seq<Probe>, now: nat, i: nat, k: nat, l: nat, gap: nat, seen: nat)
    requires IsRun(c, run) && PushedAt(run, now, i, k, gap, seen) && k <= l < |run|
    ensures Q.Listed(run[l].stalls, i, seen)
  {
    hide IsRun;
    StallsGrow(c, run, k, l);
    var r: StallRecord :| r.conn == i && r.at == now && r.gap == gap && r.seen == seen && run[k].stalls == run[k - 1].stalls + [r];
    assert run[l].stalls[|run[k - 1].stalls|] == r;
  }

  lemma {:induction false} ListedCounts(stalls: seq<StallRecord>, conn: nat, seen: nat)
    requires Q.Listed(stalls, conn, seen)
    ensures RecordsOf(stalls, conn) > 0
  {
    var n := |stalls| - 1;
    var j :| 0 <= j < |stalls| && stalls[j].conn == conn && stalls[j].seen == seen;
    if j < n {
      assert stalls[..n][j] == stalls[j];
      ListedCounts(stalls[..n], conn, seen);
    }
  }

  /** A flow that is on has been marked, and at the end of a scan nothing is in the watchdog's hand. */
  lemma MarkedIsListed(c: Config, run: seq<Probe>, k: nat, l: nat, i: nat)
    requires IsRun(c, run) && k <= l < |run| && i < |run[k].flows| && run[k].flows[i].inStall && run[l].dog == DogIdle
    ensures RecordsOf(run[l].stalls, i) > 0
  {
    hide IsRun, Inv, Q.QuietInv, FlowInv;
    Several(c, run, k);
    Several(c, run, l);
    Q.RunQuiet(c, run, k);
    Q.MarkedOnce(run[k]);
    MarksStay(c, run, k, l, i);
    R.EpisodesConserved(c, run, l, i);
    RunInv(c, run, l);
    MarksAreRecords(c, run[l], i);
  }

  lemma MarksAreRecords(c: Config, s: Probe, i: nat)
    requires Inv(c, s) && i < |s.flows|
    ensures s.flows[i].marks == RecordsOf(s.stalls, i) + InHand(s.dog, i)
  {
  }

  lemma MarksUp(c: Config, s: Probe, s': Probe, i: nat)
    requires FlowsInv(c, s) && Next(c, s, s') && i < |s.flows| == |s'.flows|
    ensures s.flows[i].marks <= s'.flows[i].marks
  {
    hide FlowsInv, FlowInv, TaskStep, SamplerStep, MainStep, DogWakes, DogLooks, R.SameMarks;
    if n: nat, f', eff :| TaskStep(c, s, s', n, f', eff) {
      R.TaskMarks(c, s, s', n, f', eff);
      SameMark(s, s', i);
    } else if !DogSwaps(s, s') {
      Q.SameFlowsBut(c, s, s');
    }
  }

  lemma SameMark(s: Probe, s': Probe, i: nat)
    requires R.SameMarks(s, s') && i < |s.flows|
    ensures i < |s'.flows| && s'.flows[i].marks == s.flows[i].marks
  {
  }

  lemma {:induction false} MarksStay(c: Config, run: seq<Probe>, k: nat, l: nat, i: nat)
    requires IsRun(c, run) && k <= l < |run| && i < |run[k].flows| == |run[l].flows|
    ensures run[k].flows[i].marks <= run[l].flows[i].marks
    decreases l
  {
    hide IsRun, Next, Inv, FlowsInv;
    if k < l {
      Several(c, run, l - 1);
      Several(c, run, l);
      Several(c, run, k);
      MarksStay(c, run, k, l - 1, i);
      RunInv(c, run, l - 1);
      FlowsOf(c, run[l - 1]);
      R.LastStep(c, run, l);
      MarksUp(c, run[l - 1], run[l], i);
    }
  }

  lemma StandsAtSwap(run: seq<Probe>, now: nat, i: nat, k: nat, gap: nat, seen: nat)
    requires SwapAt(run, now, i, k, gap, seen)
    ensures k < |run| && run[k].dog.Look? && run[k].dog.conn == i && run[k].dog.stage.TrySwap?
  {
  }

  /** A flow that has gone without a frame for more than the threshold is found by every scan: by the end of the scan it has a
      record, and if it was not in a stall when the scan began, one for this very silence. */
  lemma SilentFlowIsListed(c: Config, run: seq<Probe>, j: nat, l: nat, i: nat)
    requires IsRun(c, run) && IsScan(run, j, l) && run[l].dog == DogIdle && i < |run[j].flows|
    requires SilentFrom(c, run, run[j - 1].clock, i, j, l, |run[j].flows[i].stamps|)
    ensures RecordsOf(run[l].stalls, i) > 0
    ensures !run[j].flows[i].inStall ==> Q.Listed(run[l].stalls, i, |run[j].flows[i].stamps|)
  {
    hide IsRun, Chained, SwapAt, PushedAt, SilentAt, LastSays;
    var now, n := run[j - 1].clock, |run[j].flows[i].stamps|;
    var visits := ScanVisitsAll(c, run, j, l);
    Several(c, run, j);
    Several(c, run, l);
    var v := visits[i];
    assert IsVisit(c, run, now, i, v);
    VisitWithin(visits, j, visits[|visits| - 1].end, i);
    SilentIsSwapped(c, run, now, i, v, n);
    StandsAtSwap(run, now, i, v.swap, GapOf(run, now, i, v), n);
    Several(c, run, v.swap);
    if run[v.swap].flows[i].inStall {
      MarkedIsListed(c, run, v.swap, l, i);
      if !run[j].flows[i].inStall {
        FlagStaysOff(c, run, j, v.swap, v.swap, i);
      }
    } else {
      PushedIsListed(c, run, now, i, v.end, l, GapOf(run, now, i, v), n);
      ListedCounts(run[l].stalls, i, n);
    }
  }

  lemma MainMovesOnce(c: Config, s: Probe, s': Probe)
    requires Next(c, s, s') && s'.main != s.main
    ensures MainStep(c, s, s') && (s'.main.Finished? ==> s.main.Aborted?)
  {
  }

  /** The step that takes the metrics. */
  lemma {:induction false} MetricsTaken(c: Config, run: seq<Probe>, l: nat, m: nat) returns (p: nat)
    requires IsRun(c, run) && l <= m < |run| && !run[l].main.Finished? && run[m].main.Finished?
    ensures l < p <= m && run[p - 1].main.Aborted? && run[p].main == run[m].main
  {
    hide IsRun, Next;
    R.LastStep(c, run, m);
    if run[m - 1].main == run[m].main {
      p := MetricsTaken(c, run, l, m - 1);
    } else {
      MainMovesOnce(c, run[m - 1], run[m]);
      p := m;
    }
  }

  /** And so the port fails, under the default rules, whenever its metrics are taken after that scan. */
  lemma SilenceFailsThePort(c: Config, run: seq<Probe>, j: nat, l: nat, i: nat, m: nat)
    requires IsRun(c, run) && IsScan(run, j, l) && run[l].dog == DogIdle && i < |run[j].flows|
    requires SilentFrom(c, run, run[j - 1].clock, i, j, l, |run[j].flows[i].stamps|)
    requires l <= m < |run| && !run[l].main.Finished? && run[m].main.Finished?
    ensures !V.Healthy(run[m].main.metrics, V.DEFAULT_DETECT)
  {
    hide IsRun, IsScan, SilentAt, Inv, V.Healthy, Next;
    SilentFlowIsListed(c, run, j, l, i);
    var p := MetricsTaken(c, run, l, m);
    StallsGrow(c, run, l, p - 1);
    RunInv(c, run, p - 1);
    R.LastStep(c, run, p);
    R.TakesMetrics(c, run[p - 1], run[p]);
    if V.Healthy(run[m].main.metrics, V.DEFAULT_DETECT) {
      R.NoStalls(run[m].main.metrics);
    }
  }

  // ------------------------------------------------------------------ when a scan begins

  /** The watchdog has found the clock short of the deadline, and then the run not winding down, and then begun. */
  ghost predicate FoundInTime(c: Config, run: seq<Probe>, a: nat, b: nat, k: nat) {
    && a < b < k < |run|
    && run[a].dog == DogAwake && run[a + 1].dog == DogFlag && run[a].clock < c.deadline
    && run[b].dog == DogFlag && run[b + 1].dog == DogClock && !run[b].windingDown
  }

  lemma DogEnters(c: Config, s: Probe, s': Probe)
    requires Next(c, s, s')
    ensures s'.dog == DogFlag ==> s.dog == DogFlag || (s.dog == DogAwake && s.clock < c.deadline)
    ensures s'.dog == DogClock ==> s.dog == DogClock || (s.dog == DogFlag && !s.windingDown)
  {
  }

  lemma {:induction false} FlagAfterDeadline(c: Config, run: seq<Probe>, k: nat) returns (a: nat)
    requires IsRun(c, run) && k < |run| && run[k].dog == DogFlag
    ensures a < k && run[a].dog == DogAwake && run[a + 1].dog == DogFlag && run[a].clock < c.deadline
  {
    IdleAtFirst(c, run);
    hide IsRun, Next;
    R.LastStep(c, run, k);
    DogEnters(c, run[k - 1], run[k]);
    if run[k - 1].dog == DogFlag {
      a := FlagAfterDeadline(c, run, k - 1);
    } else {
      a := k - 1;
    }
  }

  /** Every scan was begun by a watchdog that had found time left and the run not winding down. */
  lemma {:induction false} ScanIsInTime(c: Config, run: seq<Probe>, k: nat) returns (a: nat, b: nat)
    requires IsRun(c, run) && k < |run| && run[k].dog == DogClock
    ensures FoundInTime(c, run, a, b, k)
  {
    IdleAtFirst(c, run);
    hide IsRun, Next;
    R.LastStep(c, run, k);
    DogEnters(c, run[k - 1], run[k]);
    if run[k - 1].dog == DogClock {
      a, b := ScanIsInTime(c, run, k - 1);
    } else {
      b := k - 1;
      a := FlagAfterDeadline(c, run, k - 1);
    }
  }
}
