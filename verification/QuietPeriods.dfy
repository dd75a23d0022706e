/**
 Does a quiet period leave a record?  A quiet period of a flow is known by the number of stamps before it.  The watchdog
 looks and then swaps, in two operations, and the reader may go round in between; so the flag it finds on may
 stand for another period than the one it has just found.
 */
module QuietPeriods {
  import opened Flow
  import opened Probe
  import R = ProbeResults

  /** A record of the flow with so many stamps before its gap is in the list, or in the watchdog's hand. */
  ghost predicate Recorded(s: Probe, conn: nat, seen: nat) {
    Listed(s.stalls, conn, seen)
    || (s.dog.Look? && s.dog.stage.Push? && s.dog.stage.record.conn == conn && s.dog.stage.record.seen == seen)
  }

  ghost predicate Listed(stalls: seq<StallRecord>, conn: nat, seen: nat) {
    exists j :: 0 <= j < |stalls| && stalls[j].conn == conn && stalls[j].seen == seen
  }

  // ------------------------------------------------------------------ what every step keeps

  /** While the flag is on, the stamps are those at the swap that set it, and at most one that the reader has stored and is
      about to follow by its clear. */
  ghost predicate FlagInv(f: Flow) {
    && (f.task == Connecting || f.task == Up || f.task.UpAt? ==> f.stamps == [])
    && (f.marks > 0 ==> 1 <= f.markSeen <= f.markedAt <= |f.stamps|)
    && (f.inStall ==> f.marks > 0 && |f.stamps| <= f.markedAt + 1)
    && (f.inStall && |f.stamps| > f.markedAt ==> f.task == Stamped || f.task == Marked)
  }

  ghost predicate FlagsInv(s: Probe) {
    forall i :: 0 <= i < |s.flows| ==> FlagInv(s.flows[i])
  }

  /** No record of a flow has seen more stamps than the last swap that set its flag. */
  ghost predicate SeenInv(s: Probe) {
    forall j :: 0 <= j < |s.stalls| ==>
      && s.stalls[j].conn < |s.flows|
      && s.flows[s.stalls[j].conn].marks > 0 && s.stalls[j].seen <= s.flows[s.stalls[j].conn].markSeen
  }

  /** And that swap's own record is not lost, but for an abort. */
  ghost predicate KeptInv(s: Probe) {
    forall i :: 0 <= i < |s.flows| && s.flows[i].marks > 0 && !s.dog.DogCancelled? ==> Recorded(s, i, s.flows[i].markSeen)
  }

  ghost predicate HandInv(s: Probe) {
    s.dog.Look? && s.dog.conn < |s.flows| ==>
      var f := s.flows[s.dog.conn];
      match s.dog.stage
      case TrySwap(_, seen, _) =>
        && 1 <= seen <= |f.stamps| && (f.marks > 0 ==> f.markSeen <= seen) && (f.inStall ==> f.markedAt <= seen)
      case Push(r) => r.conn == s.dog.conn && f.marks > 0 && r.seen == f.markSeen
      case _ => true
  }

  ghost predicate QuietInv(s: Probe) { FlagsInv(s) && SeenInv(s) && KeptInv(s) && HandInv(s) }

  ghost predicate FlagKeptBy(f: Flow, f': Flow) {
    && (FlagInv(f) ==> FlagInv(f'))
    && f'.marks == f.marks && f'.markSeen == f.markSeen && f'.markedAt == f.markedAt
    && |f.stamps| <= |f'.stamps| && (f'.inStall ==> f.inStall)
  }

  lemma ReadKept(e: Env, f: Flow, f': Flow, eff: Effect)
    requires ReadStep(e, f, f', eff)
    ensures FlagKeptBy(f, f')
  {
  }

  lemma ConnectKept(e: Env, f: Flow, f': Flow, eff: Effect)
    requires ConnectStep(e, f, f', eff)
    ensures FlagKeptBy(f, f')
  {
  }

  lemma AlarmKept(e: Env, f: Flow, f': Flow, eff: Effect)
    requires ReaderAlarm(e, f, f', eff)
    ensures FlagKeptBy(f, f')
  {
  }

  lemma WriterKept(e: Env, f: Flow, f': Flow, eff: Effect)
    requires WriterAlarm(e, f, f', eff)
    ensures FlagKeptBy(f, f')
  {
  }

  lemma WriteKept(e: Env, f: Flow, f': Flow, eff: Effect, frameLen: nat)
    requires WriteStep(e, f, f', eff, frameLen)
    ensures FlagKeptBy(f, f')
  {
  }

  lemma FlagKept(e: Env, f: Flow, f': Flow, eff: Effect, frameLen: nat)
    requires FlowStep(e, f, f', eff, frameLen)
    ensures FlagKeptBy(f, f')
  {
    hide FlagKeptBy, ReadStep, ConnectStep, ReaderAlarm, WriterAlarm, WriteStep;
    if ReadStep(e, f, f', eff) {
      ReadKept(e, f, f', eff);
    } else if ConnectStep(e, f, f', eff) {
      ConnectKept(e, f, f', eff);
    } else if ReaderAlarm(e, f, f', eff) {
      AlarmKept(e, f, f', eff);
    } else if WriterAlarm(e, f, f', eff) {
      WriterKept(e, f, f', eff);
    } else {
      WriteKept(e, f, f', eff, frameLen);
    }
  }

  lemma TaskQuiet(c: Config, s: Probe, s': Probe, i: nat, f': Flow, eff: Effect)
    requires QuietInv(s) && TaskStep(c, s, s', i, f', eff)
    ensures QuietInv(s')
  {
    FlagKept(EnvOf(c, s), s.flows[i], f', eff, c.frameLen);
    hide FlowStep, FlagInv, Listed;
  }

  /** Steps of the clock, the sampler and the main task. */
  lemma ElsewhereQuiet(s: Probe, s': Probe)
    requires QuietInv(s) && s'.flows == s.flows && s'.stalls == s.stalls && s'.dog == s.dog
    ensures QuietInv(s')
  {
    hide FlagInv, Listed;
  }

  lemma LookQuiet(c: Config, s: Probe, s': Probe)
    requires Inv(c, s) && QuietInv(s) && Inv(c, s') && (DogWakes(c, s, s') || DogLooks(c, s, s'))
    ensures QuietInv(s')
  {
    hide FlagInv, Inv, HandInv, Recorded, DogLooks, DogWakes;
    LookHand(c, s, s');
    if s.dog.Look? && s.dog.conn >= |s.flows| {
      PastTheLast(c, s);
    }
    SameRecords(s, s');
  }

  lemma SameRecords(s: Probe, s': Probe)
    requires s' == s.(dog := s'.dog) && KeptInv(s) && !s.dog.DogCancelled?
    requires !(s.dog.Look? && s.dog.stage.Push?)
    ensures KeptInv(s')
  {
    hide Listed;
    forall i | 0 <= i < |s'.flows| && s'.flows[i].marks > 0 ensures Recorded(s', i, s'.flows[i].markSeen) {
      assert Recorded(s, i, s.flows[i].markSeen);
    }
  }

  /** A watchdog that is past the last flow has no stage of its own. */
  lemma PastTheLast(c: Config, s: Probe)
    requires Inv(c, s) && s.dog.Look? && s.dog.conn >= |s.flows|
    ensures s.dog.stage == LookConnected
  {
    assert DogInv(c, s);
  }

  lemma LookHand(c: Config, s: Probe, s': Probe)
    requires FlagsInv(s) && Inv(c, s') && (DogWakes(c, s, s') || DogLooks(c, s, s'))
    ensures HandInv(s') && s' == s.(dog := s'.dog)
    ensures !s.dog.DogCancelled? && !(s.dog.Look? && s.dog.conn < |s.flows| && s.dog.stage.Push?)
  {
    hide Inv, FlagInv, HandInv;
    DogAlone(c, s, s');
    if s'.dog.Look? && s'.dog.conn < |s.flows| && s'.dog.stage.TrySwap? {
      LookSeesStamps(c, s');
      TryHand(s');
    } else {
      NoHand(s');
    }
  }

  lemma DogAlone(c: Config, s: Probe, s': Probe)
    requires DogWakes(c, s, s') || DogLooks(c, s, s')
    ensures s' == s.(dog := s'.dog) && !s.dog.DogCancelled?
    ensures !(s.dog.Look? && s.dog.conn < |s.flows| && s.dog.stage.Push?)
    ensures s'.dog.Look? && s'.dog.conn < |s.flows| ==> !s'.dog.stage.Push?
    ensures s'.dog.Look? && s'.dog.conn < |s.flows| && s'.dog.stage.TrySwap? ==>
              s'.dog.stage.seen == |s.flows[s'.dog.conn].stamps|
  {
  }

  lemma TryHand(s: Probe)
    requires FlagsInv(s) && s.dog.Look? && s.dog.conn < |s.flows| && s.dog.stage.TrySwap?
    requires 1 <= s.dog.stage.seen == |s.flows[s.dog.conn].stamps|
    ensures HandInv(s)
  {
    assert FlagInv(s.flows[s.dog.conn]);
  }

  lemma NoHand(s: Probe)
    requires s.dog.Look? && s.dog.conn < |s.flows| ==> !s.dog.stage.TrySwap? && !s.dog.stage.Push?
    ensures HandInv(s)
  {
  }

  lemma LookSeesStamps(c: Config, s: Probe)
    requires Inv(c, s) && s.dog.Look? && s.dog.conn < |s.flows| && s.dog.stage.TrySwap?
    ensures 1 <= s.dog.stage.seen <= |s.flows[s.dog.conn].stamps|
    ensures s.dog.stage.gap > c.stallMs
    ensures s.flows[s.dog.conn].stamps[s.dog.stage.seen - 1] + s.dog.stage.gap == s.dog.now
  {
    hide FlowsInv, CountsInv, RecordsInv, MarksInv, SamplerInv, MainInv, Truthful;
    var stage := s.dog.stage;
    TrueGap(c, s.clock, s.flows[s.dog.conn], StallRecord(s.dog.conn, s.dog.now, stage.gap, stage.seen, stage.raced, 0));
  }

  lemma TrueGap(c: Config, clock: nat, f: Flow, r: StallRecord)
    requires Truthful(c, clock, f, r)
    ensures 1 <= r.seen <= |f.stamps| && r.gap > c.stallMs && f.stamps[r.seen - 1] + r.gap == r.at
  {
  }

  lemma SwapQuiet(s: Probe, s': Probe)
    requires QuietInv(s) && DogSwaps(s, s')
    ensures QuietInv(s')
  {
    var i := s.dog.conn;
    hide Listed;
    assert FlagInv(s.flows[i]);
    forall k | 0 <= k < |s'.flows| && s'.flows[k].marks > 0 ensures Recorded(s', k, s'.flows[k].markSeen) {
      if s'.flows[k] == s.flows[k] {
        assert Recorded(s, k, s.flows[k].markSeen);
      }
    }
  }

  lemma PushQuiet(s: Probe, s': Probe)
    requires QuietInv(s) && DogPushes(s, s')
    ensures QuietInv(s')
  {
    hide FlagInv;
    if !s'.dog.DogCancelled? {
      var r := s.dog.stage.record;
      assert s'.stalls[|s.stalls|] == r;
      forall k | 0 <= k < |s'.flows| && s'.flows[k].marks > 0 ensures Recorded(s', k, s'.flows[k].markSeen) {
        assert Recorded(s, k, s.flows[k].markSeen);
        if j :| 0 <= j < |s.stalls| && s.stalls[j].conn == k && s.stalls[j].seen == s.flows[k].markSeen {
          assert s'.stalls[j] == s.stalls[j];
        }
      }
    }
  }

  lemma StepQuiet(c: Config, s: Probe, s': Probe)
    requires Inv(c, s) && QuietInv(s) && Inv(c, s') && Next(c, s, s')
    ensures QuietInv(s')
  {
    hide QuietInv, Inv, TaskStep, DogWakes, DogLooks, DogSwaps, DogPushes;
    if i: nat, f', eff :| TaskStep(c, s, s', i, f', eff) {
      TaskQuiet(c, s, s', i, f', eff);
    } else if DogWakes(c, s, s') || DogLooks(c, s, s') {
      LookQuiet(c, s, s');
    } else if DogSwaps(s, s') {
      SwapQuiet(s, s');
    } else if DogPushes(s, s') {
      PushQuiet(s, s');
    } else {
      OtherStep(c, s, s');
      ElsewhereQuiet(s, s');
    }
  }

  lemma OtherStep(c: Config, s: Probe, s': Probe)
    requires Tick(s, s') || SamplerStep(c, s, s') || MainStep(c, s, s')
    ensures s'.flows == s.flows && s'.stalls == s.stalls && s'.dog == s.dog
  {
  }

  lemma InitQuiet(c: Config, s: Probe)
    requires Init(c, s)
    ensures QuietInv(s)
  {
  }

  lemma {:induction false} RunQuiet(c: Config, run: seq<Probe>, i: nat)
    requires IsRun(c, run) && i < |run|
    ensures QuietInv(run[i])
  {
    hide QuietInv, Inv, Next, Init;
    if i == 0 {
      InitQuiet(c, run[0]);
    } else {
      RunQuiet(c, run, i - 1);
      RunInv(c, run, i - 1);
      RunInv(c, run, i);
      R.LastStep(c, run, i);
      StepQuiet(c, run[i - 1], run[i]);
    }
  }

  // ------------------------------------------------------------------ which quiet periods are recorded

  /** The watchdog has found a flow quiet for too long behind `seen` stamps, and swaps.  It leaves the flow in a stall, and
      the quiet period it found recorded or in its hand if and only if the flag was off, or was set by a swap in front
      of which the reader had stored nothing since its look, and nothing has been stored between that swap and this
      look.  If something has, it is one stamp, which the reader has not yet followed by its clear. */
  lemma QuietFlowIsRecorded(c: Config, run: seq<Probe>, i: nat)
    requires IsRun(c, run) && 0 < i < |run| && DogSwaps(run[i - 1], run[i])
    ensures var s, s' := run[i - 1], run[i];
            var conn, stage := s.dog.conn, s.dog.stage;
            && conn < |s.flows| == |s'.flows| && s'.flows[conn].inStall
            && R.EpisodesAdd(s', conn)
            && QuietFor(c, s.flows[conn].stamps, s.dog.now, stage)
            && (Recorded(s', conn, stage.seen) <==> !s.flows[conn].inStall || StandsFor(s.flows[conn], stage.seen))
            && (s.flows[conn].inStall && stage.seen != s.flows[conn].markedAt ==>
                  stage.seen == s.flows[conn].markedAt + 1 && BeforeClear(s.flows[conn]))
  {
    hide Inv, QuietInv, IsRun, QuietFor;
    RunInv(c, run, i - 1);
    RunQuiet(c, run, i - 1);
    RunQuiet(c, run, i);
    R.EpisodesConserved(c, run, i, run[i - 1].dog.conn);
    FoundQuiet(c, run[i - 1]);
    SwapRecords(run[i - 1], run[i]);
  }

  /** The flow was quiet for the gap, over the threshold, up to the watchdog's `now`, behind `seen` stamps. */
  ghost predicate QuietFor(c: Config, stamps: seq<nat>, now: nat, stage: Stage)
    requires stage.TrySwap?
  {
    stage.gap > c.stallMs && 1 <= stage.seen <= |stamps| && stamps[stage.seen - 1] + stage.gap == now
  }

  /** The flag was set for the quiet period behind `seen` stamps: so many at that swap's look, at the swap, and now. */
  predicate StandsFor(f: Flow, seen: nat) { f.markSeen == f.markedAt == seen }

  /** The reader has stored its stamp and not yet come to its clear. */
  predicate BeforeClear(f: Flow) { f.task == Stamped || f.task == Marked }

  lemma FoundQuiet(c: Config, s: Probe)
    requires Inv(c, s) && s.dog.Look? && s.dog.conn < |s.flows| && s.dog.stage.TrySwap?
    ensures QuietFor(c, s.flows[s.dog.conn].stamps, s.dog.now, s.dog.stage)
  {
    LookSeesStamps(c, s);
  }

  lemma SwapRecords(s: Probe, s': Probe)
    requires QuietInv(s) && DogSwaps(s, s')
    ensures var f, seen := s.flows[s.dog.conn], s.dog.stage.seen;
            && s'.flows[s.dog.conn].inStall
            && (Recorded(s', s.dog.conn, seen) <==> !f.inStall || StandsFor(f, seen))
            && (f.inStall && seen != f.markedAt ==> seen == f.markedAt + 1 && BeforeClear(f))
  {
    var conn, seen := s.dog.conn, s.dog.stage.seen;
    var f := s.flows[conn];
    assert FlagInv(f) && HandInv(s);
    if f.inStall {
      assert Recorded(s, conn, f.markSeen);
      if j :| 0 <= j < |s'.stalls| && s'.stalls[j].conn == conn && s'.stalls[j].seen == seen {
        assert s.stalls[j].seen <= f.markSeen;
      }
    }
  }

  // ------------------------------------------------------------------ were look and swap one step

  /** No stamp has come between the look and the swap of this step. */
  ghost predicate PromptAt(run: seq<Probe>, i: nat)
    requires 0 < i < |run|
  {
    DogSwaps(run[i - 1], run[i]) ==> |run[i - 1].flows[run[i - 1].dog.conn].stamps| == run[i - 1].dog.stage.seen
  }

  ghost predicate PromptMarks(s: Probe) {
    forall i :: 0 <= i < |s.flows| && s.flows[i].marks > 0 ==> s.flows[i].markSeen == s.flows[i].markedAt
  }

  lemma PromptKept(c: Config, s: Probe, s': Probe)
    requires PromptMarks(s) && FlagsInv(s) && Next(c, s, s')
    requires DogSwaps(s, s') ==> |s.flows[s.dog.conn].stamps| == s.dog.stage.seen
    ensures PromptMarks(s')
  {
    hide FlagInv, FlowStep, DogWakes, DogLooks, DogPushes, Tick, SamplerStep, MainStep, TaskStep;
    if i: nat, f', eff :| TaskStep(c, s, s', i, f', eff) {
      TaskPrompt(c, s, s', i, f', eff);
    } else if !DogSwaps(s, s') {
      SameFlowsBut(c, s, s');
    }
  }

  lemma TaskPrompt(c: Config, s: Probe, s': Probe, i: nat, f': Flow, eff: Effect)
    requires PromptMarks(s) && FlagsInv(s) && TaskStep(c, s, s', i, f', eff)
    ensures PromptMarks(s')
  {
    FlagKept(EnvOf(c, s), s.flows[i], f', eff, c.frameLen);
    hide FlowStep, FlagInv;
  }

  lemma SameFlowsBut(c: Config, s: Probe, s': Probe)
    requires || Tick(s, s') || DogWakes(c, s, s') || DogLooks(c, s, s') || DogPushes(s, s')
             || SamplerStep(c, s, s') || MainStep(c, s, s')
    ensures s'.flows == s.flows
  {
  }

  lemma {:induction false} PromptRun(c: Config, run: seq<Probe>, i: nat)
    requires IsRun(c, run) && i < |run| && forall l | 0 < l <= i :: PromptAt(run, l)
    ensures PromptMarks(run[i])
  {
    hide Next, QuietInv, FlagsInv;
    if i > 0 {
      PromptRun(c, run, i - 1);
      RunQuiet(c, run, i - 1);
      R.LastStep(c, run, i);
      QuietFlags(run[i - 1]);
      assert PromptAt(run, i);
      PromptKept(c, run[i - 1], run[i]);
    }
  }

  lemma QuietFlags(s: Probe)
    requires QuietInv(s)
    ensures FlagsInv(s)
  {
  }

  /** On a run in which no stamp ever comes between look and swap, the quiet period found is recorded or in hand unless
      the flag is on and the reader stands between the store that ended the flag's own period and its clear; so
      that of a flow whose reader waits for a frame is recorded. */
  lemma PromptSwapRecords(c: Config, run: seq<Probe>, i: nat)
    requires IsRun(c, run) && 0 < i < |run| && DogSwaps(run[i - 1], run[i]) && forall l | 0 < l <= i :: PromptAt(run, l)
    ensures var s := run[i - 1];
            var f := s.flows[s.dog.conn];
            && (Recorded(run[i], s.dog.conn, s.dog.stage.seen) <==> !f.inStall || |f.stamps| == f.markedAt)
            && (!Recorded(run[i], s.dog.conn, s.dog.stage.seen) ==> BeforeClear(f))
  {
    hide Inv, QuietInv, IsRun, FlagInv;
    QuietFlowIsRecorded(c, run, i);
    PromptRun(c, run, i - 1);
    RunQuiet(c, run, i - 1);
    MarkedOnce(run[i - 1]);
    assert PromptAt(run, i);
  }

  lemma MarkedOnce(s: Probe)
    requires QuietInv(s)
    ensures forall i :: 0 <= i < |s.flows| && s.flows[i].inStall ==> s.flows[i].marks > 0
  {
    assert forall i :: 0 <= i < |s.flows| ==> FlagInv(s.flows[i]);
  }
}
