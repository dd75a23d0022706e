/**
 How the flows of a probe run end, and what is counted on the way: a flow whose task or writer is done before the deadline has
 been marked as broken, and only such a one; what a flow has received is what its frames came to; and what the sampler takes
 down is what the flows had.
 */
module Endings {
  import opened Flow
  import opened Sums
  import opened Probe
  import R = ProbeResults
  import V = Verdict

  function FlowAt(run: seq<Probe>, k: nat, i: nat): Flow {
    if k < |run| && i < |run[k].flows| then run[k].flows[i] else NEW_FLOW
  }

  // ------------------------------------------------------------------ one step, for one flow

  /** What a step of the run can do to a flow: a step of its own, a mark by the watchdog, or nothing. */
  ghost predicate Moves(c: Config, s: Probe, f: Flow, f': Flow) {
    || (exists eff: Effect :: FlowStep(EnvOf(c, s), f, f', eff, c.frameLen))
    || f' == f.(inStall := f'.inStall, marks := f'.marks, markSeen := f'.markSeen, markedAt := f'.markedAt)
  }

  lemma StepMoves(c: Config, s: Probe, s': Probe, i: nat)
    requires Next(c, s, s') && i < |s.flows|
    ensures |s'.flows| == |s.flows| && Moves(c, s, s.flows[i], s'.flows[i])
    ensures s.clock <= s'.clock
  {
    hide FlowStep, DogWakes, DogLooks, SamplerStep, MainStep;
    if n: nat, f', eff :| TaskStep(c, s, s', n, f', eff) {
      if n == i {
        assert FlowStep(EnvOf(c, s), s.flows[i], f', eff, c.frameLen);
      }
    } else if !DogSwaps(s, s') {
      OtherMoves(c, s, s');
    }
  }

  lemma OtherMoves(c: Config, s: Probe, s': Probe)
    requires || Tick(s, s') || DogWakes(c, s, s') || DogLooks(c, s, s') || DogPushes(s, s')
             || SamplerStep(c, s, s') || MainStep(c, s, s')
    ensures s'.flows == s.flows && s.clock <= s'.clock
  {
  }

  lemma RunMoves(c: Config, run: seq<Probe>, k: nat, i: nat)
    requires IsRun(c, run) && 0 < k < |run| && i < c.flows
    ensures |run[k - 1].flows| == |run[k].flows| == c.flows
    ensures Moves(c, run[k - 1], FlowAt(run, k - 1, i), FlowAt(run, k, i)) && run[k - 1].clock <= run[k].clock
  {
    hide IsRun, Inv, Next, Moves;
    RunInv(c, run, k - 1);
    SomeFlows(c, run[k - 1]);
    R.LastStep(c, run, k);
    StepMoves(c, run[k - 1], run[k], i);
  }

  lemma SomeFlows(c: Config, s: Probe)
    requires Inv(c, s)
    ensures |s.flows| == c.flows
  {
  }

  lemma AtFirst(c: Config, run: seq<Probe>, i: nat)
    requires IsRun(c, run)
    ensures FlowAt(run, 0, i) == NEW_FLOW && run[0].main == Joining && !run[0].windingDown && run[0].clock == 0
  {
  }

  // ------------------------------------------------------------------ what a step can do to a flow

  /** How an alarm comes to its next stage. */
  ghost predicate AlarmStep(before: bool, was: Alarm, alarm: Alarm, inTime: bool) {
    match alarm
    case CheckFlag => !before
    case CheckDeadline => before && was == CheckFlag
    case Swap => before && was == CheckDeadline && inTime
    case Add => before && was == Swap
  }

  ghost predicate TaskComes(f: Flow, f': Flow, inTime: bool) {
    f'.task.Raising? && f'.task != f.task ==>
      && (f.task == Reading || f.task.Raising?)
      && AlarmStep(f.task.Raising?, if f.task.Raising? then f.task.alarm else CheckFlag, f'.task.alarm, inTime)
  }

  ghost predicate WriterComes(f: Flow, f': Flow, inTime: bool) {
    && (f'.writer.WRaising? && f'.writer != f.writer ==>
          && (f.writer == Sending || f.writer.WRaising?)
          && AlarmStep(f.writer.WRaising?, if f.writer.WRaising? then f.writer.alarm else CheckFlag, f'.writer.alarm, inTime))
    && (f'.writer == Sending && f.writer != Sending ==> f.writer == Loop && inTime)
  }

  ghost predicate Breaks(f: Flow, f': Flow) {
    && (f.disconnected ==> f'.disconnected)
    && (!f.disconnected && f'.disconnected ==> f.task == Raising(Swap) || f.writer == WRaising(Swap))
  }

  function Uncounted(f: Flow): nat { if f.task.GotFrame? then f.task.len else 0 }
  function Unsent(f: Flow, frameLen: nat): nat { if f.writer == Sent then frameLen else 0 }

  /** Apart from the frame in hand, the bytes received grow by the frames; and those sent by the frames written. */
  ghost predicate Counts(f: Flow, f': Flow, frameLen: nat) {
    && f'.bytesRecv + Uncounted(f') == f.bytesRecv + Uncounted(f) + (if f.task == Reading && f'.task.GotFrame? then f'.task.len else 0)
    && f'.bytesSent + Unsent(f', frameLen)
       == f.bytesSent + Unsent(f, frameLen) + if f.writer == Sending && f'.writer == Sent then frameLen else 0
  }

  ghost predicate StepLaw(f: Flow, f': Flow, inTime: bool, frameLen: nat) {
    TaskComes(f, f', inTime) && WriterComes(f, f', inTime) && Breaks(f, f') && Counts(f, f', frameLen)
  }

  lemma ConnectLaw(e: Env, f: Flow, f': Flow, eff: Effect, frameLen: nat)
    requires ControlInv(f) && ConnectStep(e, f, f', eff)
    ensures StepLaw(f, f', e.clock < e.deadline, frameLen)
  {
  }

  lemma ReadLaw(e: Env, f: Flow, f': Flow, eff: Effect, frameLen: nat)
    requires ReadStep(e, f, f', eff)
    ensures StepLaw(f, f', e.clock < e.deadline, frameLen)
  {
  }

  lemma ReaderAlarmLaw(e: Env, f: Flow, f': Flow, eff: Effect, frameLen: nat)
    requires ReaderAlarm(e, f, f', eff)
    ensures StepLaw(f, f', e.clock < e.deadline, frameLen)
  {
  }

  lemma WriterAlarmLaw(e: Env, f: Flow, f': Flow, eff: Effect, frameLen: nat)
    requires WriterAlarm(e, f, f', eff)
    ensures StepLaw(f, f', e.clock < e.deadline, frameLen)
  {
  }

  lemma WriteLaw(e: Env, f: Flow, f': Flow, eff: Effect, frameLen: nat)
    requires WriteStep(e, f, f', eff, frameLen)
    ensures StepLaw(f, f', e.clock < e.deadline, frameLen)
  {
  }

  lemma MarkLaw(f: Flow, f': Flow, inTime: bool, frameLen: nat)
    requires f' == f.(inStall := f'.inStall, marks := f'.marks, markSeen := f'.markSeen, markedAt := f'.markedAt)
    ensures StepLaw(f, f', inTime, frameLen)
  {
  }

  lemma MovesLaw(c: Config, s: Probe, f: Flow, f': Flow)
    requires ControlInv(f) && Moves(c, s, f, f')
    ensures StepLaw(f, f', s.clock < c.deadline, c.frameLen)
  {
    hide StepLaw, ControlInv, ReadStep, ConnectStep, ReaderAlarm, WriterAlarm, WriteStep;
    var e := EnvOf(c, s);
    if eff :| FlowStep(e, f, f', eff, c.frameLen) {
      if ReadStep(e, f, f', eff) {
        ReadLaw(e, f, f', eff, c.frameLen);
      } else if ConnectStep(e, f, f', eff) {
        ConnectLaw(e, f, f', eff, c.frameLen);
      } else if ReaderAlarm(e, f, f', eff) {
        ReaderAlarmLaw(e, f, f', eff, c.frameLen);
      } else if WriterAlarm(e, f, f', eff) {
        WriterAlarmLaw(e, f, f', eff, c.frameLen);
      } else {
        WriteLaw(e, f, f', eff, c.frameLen);
      }
    } else {
      MarkLaw(f, f', s.clock < c.deadline, c.frameLen);
    }
  }

  lemma RunLaw(c: Config, run: seq<Probe>, k: nat, i: nat)
    requires IsRun(c, run) && 0 < k < |run| && i < c.flows
    ensures StepLaw(FlowAt(run, k - 1, i), FlowAt(run, k, i), run[k - 1].clock < c.deadline, c.frameLen)
  {
    hide IsRun, Inv, Moves, StepLaw, ControlInv;
    RunMoves(c, run, k, i);
    RunInv(c, run, k - 1);
    Controlled(c, run[k - 1], i);
    MovesLaw(c, run[k - 1], FlowAt(run, k - 1, i), FlowAt(run, k, i));
  }

  lemma Controlled(c: Config, s: Probe, i: nat)
    requires Inv(c, s) && i < |s.flows|
    ensures ControlInv(s.flows[i])
  {
    assert FlowInv(s.clock, s.flows[i]);
  }

  // ------------------------------------------------------------------ done early is broken

  /** The flow's task is past its reading loop. */
  predicate ReaderDone(f: Flow) { f.task == JoiningWriter || (f.task == Joined && f.connected) }

  ghost predicate DoneInv(c: Config, clock: nat, f: Flow) {
    && (ReaderDone(f) || f.writer == WriterJoined ==> f.disconnected || clock >= c.deadline)
    && (f.task == Raising(Add) || f.writer == WRaising(Add) ==> f.disconnected)
    && (f.task == Connecting ==> !f.connected)
    && (f.task == Connecting || f.task == Up || f.task.UpAt? ==> f.bytesRecv == 0)
    && (f.task == Marked || (f.task == Reading && f.bytesRecv > 0) ==> f.firstRecv)
  }

  /** `winding_down` is set when all tasks are joined, so no task still running finds it set. */
  ghost predicate WindsLate(s: Probe) { s.windingDown ==> s.main != Joining && AllJoined(s) }

  lemma WindsLateKept(c: Config, s: Probe, s': Probe)
    requires Inv(c, s) && Inv(c, s') && WindsLate(s) && Next(c, s, s')
    ensures WindsLate(s')
  {
    WindsWithMain(c, s, s');
    JoinedWhenWinding(c, s');
  }

  lemma WindsWithMain(c: Config, s: Probe, s': Probe)
    requires Next(c, s, s')
    ensures s'.windingDown ==> s.windingDown || s'.main != Joining
    ensures s.main != Joining ==> s'.main != Joining
  {
  }

  lemma JoinedWhenWinding(c: Config, s: Probe)
    requires Inv(c, s)
    ensures s.main != Joining ==> AllJoined(s)
  {
  }

  lemma {:induction false} RunWindsLate(c: Config, run: seq<Probe>, k: nat)
    requires IsRun(c, run) && k < |run|
    ensures WindsLate(run[k])
  {
    hide Inv, Next, WindsLate;
    if k == 0 {
      NotYet(c, run);
    } else {
      RunWindsLate(c, run, k - 1);
      RunInv(c, run, k - 1);
      RunInv(c, run, k);
      R.LastStep(c, run, k);
      WindsLateKept(c, run[k - 1], run[k]);
    }
  }

  lemma NotYet(c: Config, run: seq<Probe>)
    requires IsRun(c, run)
    ensures WindsLate(run[0])
  {
  }

  /** No alarm is under way once the run winds down. */
  ghost predicate Calm(e: Env, f: Flow) { e.windingDown ==> !f.task.Raising? && !f.writer.WRaising? }

  lemma ReadDone(c: Config, e: Env, f: Flow, f': Flow, eff: Effect)
    requires DoneInv(c, e.clock, f) && ReadStep(e, f, f', eff)
    ensures DoneInv(c, e.clock, f')
  {
  }

  lemma ConnectDone(c: Config, e: Env, f: Flow, f': Flow, eff: Effect)
    requires DoneInv(c, e.clock, f) && ConnectStep(e, f, f', eff)
    ensures DoneInv(c, e.clock, f')
  {
  }

  lemma ReaderAlarmDone(c: Config, e: Env, f: Flow, f': Flow, eff: Effect)
    requires DoneInv(c, e.clock, f) && ReaderAlarm(e, f, f', eff) && Calm(e, f) && e.deadline == c.deadline
    ensures DoneInv(c, e.clock, f')
  {
  }

  lemma WriterAlarmDone(c: Config, e: Env, f: Flow, f': Flow, eff: Effect)
    requires DoneInv(c, e.clock, f) && WriterAlarm(e, f, f', eff) && Calm(e, f) && e.deadline == c.deadline
    ensures DoneInv(c, e.clock, f')
  {
  }

  lemma WriteDone(c: Config, e: Env, f: Flow, f': Flow, eff: Effect)
    requires DoneInv(c, e.clock, f) && WriteStep(e, f, f', eff, c.frameLen) && e.deadline == c.deadline
    ensures DoneInv(c, e.clock, f')
  {
  }

  lemma DoneKept(c: Config, s: Probe, f: Flow, f': Flow)
    requires DoneInv(c, s.clock, f) && Moves(c, s, f, f') && Calm(EnvOf(c, s), f)
    ensures DoneInv(c, s.clock, f')
  {
    hide DoneInv, Calm, ReadStep, ConnectStep, ReaderAlarm, WriterAlarm, WriteStep;
    var e := EnvOf(c, s);
    if eff :| FlowStep(e, f, f', eff, c.frameLen) {
      if ReadStep(e, f, f', eff) {
        ReadDone(c, e, f, f', eff);
      } else if ConnectStep(e, f, f', eff) {
        ConnectDone(c, e, f, f', eff);
      } else if ReaderAlarm(e, f, f', eff) {
        ReaderAlarmDone(c, e, f, f', eff);
      } else if WriterAlarm(e, f, f', eff) {
        WriterAlarmDone(c, e, f, f', eff);
      } else {
        WriteDone(c, e, f, f', eff);
      }
    } else {
      MarkDone(c, s.clock, f, f');
    }
  }

  lemma MarkDone(c: Config, clock: nat, f: Flow, f': Flow)
    requires DoneInv(c, clock, f) && f'.task == f.task && f'.writer == f.writer && f'.connected == f.connected
    requires f'.disconnected == f.disconnected && f'.bytesRecv == f.bytesRecv && f'.firstRecv == f.firstRecv
    ensures DoneInv(c, clock, f')
  {
  }

  lemma LaterDone(c: Config, clock: nat, clock': nat, f: Flow)
    requires DoneInv(c, clock, f) && clock <= clock'
    ensures DoneInv(c, clock', f)
  {
  }

  lemma IsCalm(c: Config, s: Probe, i: nat)
    requires Inv(c, s) && WindsLate(s) && i < |s.flows|
    ensures Calm(EnvOf(c, s), s.flows[i])
  {
    assert FlowInv(s.clock, s.flows[i]);
  }

  lemma {:induction false} RunDone(c: Config, run: seq<Probe>, k: nat, i: nat)
    requires IsRun(c, run) && k < |run| && i < c.flows
    ensures DoneInv(c, run[k].clock, FlowAt(run, k, i))
  {
    hide Inv, IsRun, Next, Moves, WindsLate, Calm;
    if k == 0 {
      AtFirst(c, run, i);
    } else {
      RunDone(c, run, k - 1, i);
      hide DoneInv;
      RunMoves(c, run, k, i);
      RunInv(c, run, k - 1);
      RunWindsLate(c, run, k - 1);
      IsCalm(c, run[k - 1], i);
      DoneKept(c, run[k - 1], FlowAt(run, k - 1, i), FlowAt(run, k, i));
      LaterDone(c, run[k - 1].clock, run[k].clock, FlowAt(run, k, i));
    }
  }

  /** A flow whose reading loop is over, or whose writer is, before the deadline has been marked as broken. */
  lemma EarlyEndIsBroken(c: Config, run: seq<Probe>, k: nat, i: nat)
    requires IsRun(c, run) && k < |run| && i < |run[k].flows| && run[k].clock < c.deadline
    ensures ReaderDone(run[k].flows[i]) || run[k].flows[i].writer == WriterJoined ==> run[k].flows[i].disconnected
  {
    hide IsRun, Inv;
    RunInv(c, run, k);
    SomeFlows(c, run[k]);
    RunDone(c, run, k, i);
  }

  /** A flow that waits for its next frame shows the watchdog that it has had one, if it has. */
  lemma FirstFrameShows(c: Config, run: seq<Probe>, k: nat, i: nat)
    requires IsRun(c, run) && k < |run| && i < |run[k].flows| && run[k].flows[i].task == Reading
    ensures run[k].flows[i].firstRecv <==> run[k].flows[i].bytesRecv > 0
  {
    hide IsRun, Inv;
    RunInv(c, run, k);
    SomeFlows(c, run[k]);
    Controlled(c, run[k], i);
    RunDone(c, run, k, i);
  }

  lemma {:induction false} BrokenStays(c: Config, run: seq<Probe>, k: nat, l: nat, i: nat)
    requires IsRun(c, run) && k <= l < |run| && i < c.flows && FlowAt(run, k, i).disconnected
    ensures FlowAt(run, l, i).disconnected
    decreases l
  {
    hide IsRun;
    if k < l {
      BrokenStays(c, run, k, l - 1, i);
      RunLaw(c, run, l, i);
    }
  }

  /** And so the port fails under the default rules. */
  lemma EarlyEndFailsThePort(c: Config, run: seq<Probe>, k: nat, i: nat, l: nat)
    requires IsRun(c, run) && k <= l < |run| && i < |run[k].flows| && run[k].clock < c.deadline
    requires ReaderDone(run[k].flows[i]) || run[k].flows[i].writer == WriterJoined
    requires run[l].main.Finished?
    ensures !V.Healthy(run[l].main.metrics, V.DEFAULT_DETECT)
  {
    hide IsRun, Inv, V.Healthy;
    EarlyEndIsBroken(c, run, k, i);
    RunInv(c, run, k);
    RunInv(c, run, l);
    SomeFlows(c, run[k]);
    SomeFlows(c, run[l]);
    BrokenStays(c, run, k, l, i);
    R.PassMeans(c, run, l);
  }

  // ------------------------------------------------------------------ only an early end is broken

  ghost predicate ReaderAlarmed(run: seq<Probe>, i: nat, e: nat, k: nat) {
    && e < k < |run| && FlowAt(run, e, i).task == Reading
    && forall l | e < l <= k :: FlowAt(run, l, i).task.Raising?
  }

  ghost predicate WriterAlarmed(run: seq<Probe>, i: nat, e: nat, k: nat) {
    && e < k < |run| && FlowAt(run, e, i).writer == Sending
    && forall l | e < l <= k :: FlowAt(run, l, i).writer.WRaising?
  }

  /** The reader's alarm: when its reading ended, and, once it is past its look at the clock, when it found time left. */
  lemma {:induction false} ReaderFound(c: Config, run: seq<Probe>, k: nat, i: nat) returns (e: nat, m: nat)
    requires IsRun(c, run) && k < |run| && i < c.flows && FlowAt(run, k, i).task.Raising?
    ensures ReaderAlarmed(run, i, e, k)
    ensures FlowAt(run, k, i).task.alarm.Swap? || FlowAt(run, k, i).task.alarm.Add? ==> e < m < k && run[m].clock < c.deadline
  {
    hide IsRun;
    AtFirst(c, run, i);
    RunLaw(c, run, k, i);
    var f, f' := FlowAt(run, k - 1, i), FlowAt(run, k, i);
    if f.task.Raising? {
      e, m := ReaderFound(c, run, k - 1, i);
      if f'.task != f.task && f'.task.alarm.Swap? {
        m := k - 1;
      }
    } else {
      e, m := k - 1, 0;
    }
  }

  lemma {:induction false} WriterFound(c: Config, run: seq<Probe>, k: nat, i: nat) returns (e: nat, m: nat)
    requires IsRun(c, run) && k < |run| && i < c.flows && FlowAt(run, k, i).writer.WRaising?
    ensures WriterAlarmed(run, i, e, k)
    ensures FlowAt(run, k, i).writer.alarm.Swap? || FlowAt(run, k, i).writer.alarm.Add? ==> e < m < k && run[m].clock < c.deadline
  {
    hide IsRun;
    AtFirst(c, run, i);
    RunLaw(c, run, k, i);
    var f, f' := FlowAt(run, k - 1, i), FlowAt(run, k, i);
    if f.writer.WRaising? {
      e, m := WriterFound(c, run, k - 1, i);
      if f'.writer != f.writer && f'.writer.alarm.Swap? {
        m := k - 1;
      }
    } else {
      e, m := k - 1, 0;
    }
  }

  /** A flow that has been marked as broken was waiting for a frame, or writing one, when that ended; and the clock, read after
      that, was short of the deadline. */
  lemma {:induction false} BrokenEndedEarly(c: Config, run: seq<Probe>, k: nat, i: nat) returns (e: nat, m: nat)
    requires IsRun(c, run) && k < |run| && i < c.flows && FlowAt(run, k, i).disconnected
    ensures e < m < k && run[m].clock < c.deadline && (ReaderAlarmed(run, i, e, m) || WriterAlarmed(run, i, e, m))
  {
    hide IsRun, ReaderAlarmed, WriterAlarmed, TaskComes, WriterComes, Counts;
    AtFirst(c, run, i);
    RunLaw(c, run, k, i);
    if FlowAt(run, k - 1, i).disconnected {
      e, m := BrokenEndedEarly(c, run, k - 1, i);
    } else {
      if FlowAt(run, k - 1, i).task.Raising? && FlowAt(run, k - 1, i).task.alarm.Swap? {
        e, m := ReaderFound(c, run, k - 1, i);
        AlarmedBefore(run, i, e, m, k - 1);
      } else {
        e, m := WriterFound(c, run, k - 1, i);
        AlarmedBefore(run, i, e, m, k - 1);
      }
    }
  }

  lemma AlarmedBefore(run: seq<Probe>, i: nat, e: nat, m: nat, k: nat)
    requires e < m < k
    ensures ReaderAlarmed(run, i, e, k) ==> ReaderAlarmed(run, i, e, m)
    ensures WriterAlarmed(run, i, e, k) ==> WriterAlarmed(run, i, e, m)
  {
  }

  /** No frame is begun once the deadline is past: the writer that is sending one had found time left at the head of its
      loop. */
  lemma {:induction false} WriterInTime(c: Config, run: seq<Probe>, k: nat, i: nat) returns (m: nat)
    requires IsRun(c, run) && k < |run| && i < c.flows && FlowAt(run, k, i).writer == Sending
    ensures m < k && FlowAt(run, m, i).writer == Loop && run[m].clock < c.deadline
    ensures forall l | m < l <= k :: FlowAt(run, l, i).writer == Sending
  {
    hide IsRun;
    AtFirst(c, run, i);
    RunLaw(c, run, k, i);
    if FlowAt(run, k - 1, i).writer == Sending {
      m := WriterInTime(c, run, k - 1, i);
    } else {
      m := k - 1;
    }
  }

  // ------------------------------------------------------------------ what the counters of a flow come to

  /** The lengths of the frames that the flow's reader has been given up to state `k`. */
  function Frames(run: seq<Probe>, i: nat, k: nat): seq<nat> {
    if k == 0 then []
    else
      var f, f' := FlowAt(run, k - 1, i), FlowAt(run, k, i);
      Frames(run, i, k - 1) + if f.task == Reading && f'.task.GotFrame? then [f'.task.len] else []
  }

  /** How many frames its writer has sent. */
  function Writes(run: seq<Probe>, i: nat, k: nat): nat {
    if k == 0 then 0
    else
      var f, f' := FlowAt(run, k - 1, i), FlowAt(run, k, i);
      Writes(run, i, k - 1) + if f.writer == Sending && f'.writer == Sent then 1 else 0
  }

  lemma {:induction false} ReceivedAddsUp(c: Config, run: seq<Probe>, k: nat, i: nat)
    requires IsRun(c, run) && k < |run| && i < c.flows
    ensures FlowAt(run, k, i).bytesRecv + Uncounted(FlowAt(run, k, i)) == Total(Frames(run, i, k))
  {
    hide IsRun, Uncounted;
    if k == 0 {
      AtFirst(c, run, i);
      NothingUncounted();
    } else {
      ReceivedAddsUp(c, run, k - 1, i);
      RunLaw(c, run, k, i);
      var f, f' := FlowAt(run, k - 1, i), FlowAt(run, k, i);
      if f.task == Reading && f'.task.GotFrame? {
        TotalSnoc(Frames(run, i, k - 1), f'.task.len);
      } else {
        assert Frames(run, i, k) == Frames(run, i, k - 1);
      }
    }
  }

  lemma NothingUncounted()
    ensures Uncounted(NEW_FLOW) == 0
  {
  }

  /** Every frame written is counted, by its whole length, once it is out. */
  lemma {:induction false} SentAddsUp(c: Config, run: seq<Probe>, k: nat, i: nat)
    requires IsRun(c, run) && k < |run| && i < c.flows
    ensures FlowAt(run, k, i).bytesSent + Unsent(FlowAt(run, k, i), c.frameLen) == Writes(run, i, k) * c.frameLen
  {
    hide IsRun;
    if k == 0 {
      AtFirst(c, run, i);
    } else {
      SentAddsUp(c, run, k - 1, i);
      RunLaw(c, run, k, i);
      OneWriteMore(Writes(run, i, k - 1), c.frameLen);
    }
  }

  lemma OneWriteMore(n: nat, len: nat)
    ensures (n + 1) * len == n * len + len
  {
  }
}
