/**
 Runs of one flow that show what does not hold.  A frame arrives during a recorded stall: the reader reads the clock, is
 held up before its store, and the watchdog looks in between; `ProbeResults.StallsAreGaps` says exactly when.  A quiet
 period has no record: the watchdog's swap came late; `QuietPeriods.QuietFlowIsRecorded` says exactly when.  And a port
 passes although a flow was marked.
 */
module ProbeRace {
  import opened Flow
  import opened Probe
  import opened Sums
  import Q = QuietPeriods
  import V = Verdict

  const C := Config(1, 5, 100, 25, 1)

  function Last(run: seq<Probe>): Probe requires run != [] { run[|run| - 1] }

  lemma Extend(run: seq<Probe>, s': Probe) returns (run': seq<Probe>)
    requires IsRun(C, run) && Next(C, Last(run), s')
    ensures IsRun(C, run') && run' == run + [s']
  {
    run' := run + [s'];
    forall i | 0 < i < |run'| ensures StepAt(C, run', i) {
      if i < |run| {
        assert StepAt(C, run, i);
        assert run'[i - 1] == run[i - 1] && run'[i] == run[i];
      }
    }
  }

  /** The only flow takes a step that touches no shared counter. */
  lemma Act(run: seq<Probe>, f': Flow) returns (run': seq<Probe>)
    requires IsRun(C, run) && |Last(run).flows| == 1
    requires FlowStep(EnvOf(C, Last(run)), Last(run).flows[0], f', QUIET, C.frameLen)
    ensures IsRun(C, run') && Last(run') == Last(run).(flows := [f'])
  {
    var s := Last(run);
    var s' := s.(flows := [f']);
    assert s.flows[0 := f'] == [f'];
    assert TaskStep(C, s, s', 0, f', QUIET);
    run' := Extend(run, s');
  }

  lemma Wait(run: seq<Probe>, clock: nat) returns (run': seq<Probe>)
    requires IsRun(C, run) && Last(run).clock <= clock
    ensures IsRun(C, run') && Last(run') == Last(run).(clock := clock)
  {
    assert Tick(Last(run), Last(run).(clock := clock));
    run' := Extend(run, Last(run).(clock := clock));
  }

  lemma Watch(run: seq<Probe>, dog: DogPc) returns (run': seq<Probe>)
    requires IsRun(C, run)
    requires var s' := Last(run).(dog := dog); DogWakes(C, Last(run), s') || DogLooks(C, Last(run), s')
    ensures IsRun(C, run') && Last(run') == Last(run).(dog := dog)
  {
    run' := Extend(run, Last(run).(dog := dog));
  }

  const IDLE := Sampler(Asleep, 1, 0, 0, 0, [], [], [], [], [0], [0])

  function StateOf(f: Flow, clock: nat, dog: DogPc, stalls: seq<StallRecord>): Probe {
    Probe([f], clock, false, 0, 0, stalls, dog, IDLE, Joining)
  }

  const READ_ONE := Flow(true, true, 0, 0, 25, false, false, Reading, Loop, [0, 0], 0, 0, 0, 0)

  lemma Connect() returns (run: seq<Probe>)
    ensures IsRun(C, run)
    ensures Last(run) == StateOf(NEW_FLOW.(connected := true, task := Reading, writer := Loop, stamps := [0]), 0, DogIdle, [])
  {
    run := [StateOf(NEW_FLOW, 0, DogIdle, [])];
    var f := NEW_FLOW.(connected := true, task := Up);
    run := Act(run, f);
    run := Act(run, f.(task := UpAt(0)));
    run := Act(run, f.(task := Reading, writer := Loop, stamps := [0]));
  }

  lemma CountFrame(before: seq<Probe>) returns (run: seq<Probe>)
    requires IsRun(C, before)
    requires Last(before) == StateOf(NEW_FLOW.(connected := true, task := Reading, writer := Loop, stamps := [0]), 0, DogIdle, [])
    ensures IsRun(C, run)
    ensures Last(run) == StateOf(NEW_FLOW.(connected := true, task := At(0), writer := Loop, stamps := [0], bytesRecv := 25), 0, DogIdle, [])
  {
    var f := NEW_FLOW.(connected := true, task := Reading, writer := Loop, stamps := [0]);
    run := Act(before, f.(task := GotFrame(25)));
    f := f.(bytesRecv := 25);
    run := Act(run, f.(task := Counted));
    run := Act(run, f.(task := At(0)));
  }

  lemma ReadFrame(before: seq<Probe>) returns (run: seq<Probe>)
    requires IsRun(C, before)
    requires Last(before) == StateOf(NEW_FLOW.(connected := true, task := Reading, writer := Loop, stamps := [0]), 0, DogIdle, [])
    ensures IsRun(C, run) && Last(run) == StateOf(READ_ONE, 0, DogIdle, [])
  {
    run := CountFrame(before);
    var f := NEW_FLOW.(connected := true, task := Reading, writer := Loop, stamps := [0, 0], bytesRecv := 25);
    run := Act(run, f.(task := Stamped));
    run := Act(run, f.(task := Marked, firstRecv := true));
    run := Act(run, READ_ONE);
  }

  /** The next frame comes in at 1 ms; the reader has the time but has not stored it at 7 ms. */
  lemma HoldStamp(before: seq<Probe>) returns (run: seq<Probe>)
    requires IsRun(C, before) && Last(before) == StateOf(READ_ONE, 0, DogIdle, [])
    ensures IsRun(C, run) && Last(run) == StateOf(READ_ONE.(task := At(1), bytesRecv := 50), 7, DogIdle, [])
  {
    run := Act(before, READ_ONE.(task := GotFrame(25)));
    run := Act(run, READ_ONE.(task := Counted, bytesRecv := 50));
    run := Wait(run, 1);
    run := Act(run, READ_ONE.(task := At(1), bytesRecv := 50));
    run := Wait(run, 7);
  }

  const STALL := StallRecord(0, 7, 7, 2, true, 0)

  lemma Scan(before: seq<Probe>) returns (run: seq<Probe>)
    requires IsRun(C, before) && Last(before) == StateOf(READ_ONE.(task := At(1), bytesRecv := 50), 7, DogIdle, [])
    ensures IsRun(C, run)
    ensures Last(run) == StateOf(READ_ONE.(task := At(1), bytesRecv := 50), 7, Look(7, 0, TrySwap(7, 2, true)), [])
  {
    run := Watch(before, DogAwake);
    run := Watch(run, DogFlag);
    run := Watch(run, DogClock);
    run := Watch(run, Look(7, 0, LookConnected));
    run := Watch(run, Look(7, 0, LookDisconnected));
    run := Watch(run, Look(7, 0, LookFirst));
    run := Watch(run, Look(7, 0, LookGap));
    run := Watch(run, Look(7, 0, TrySwap(7, 2, true)));
  }

  const STALLED := READ_ONE.(task := At(1), bytesRecv := 50, inStall := true, marks := 1, markSeen := 2, markedAt := 2)

  lemma Mark() returns (run: seq<Probe>)
    ensures IsRun(C, run) && Last(run) == StateOf(STALLED, 7, Look(7, 0, Push(STALL)), [])
  {
    run := Connect();
    run := ReadFrame(run);
    run := HoldStamp(run);
    run := Scan(run);
    var s := StateOf(STALLED, 7, Look(7, 0, Push(STALL)), []);
    assert Last(run).flows[0 := STALLED] == [STALLED];
    assert DogSwaps(Last(run), s);
    run := Extend(run, s);
  }

  /** The stall (0, 7] is recorded, and a frame of this flow is stamped 1. */
  lemma StampInsideGap() returns (run: seq<Probe>)
    ensures IsRun(C, run) && Last(run).stalls == [STALL] && |Last(run).flows| == 1
    ensures var stamps := Last(run).flows[0].stamps;
            exists k :: 0 <= k < |stamps| && STALL.at - STALL.gap < stamps[k] < STALL.at
  {
    run := Mark();
    var s := Last(run).(stalls := [STALL], dog := Onward(7, 0));
    assert Last(run).stalls + [STALL] == [STALL];
    assert DogPushes(Last(run), s);
    run := Extend(run, s);
    run := Act(run, STALLED.(task := Stamped, lastRecvMs := 1, stamps := [0, 0, 1]));
    assert Last(run).flows[0].stamps[2] == 1;
  }

  // ------------------------------------------------------------------ a quiet period without a record

  const LATE := StallRecord(0, 6, 6, 2, false, 0)
  const MOVED := READ_ONE.(lastRecvMs := 6, bytesRecv := 50, stamps := [0, 0, 6])
  const FLAGGED := MOVED.(inStall := true, marks := 1, markSeen := 2, markedAt := 3)

  /** The watchdog goes through a scan of the only flow, up to its swap. */
  lemma LookAt(before: seq<Probe>, f: Flow, clock: nat, stalls: seq<StallRecord>) returns (run: seq<Probe>)
    requires IsRun(C, before) && Last(before) == StateOf(f, clock, DogIdle, stalls) && clock < C.deadline
    requires f.connected && !f.disconnected && f.firstRecv && f.task == Reading && clock > f.lastRecvMs + C.stallMs
    ensures IsRun(C, run)
    ensures Last(run) == StateOf(f, clock, Look(clock, 0, TrySwap(clock - f.lastRecvMs, |f.stamps|, false)), stalls)
  {
    run := Watch(before, DogAwake);
    run := Watch(run, DogFlag);
    run := Watch(run, DogClock);
    run := Watch(run, Look(clock, 0, LookConnected));
    run := Watch(run, Look(clock, 0, LookDisconnected));
    run := Watch(run, Look(clock, 0, LookFirst));
    run := Watch(run, Look(clock, 0, LookGap));
    run := Watch(run, Look(clock, 0, TrySwap(clock - f.lastRecvMs, |f.stamps|, false)));
  }

  lemma TakeFrame(before: seq<Probe>) returns (run: seq<Probe>)
    requires IsRun(C, before) && Last(before) == StateOf(READ_ONE, 6, Look(6, 0, TrySwap(6, 2, false)), [])
    ensures IsRun(C, run)
    ensures Last(run) == StateOf(READ_ONE.(task := At(6), bytesRecv := 50), 6, Look(6, 0, TrySwap(6, 2, false)), [])
  {
    run := Act(before, READ_ONE.(task := GotFrame(25)));
    run := Act(run, READ_ONE.(task := Counted, bytesRecv := 50));
    run := Act(run, READ_ONE.(task := At(6), bytesRecv := 50));
  }

  /** Between the look and the swap the reader takes a frame in, stores its stamp and clears the flag. */
  lemma GoRound(before: seq<Probe>) returns (run: seq<Probe>)
    requires IsRun(C, before) && Last(before) == StateOf(READ_ONE, 6, Look(6, 0, TrySwap(6, 2, false)), [])
    ensures IsRun(C, run) && Last(run) == StateOf(MOVED, 6, Look(6, 0, TrySwap(6, 2, false)), [])
  {
    run := TakeFrame(before);
    run := Act(run, MOVED.(task := Stamped));
    run := Act(run, MOVED.(task := Marked));
    run := Act(run, MOVED);
  }

  /** The swap comes after the quiet period has ended: it sets the flag for a period that is over. */
  lemma SwapLate(before: seq<Probe>) returns (run: seq<Probe>)
    requires IsRun(C, before) && Last(before) == StateOf(MOVED, 6, Look(6, 0, TrySwap(6, 2, false)), [])
    ensures IsRun(C, run) && Last(run) == StateOf(FLAGGED, 6, DogIdle, [LATE])
  {
    var s := StateOf(FLAGGED, 6, Look(6, 0, Push(LATE)), []);
    assert Last(before).flows[0 := FLAGGED] == [FLAGGED];
    assert DogSwaps(Last(before), s);
    run := Extend(before, s);
    var s' := StateOf(FLAGGED, 6, Onward(6, 0), [LATE]);
    assert s.stalls + [LATE] == [LATE];
    assert DogPushes(s, s');
    run := Extend(run, s');
    run := Watch(run, DogIdle);
  }

  /** The flow then stays silent for longer than the threshold: the watchdog finds it so, finds the flag on, and goes on.
      The only record is the one of the earlier period. */
  lemma QuietPeriodUnrecorded() returns (run: seq<Probe>)
    ensures IsRun(C, run) && |run| > 1 && DogSwaps(run[|run| - 2], run[|run| - 1])
    ensures var s := run[|run| - 2];
            && s.dog == Look(12, 0, TrySwap(6, 3, false)) && |s.flows| == 1 && s.flows[0] == FLAGGED
    ensures Last(run).stalls == [LATE] && Last(run).flows == [FLAGGED] && Last(run).dog == Onward(12, 0)
    ensures !Q.Recorded(Last(run), 0, 3)
  {
    run := Connect();
    run := ReadFrame(run);
    run := Wait(run, 6);
    run := LookAt(run, READ_ONE, 6, []);
    run := GoRound(run);
    run := SwapLate(run);
    run := Wait(run, 12);
    run := LookAt(run, FLAGGED, 12, [LATE]);
    var before := run;
    var s := Last(run).(dog := Onward(12, 0));
    assert DogSwaps(Last(run), s);
    run := Extend(run, s);
    assert run == before + [s];
  }

  // ------------------------------------------------------------------ a stall that the verdict does not see

  const OVER := STALLED.(task := Joined, writer := WriterJoined, bytesSent := 25, lastRecvMs := 1,
                         stamps := [0, 0, 1], inStall := false, clears := 1)

  /** The flow goes on and ends at the deadline, while the watchdog still waits to push. */
  lemma EndFlow(before: seq<Probe>) returns (run: seq<Probe>)
    requires IsRun(C, before) && Last(before) == StateOf(STALLED, 7, Look(7, 0, Push(STALL)), [])
    ensures IsRun(C, run)
    ensures Last(run) == StateOf(OVER.(task := Reading, writer := Loop, bytesSent := 0), 7, Look(7, 0, Push(STALL)), [])
  {
    var f := STALLED.(lastRecvMs := 1, stamps := [0, 0, 1]);
    run := Act(before, f.(task := Stamped));
    run := Act(run, f.(task := Marked));
    run := Act(run, f.(task := Reading, inStall := false, clears := 1));
  }

  lemma EndWriter(before: seq<Probe>) returns (run: seq<Probe>)
    requires IsRun(C, before)
    requires Last(before) == StateOf(OVER.(task := Reading, writer := Loop, bytesSent := 0), 7, Look(7, 0, Push(STALL)), [])
    ensures IsRun(C, run) && Last(run) == StateOf(OVER.(task := Reading), 100, Look(7, 0, Push(STALL)), [])
  {
    run := Act(before, OVER.(task := Reading, writer := Sending, bytesSent := 0));
    run := Act(run, OVER.(task := Reading, writer := Sent, bytesSent := 0));
    run := Act(run, OVER.(task := Reading, writer := Loop));
    run := Wait(run, 100);
    run := Act(run, OVER.(task := Reading));
  }

  lemma EndReader(before: seq<Probe>) returns (run: seq<Probe>)
    requires IsRun(C, before) && Last(before) == StateOf(OVER.(task := Reading), 100, Look(7, 0, Push(STALL)), [])
    ensures IsRun(C, run) && Last(run) == StateOf(OVER, 100, Look(7, 0, Push(STALL)), [])
  {
    run := Act(before, OVER.(task := Raising(CheckFlag)));
    run := Act(run, OVER.(task := Raising(CheckDeadline)));
    run := Act(run, OVER.(task := JoiningWriter));
    run := Act(run, OVER);
  }

  lemma Sample(before: seq<Probe>, m: Sampler) returns (run: seq<Probe>)
    requires IsRun(C, before) && SamplerStep(C, Last(before), Last(before).(sampler := m))
    ensures IsRun(C, run) && Last(run) == Last(before).(sampler := m)
  {
    run := Extend(before, Last(before).(sampler := m));
  }

  lemma TakeSample(before: seq<Probe>) returns (run: seq<Probe>)
    requires IsRun(C, before)
    requires Last(before) == StateOf(OVER, 100, Look(7, 0, Push(STALL)), []).(main := Winding, windingDown := true)
    ensures IsRun(C, run) && Last(run).sampler.pc == SamplerDone
    ensures Last(run) == Last(before).(sampler := Last(run).sampler)
  {
    var m := IDLE.(pc := SumDown);
    run := Sample(before, m);
    run := Sample(run, m.(acc := 50, current := [50]));
    m := IDLE.(pc := SumUp(50), currentDown := [50]);
    run := Sample(run, m);
    run := Sample(run, m.(acc := 25, current := [25]));
    m := Sampler(Pushed, 1, 25, 50, 25, [50], [25], [25], [50], [50], [25]);
    run := Sample(run, m);
    run := Sample(run, m.(pc := SamplerDone));
  }

  lemma Advance(before: seq<Probe>, main: MainPc, winding: bool) returns (run: seq<Probe>)
    requires IsRun(C, before) && MainStep(C, Last(before), Last(before).(main := main, windingDown := winding))
    ensures IsRun(C, run) && Last(run) == Last(before).(main := main, windingDown := winding)
  {
    run := Extend(before, Last(before).(main := main, windingDown := winding));
  }

  /** `Pass` does not say that no flow stalled: `in_stall` was turned on for a flow quiet for longer
      than the threshold, the abort met the watchdog in front of the lock, and the port passes. */
  lemma PassMissesAStall() returns (run: seq<Probe>)
    ensures IsRun(C, run) && Last(run).main.Finished? && |Last(run).flows| == 1
    ensures Last(run).flows[0].marks == 1 && Last(run).stalls == [] && Last(run).dog == DogCancelled(0)
    ensures V.Healthy(Last(run).main.metrics, V.DEFAULT_DETECT)
  {
    run := Mark();
    run := EndFlow(run);
    run := EndWriter(run);
    run := EndReader(run);
    run := Advance(run, Winding, true);
    run := TakeSample(run);
    run := Advance(run, SamplerJoined, true);
    run := Advance(run, Aborted, true);
    var s := Last(run).(dog := DogCancelled(0));
    assert DogPushes(Last(run), s);
    run := Extend(run, s);
    var m := Finalize(C, s, 0.0);
    run := Advance(run, Finished(m), true);
    AllSums(s.flows);
  }

  lemma AllSums(fs: seq<Flow>)
    requires fs == [OVER]
    ensures Total(Connecteds(fs)) == 1 && Total(Silents(fs)) == 0 && Total(Sents(fs)) == 25
  {
    assert Connecteds(fs) == [1] && Silents(fs) == [0] && Sents(fs) == [25];
    TotalSnoc([], 1);
    TotalSnoc([], 0);
    TotalSnoc([], 25);
    assert [] + [1] == [1] && [] + [0] == [0] && [] + [25] == [25];
  }
}
