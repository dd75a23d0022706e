/** What holds of every run of the probe, and what a `Pass` verdict says about the run. */
module ProbeResults {
  import opened Flow
  import opened Sums
  import opened Probe
  import V = Verdict

  // ------------------------------------------------------------------ disconnects and connects

  /** In every state, the disconnects counted and the tasks about to count one make up the flows
      marked broken, and no flow has two such tasks. */
  lemma DisconnectsInFlight(c: Config, run: seq<Probe>, i: nat)
    requires IsRun(c, run) && i < |run|
    ensures var s := run[i];
            && s.midstream + Total(Adds(s.flows)) == Total(Brokens(s.flows))
            && forall k :: 0 <= k < |s.flows| ==> PendingAdds(s.flows[k]) <= Broken(s.flows[k])
  {
    RunInv(c, run, i);
    forall k | 0 <= k < |run[i].flows| ensures PendingAdds(run[i].flows[k]) <= Broken(run[i].flows[k]) {
      assert FlowInv(run[i].clock, run[i].flows[k]);
    }
  }

  lemma JoinedFlow(clock: nat, f: Flow)
    requires FlowInv(clock, f) && f.task == Joined
    ensures PendingAdds(f) == 0 && Broken(f) <= (if f.connected then 1 else 0)
    ensures (if f.connected then 1 else 0) + GaveUp(f) == 1
  {
  }

  /** After all joins each broken flow has been counted once, broken flows are connected flows, and
      every attempt either connected or was counted as failed. */
  lemma JoinedCounts(c: Config, run: seq<Probe>, i: nat)
    requires IsRun(c, run) && i < |run| && AllJoined(run[i])
    ensures var s := run[i];
            && s.midstream == Total(Brokens(s.flows)) <= Total(Connecteds(s.flows))
            && Total(Connecteds(s.flows)) + s.connectFailed == |s.flows| == c.flows
  {
    RunInv(c, run, i);
    var s := run[i];
    forall k | 0 <= k < |s.flows|
      ensures Adds(s.flows)[k] == 0 && Brokens(s.flows)[k] <= Connecteds(s.flows)[k]
      ensures Connecteds(s.flows)[k] + GaveUps(s.flows)[k] == 1
    {
      assert FlowInv(s.clock, s.flows[k]);
      JoinedFlow(s.clock, s.flows[k]);
    }
    TotalZero(Adds(s.flows));
    TotalBelow(Brokens(s.flows), Connecteds(s.flows));
    TotalComplement(Connecteds(s.flows), GaveUps(s.flows));
  }

  // ------------------------------------------------------------------ stalls

  /** A recorded stall is a real gap: the flow had been quiet for more than the threshold when the
      watchdog looked, and a stamp falls strictly inside the gap only if the reader had read the clock but
      not yet stored it.  It is at most one stamp, and lies inside exactly when the one held has been stored and is above
      the gap's begin.  No stamp after
      the gap's begin was stored when the watchdog looked; and the gap's very end is stamped, in the watchdog's own
      millisecond, exactly when the first stamp it did not see, apart from the one held, is that end. */
  lemma StallsAreGaps(c: Config, run: seq<Probe>, i: nat, j: nat)
    requires IsRun(c, run) && i < |run| && j < |run[i].stalls|
    ensures var r := run[i].stalls[j]; r.conn < |run[i].flows| && IsGap(c.stallMs, run[i].flows[r.conn].stamps, r)
  {
    hide Inv, IsGap;
    RunInv(c, run, i);
    RecordIsGap(c, run[i], j);
  }

  ghost predicate IsGap(stallMs: nat, stamps: seq<nat>, r: StallRecord) {
    && r.gap > stallMs && r.gap <= r.at && 1 <= r.seen <= |stamps|
    && stamps[r.seen - 1] == r.at - r.gap
    && (forall k :: 0 <= k < |stamps| && r.at - r.gap < stamps[k] < r.at ==> k == r.seen && r.raced)
    && (r.seen < |stamps| ==> (r.raced <==> stamps[r.seen] < r.at))
    && ((exists k :: 0 <= k < |stamps| && r.at - r.gap < stamps[k] < r.at)
        <==> r.raced && r.seen < |stamps| && r.at - r.gap < stamps[r.seen])
    && (forall k :: 0 <= k < |stamps| && r.at - r.gap < stamps[k] ==> r.seen <= k)
    && var next := r.seen + if r.raced then 1 else 0;
       (exists k :: 0 <= k < |stamps| && stamps[k] == r.at) <==> next < |stamps| && stamps[next] == r.at
  }

  lemma RecordIsGap(c: Config, s: Probe, j: nat)
    requires Inv(c, s) && j < |s.stalls|
    ensures var r := s.stalls[j]; r.conn < |s.flows| && IsGap(c.stallMs, s.flows[r.conn].stamps, r)
  {
    hide FlowInv, Truthful, IsGap, DogInv, SamplerInv, MainInv, MarksInv, CountsInv;
    assert RecordOk(c, s, s.stalls[j]);
    GapFacts(c, s.clock, s.flows[s.stalls[j].conn], s.stalls[j]);
  }

  lemma GapFacts(c: Config, clock: nat, f: Flow, r: StallRecord)
    requires FlowInv(clock, f) && Truthful(c, clock, f, r)
    ensures IsGap(c.stallMs, f.stamps, r)
  {
  }

  lemma {:induction false} RecordsGrow(stalls: seq<StallRecord>, j: nat, k: nat, conn: nat)
    requires j <= k <= |stalls|
    ensures RecordsOf(stalls[..j], conn) <= RecordsOf(stalls[..k], conn)
    decreases k
  {
    if j < k {
      assert stalls[..k][..k - 1] == stalls[..k - 1];
      RecordsGrow(stalls, j, k - 1, conn);
    }
  }

  /** Two stalls of one flow: the reader ended the first before the second began. */
  lemma ClearBetweenStalls(c: Config, run: seq<Probe>, i: nat, j: nat, k: nat)
    requires IsRun(c, run) && i < |run| && j < k < |run[i].stalls|
    requires run[i].stalls[j].conn == run[i].stalls[k].conn
    ensures run[i].stalls[j].episode < run[i].stalls[k].episode
  {
    RunInv(c, run, i);
    LaterEpisode(run[i].stalls, j, k);
  }

  lemma LaterEpisode(stalls: seq<StallRecord>, j: nat, k: nat)
    requires j < k < |stalls|
    ensures RecordsOf(stalls[..j], stalls[j].conn) < RecordsOf(stalls[..k], stalls[j].conn)
  {
    assert stalls[..j + 1][..j] == stalls[..j];
    RecordsGrow(stalls, j + 1, k, stalls[j].conn);
  }

  /** The flow's episodes, ended and under way, are its records, in the list and in hand. */
  ghost predicate EpisodesAdd(s: Probe, conn: nat)
    requires conn < |s.flows|
  {
    s.flows[conn].clears + (if s.flows[conn].inStall then 1 else 0) == RecordsOf(s.stalls, conn) + InHand(s.dog, conn)
  }

  /** Stall episodes are conserved: those ended and the one under way, if any, are those recorded and
      the one still in the watchdog's hand (or dropped there by the abort). */
  lemma EpisodesConserved(c: Config, run: seq<Probe>, i: nat, conn: nat)
    requires IsRun(c, run) && i < |run| && conn < |run[i].flows|
    ensures EpisodesAdd(run[i], conn)
  {
    RunInv(c, run, i);
    assert FlowInv(run[i].clock, run[i].flows[conn]);
    assert run[i].flows[conn].marks == RecordsOf(run[i].stalls, conn) + InHand(run[i].dog, conn);
  }

  // ------------------------------------------------------------------ throughput series

  /** The per-second deltas of the series add up to the last totals read, which are within the present
      totals; so no subtraction ever saturates. */
  lemma SeriesTelescopes(c: Config, run: seq<Probe>, i: nat)
    requires IsRun(c, run) && i < |run|
    ensures var s := run[i];
            && Total(s.sampler.down) == s.sampler.prevDown <= Total(Recvs(s.flows))
            && Total(s.sampler.up) == s.sampler.prevUp <= Total(Sents(s.flows))
            && (s.main.Finished? ==>
                  Total(s.sampler.down) <= s.main.metrics.bytesRecv && Total(s.sampler.up) <= s.main.metrics.bytesSent)
  {
    RunInv(c, run, i);
    var s := run[i];
    TotalBelow(s.sampler.lastDown, Recvs(s.flows));
    TotalBelow(s.sampler.lastUp, Sents(s.flows));
  }

  // ------------------------------------------------------------------ the verdict

  /** The rate, times the seconds it is taken over, which are at least one, is the kilobits received. */
  ghost predicate RateOver(kbps: real, bytes: nat, secs: nat) {
    kbps * (if secs > 1 then secs else 1) as real == (8 * bytes) as real / 1000.0
  }

  /** The metrics are those of the finished flows, with the stalls recorded up to `finalize`. */
  lemma MetricsAreFinal(c: Config, run: seq<Probe>, i: nat) returns (k: nat)
    requires IsRun(c, run) && i < |run| && run[i].main.Finished?
    ensures var s := run[i]; var m := s.main.metrics;
            && AllJoined(s) && k <= |s.stalls| && m.stalls == Events(s.stalls[..k])
            && m.attempted == |s.flows| && m.connected == Total(Connecteds(s.flows))
            && m.connectFailed == s.connectFailed && m.midstreamDisconnects == s.midstream
            && m.flowsNoReturn == Total(Silents(s.flows))
            && m.bytesSent == Total(Sents(s.flows)) && m.bytesRecv == Total(Recvs(s.flows))
            && RateOver(m.avgDownKbps, m.bytesRecv, c.durationSecs)
  {
    hide RateOver;
    RunInv(c, run, i);
    var p95: real;
    p95, k :| k <= |run[i].stalls| && run[i].main.metrics == Finalize(c, run[i].(stalls := run[i].stalls[..k]), p95);
    FinalRate(c, run[i].(stalls := run[i].stalls[..k]), p95);
  }

  lemma FinalRate(c: Config, s: Probe, p95: real)
    ensures var m := Finalize(c, s, p95); RateOver(m.avgDownKbps, m.bytesRecv, c.durationSecs)
  {
    var dur := if c.durationSecs > 1 then c.durationSecs else 1;
    hide Recvs, Sents, Connecteds, Silents, Events, Total;
    OverAndTimes(Total(Recvs(s.flows)) as real * 8.0 / 1000.0, dur as real);
  }

  lemma OverAndTimes(x: real, k: real)
    requires k != 0.0
    ensures x / k * k == x
  {
  }

  /** Under the default rules a port passes exactly when some flow connected, none was broken, no stall had
      been recorded when the metrics were taken, something was sent, every connected flow got something back, and at
      most one attempt in ten failed. */
  lemma PassMeans(c: Config, run: seq<Probe>, i: nat)
    requires IsRun(c, run) && i < |run| && run[i].main.Finished?
    ensures var s := run[i]; var m := s.main.metrics;
            V.Healthy(m, V.DEFAULT_DETECT) <==>
              && (exists k :: 0 <= k < |s.flows| && s.flows[k].connected)
              && (forall k :: 0 <= k < |s.flows| ==> !s.flows[k].disconnected)
              && m.stalls == []
              && (exists k :: 0 <= k < |s.flows| && s.flows[k].bytesSent > 0)
              && (forall k :: 0 <= k < |s.flows| && s.flows[k].connected ==> s.flows[k].bytesRecv > 0)
              && 10 * s.connectFailed <= |s.flows|
  {
    var k := MetricsAreFinal(c, run, i);
    var s := run[i];
    JoinedCounts(c, run, i);
    TotalZero(Connecteds(s.flows));
    TotalZero(Brokens(s.flows));
    TotalZero(Sents(s.flows));
    TotalZero(Silents(s.flows));
    RulesOverFlows(s);
    assert c.flows > 0 by { assert Init(c, run[0]); }
    TenPercent(s.main.metrics);
  }

  /** What a pass leaves open about stalls, at the moment the metrics are taken: some flow has been marked as stalled
      exactly when the watchdog stands between its swap and its push. */
  lemma PassMissesStallIff(c: Config, run: seq<Probe>, i: nat)
    requires IsRun(c, run) && 0 < i < |run| && run[i - 1].main.Aborted? && run[i].main.Finished?
    requires V.Healthy(run[i].main.metrics, V.DEFAULT_DETECT)
    ensures var s := run[i - 1];
            && run[i].flows == s.flows && run[i].dog == s.dog && s.stalls == run[i].stalls == []
            && ((exists k :: 0 <= k < |s.flows| && s.flows[k].marks > 0) <==>
                (exists k :: 0 <= k < |s.flows| && InHand(s.dog, k) > 0))
  {
    hide Inv, IsRun, Next, V.Healthy, MarksInv, InHand;
    RunInv(c, run, i - 1);
    LastStep(c, run, i);
    TakesMetrics(c, run[i - 1], run[i]);
    NoStalls(run[i].main.metrics);
    MarksInHand(c, run[i - 1]);
  }

  lemma LastStep(c: Config, run: seq<Probe>, i: nat)
    requires IsRun(c, run) && 0 < i < |run|
    ensures Next(c, run[i - 1], run[i])
  {
    hide Next;
    assert StepAt(c, run, i);
  }

  lemma NoStalls(m: V.PortMetrics)
    requires V.Healthy(m, V.DEFAULT_DETECT)
    ensures m.stalls == []
  {
  }

  lemma MarksInHand(c: Config, s: Probe)
    requires Inv(c, s) && s.stalls == []
    ensures (exists k :: 0 <= k < |s.flows| && s.flows[k].marks > 0) <==> (exists k :: 0 <= k < |s.flows| && InHand(s.dog, k) > 0)
  {
    assert MarksInv(s);
    hide Inv, InHand;
    assert forall k :: RecordsOf(s.stalls, k) == 0;
    assert forall k :: 0 <= k < |s.flows| ==> s.flows[k].marks == InHand(s.dog, k);
  }

  lemma TakesMetrics(c: Config, s: Probe, s': Probe)
    requires Inv(c, s) && Next(c, s, s') && s.main.Aborted? && s'.main.Finished?
    ensures s' == s.(main := s'.main) && |s'.main.metrics.stalls| == |s.stalls|
  {
    hide Inv;
    assert MainStep(c, s, s');
  }

  // Later marks: only from a scan already under way.

  /** The watchdog is past its look at the deadline and at `winding_down`. */
  ghost predicate ScanUnderWay(dog: DogPc) { dog == DogClock || dog.Look? }

  ghost predicate SameMarks(s: Probe, s': Probe) {
    |s'.flows| == |s.flows| && forall k :: 0 <= k < |s.flows| ==> s'.flows[k].marks == s.flows[k].marks
  }

  lemma NoMarkWithoutScan(c: Config, s: Probe, s': Probe)
    requires Inv(c, s) && Next(c, s, s') && s.windingDown && !ScanUnderWay(s.dog)
    ensures s'.windingDown && !ScanUnderWay(s'.dog) && SameMarks(s, s')
  {
    assert FlowsInv(c, s);
    hide Inv, FlowsInv, TaskStep, MainStep, SamplerStep, Tick, DogWakes, DogLooks, DogSwaps, DogPushes, ScanUnderWay, SameMarks;
    if i: nat, f', eff :| TaskStep(c, s, s', i, f', eff) {
      TaskMarks(c, s, s', i, f', eff);
    } else {
      OtherSteps(c, s, s');
    }
  }

  lemma TaskMarks(c: Config, s: Probe, s': Probe, i: nat, f': Flow, eff: Effect)
    requires FlowsInv(c, s) && TaskStep(c, s, s', i, f', eff)
    ensures s'.windingDown == s.windingDown && s'.dog == s.dog && SameMarks(s, s')
  {
    hide FlowStep, FlowInv;
    FlowKeeps(EnvOf(c, s), s.flows[i], f', eff, c.frameLen);
  }

  lemma OtherSteps(c: Config, s: Probe, s': Probe)
    requires s.windingDown && !ScanUnderWay(s.dog)
    requires || Tick(s, s') || DogWakes(c, s, s') || DogLooks(c, s, s') || DogSwaps(s, s') || DogPushes(s, s')
             || SamplerStep(c, s, s') || MainStep(c, s, s')
    ensures s'.windingDown && !ScanUnderWay(s'.dog) && SameMarks(s, s')
  {
  }

  lemma MarksAgree(s: Probe)
    ensures SameMarks(s, s)
  {
  }

  lemma MarksChain(s: Probe, t: Probe, u: Probe)
    requires SameMarks(s, t) && SameMarks(t, u)
    ensures SameMarks(s, u)
  {
  }

  /** Once the run winds down, flows are marked only by a scan that had begun before. */
  lemma {:induction false} LateMarksNeedScan(c: Config, run: seq<Probe>, i: nat, l: nat)
    requires IsRun(c, run) && i <= l < |run| && run[i].windingDown && !ScanUnderWay(run[i].dog)
    ensures run[l].windingDown && !ScanUnderWay(run[l].dog) && SameMarks(run[i], run[l])
    decreases l
  {
    hide Inv, Next, IsRun, ScanUnderWay, SameMarks;
    if i == l {
      MarksAgree(run[i]);
    } else {
      LateMarksNeedScan(c, run, i, l - 1);
      RunInv(c, run, l - 1);
      LastStep(c, run, l);
      NoMarkWithoutScan(c, run[l - 1], run[l]);
      MarksChain(run[i], run[l - 1], run[l]);
    }
  }

  /** A pass whose metrics were taken with the watchdog neither scanning nor cancelled in front of the lock is final:
      no flow was or ever will be marked as stalled. */
  lemma PassWithoutScan(c: Config, run: seq<Probe>, i: nat, l: nat)
    requires IsRun(c, run) && 0 < i <= l < |run| && run[i - 1].main.Aborted? && run[i].main.Finished?
    requires V.Healthy(run[i].main.metrics, V.DEFAULT_DETECT)
    requires !ScanUnderWay(run[i].dog) && !run[i].dog.DogCancelled?
    ensures forall k :: 0 <= k < |run[l].flows| ==> run[l].flows[k].marks == 0
  {
    WindingDown(c, run, i);
    hide IsRun, V.Healthy, ScanUnderWay;
    PassMissesStallIff(c, run, i);
    LateMarksNeedScan(c, run, i, l);
    assert ScanUnderWay(run[i].dog) || forall k :: InHand(run[i].dog, k) == 0 by {
      NothingInHand(run[i].dog);
    }
  }

  lemma NothingInHand(dog: DogPc)
    requires !dog.DogCancelled?
    ensures ScanUnderWay(dog) || forall k :: InHand(dog, k) == 0
  {
  }

  lemma WindingDown(c: Config, run: seq<Probe>, i: nat)
    requires IsRun(c, run) && i < |run| && run[i].main.Finished?
    ensures run[i].windingDown
  {
    hide IsRun;
    RunInv(c, run, i);
  }

  /** The same, later on: a marked flow shows as a stall pushed after the metrics were taken, or one that never got out
      of the watchdog's hand. */
  lemma LateStallIff(c: Config, run: seq<Probe>, i: nat)
    requires IsRun(c, run) && i < |run| && run[i].main.Finished?
    requires V.Healthy(run[i].main.metrics, V.DEFAULT_DETECT)
    ensures var s := run[i];
            (exists k :: 0 <= k < |s.flows| && s.flows[k].marks > 0) <==>
            |s.stalls| > |s.main.metrics.stalls| || exists k :: 0 <= k < |s.flows| && InHand(s.dog, k) > 0
  {
    var n := MetricsAreFinal(c, run, i);
    RunInv(c, run, i);
    var s := run[i];
    assert |s.main.metrics.stalls| == 0 && Inv(c, s);
    hide FlowsInv, CountsInv, DogInv, SamplerInv, MainInv, IsRun, V.Healthy, Truthful;
    forall k | 0 <= k < |s.flows| ensures s.flows[k].marks == RecordsOf(s.stalls, k) + InHand(s.dog, k) {
    }
    if s.stalls == [] {
      assert forall k :: RecordsOf(s.stalls, k) == 0;
    } else {
      var r := s.stalls[|s.stalls| - 1];
      assert RecordOk(c, s, r);
      assert s.flows[r.conn].marks > 0;
    }
  }

  lemma RulesOverFlows(s: Probe)
    ensures (exists k :: 0 <= k < |s.flows| && s.flows[k].connected) <==>
            !(forall k :: 0 <= k < |s.flows| ==> Connecteds(s.flows)[k] == 0)
    ensures (forall k :: 0 <= k < |s.flows| ==> !s.flows[k].disconnected) <==>
            (forall k :: 0 <= k < |s.flows| ==> Brokens(s.flows)[k] == 0)
    ensures (exists k :: 0 <= k < |s.flows| && s.flows[k].bytesSent > 0) <==>
            !(forall k :: 0 <= k < |s.flows| ==> Sents(s.flows)[k] == 0)
    ensures (forall k :: 0 <= k < |s.flows| && s.flows[k].connected ==> s.flows[k].bytesRecv > 0) <==>
            (forall k :: 0 <= k < |s.flows| ==> Silents(s.flows)[k] == 0)
  {
    if exists k :: 0 <= k < |s.flows| && s.flows[k].connected {
      var k :| 0 <= k < |s.flows| && s.flows[k].connected;
      assert Connecteds(s.flows)[k] == 1;
    }
    if exists k :: 0 <= k < |s.flows| && s.flows[k].bytesSent > 0 {
      var k :| 0 <= k < |s.flows| && s.flows[k].bytesSent > 0;
      assert Sents(s.flows)[k] > 0;
    }
    if !forall k :: 0 <= k < |s.flows| ==> !s.flows[k].disconnected {
      var k :| 0 <= k < |s.flows| && s.flows[k].disconnected;
      assert Brokens(s.flows)[k] == 1;
    }
    if !forall k :: 0 <= k < |s.flows| && s.flows[k].connected ==> s.flows[k].bytesRecv > 0 {
      var k :| 0 <= k < |s.flows| && s.flows[k].connected && s.flows[k].bytesRecv == 0;
      assert Silents(s.flows)[k] == 1;
    }
    forall k | 0 <= k < |s.flows| && Brokens(s.flows)[k] == 0 ensures !s.flows[k].disconnected {
    }
  }

  lemma TenPercent(m: V.PortMetrics)
    requires m.attempted > 0
    ensures V.RatioWithin(m, V.DEFAULT_DETECT) <==> 10 * m.connectFailed <= m.attempted
  {
    assert (10 * m.connectFailed) as real == 10.0 * m.connectFailed as real;
  }
}
