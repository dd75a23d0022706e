/**
 What the throughput sampler of a probe run takes down: how many samples, and of what.  A sum over the flows is no snapshot: the
 counters are loaded one after the other while the flows go on; so a sample lies between what the flows had when its sum
 began and what they have when it is over.
 */
module Sampling {
  import opened Flow
  import opened Sums
  import opened Probe
  import R = ProbeResults

  // ------------------------------------------------------------------ how many

  ghost predicate CountInv(c: Config, windingDown: bool, m: Sampler) {
    && |m.down| == |m.up| && m.t >= 1
    && match m.pc
       case Asleep => |m.down| == m.t - 1 <= c.durationSecs
       case SumDown => |m.down| == m.t - 1 < c.durationSecs
       case SumUp(_) => |m.down| == m.t - 1 < c.durationSecs
       case Pushed => |m.down| == m.t <= c.durationSecs
       case SamplerDone => |m.down| <= c.durationSecs && (|m.down| == c.durationSecs || windingDown)
  }

  lemma CountKept(c: Config, s: Probe, s': Probe)
    requires CountInv(c, s.windingDown, s.sampler) && Next(c, s, s')
    ensures CountInv(c, s'.windingDown, s'.sampler)
  {
    hide FlowStep, DogWakes, DogLooks, DogSwaps, DogPushes;
    if !SamplerStep(c, s, s') {
      SamplerRests(c, s, s');
    }
  }

  lemma SamplerRests(c: Config, s: Probe, s': Probe)
    requires Next(c, s, s')
    ensures SamplerStep(c, s, s') || s'.sampler == s.sampler
    ensures s.windingDown ==> s'.windingDown
  {
  }

  /** One sample a second: the sampler has one for each second gone by, and stops with the last second of the run, or earlier
      only if the run winds down. */
  lemma {:induction false} SamplesEverySecond(c: Config, run: seq<Probe>, k: nat)
    requires IsRun(c, run) && k < |run|
    ensures CountInv(c, run[k].windingDown, run[k].sampler)
  {
    if k == 0 {
      assert Init(c, run[0]);
    } else {
      hide IsRun, Next, CountInv;
      SamplesEverySecond(c, run, k - 1);
      R.LastStep(c, run, k);
      CountKept(c, run[k - 1], run[k]);
    }
  }

  /** The samples taken, and the one that may be under way. */
  function Reach(m: Sampler): nat { |m.down| + if m.pc == Pushed || m.pc == SamplerDone then 0 else 1 }

  lemma ReachKept(c: Config, s: Probe, s': Probe)
    requires Next(c, s, s') && s.windingDown
    ensures s'.windingDown && Reach(s'.sampler) <= Reach(s.sampler)
  {
    hide FlowStep, DogWakes, DogLooks, DogSwaps, DogPushes;
    SamplerRests(c, s, s');
  }

  /** Once the run winds down, no sample is begun but the one that the sampler is at, or asleep before. */
  lemma {:induction false} WindingStopsSampler(c: Config, run: seq<Probe>, k: nat, l: nat)
    requires IsRun(c, run) && k <= l < |run| && run[k].windingDown
    ensures run[l].windingDown && Reach(run[l].sampler) <= Reach(run[k].sampler)
    decreases l
  {
    hide IsRun, Next, Reach;
    if k < l {
      WindingStopsSampler(c, run, k, l - 1);
      R.LastStep(c, run, l);
      ReachKept(c, run[l - 1], run[l]);
    }
  }

  predicate SamplerAwaited(main: MainPc) { main == SamplerJoined || main.Aborted? || main.Finished? }

  lemma AwaitKept(c: Config, s: Probe, s': Probe)
    requires Next(c, s, s') && (SamplerAwaited(s.main) ==> s.sampler.pc == SamplerDone)
    ensures SamplerAwaited(s'.main) ==> s'.sampler.pc == SamplerDone
  {
  }

  /** The metrics are taken when the series is over. */
  lemma {:induction false} SeriesIsOver(c: Config, run: seq<Probe>, k: nat)
    requires IsRun(c, run) && k < |run|
    ensures SamplerAwaited(run[k].main) ==> run[k].sampler.pc == SamplerDone
  {
    if k == 0 {
      assert Init(c, run[0]);
    } else {
      hide IsRun, Next;
      SeriesIsOver(c, run, k - 1);
      R.LastStep(c, run, k);
      AwaitKept(c, run[k - 1], run[k]);
    }
  }

  // ------------------------------------------------------------------ of what

  predicate Summing(m: Sampler) { m.pc == SumDown || m.pc.SumUp? }

  /** The sum under way was begun in state `a`, and each counter loaded so far lies between what it was then and what it is in
      state `k`; when the first sum is over, that holds of the whole of it. */
  ghost predicate SumSince(run: seq<Probe>, a: nat, k: nat) {
    && a <= k < |run| && (forall l | a <= l <= k :: Summing(run[l].sampler))
    && run[a].sampler.pc == SumDown && run[a].sampler.current == []
    && var m, s, from := run[k].sampler, run[k], run[a];
       if m.pc == SumDown then PartialInv(m.current, Recvs(from.flows), Recvs(s.flows))
       else
         && PartialInv(m.currentDown, Recvs(from.flows), Recvs(s.flows)) && |m.currentDown| == |s.flows|
         && PartialInv(m.current, Sents(from.flows), Sents(s.flows))
  }

  ghost predicate CountersGrow(s: Probe, s': Probe) {
    Below(Recvs(s.flows), Recvs(s'.flows)) && Below(Sents(s.flows), Sents(s'.flows))
  }

  lemma FlowsGrow(c: Config, s: Probe, s': Probe)
    requires FlowsInv(c, s) && Next(c, s, s')
    ensures CountersGrow(s, s')
  {
    hide FlowInv, FlowStep, DogWakes, DogLooks, SamplerStep, MainStep;
    if n: nat, f', eff :| TaskStep(c, s, s', n, f', eff) {
      FlowKeeps(EnvOf(c, s), s.flows[n], f', eff, c.frameLen);
    } else if !DogSwaps(s, s') {
      OthersStay(c, s, s');
    }
  }

  lemma OthersStay(c: Config, s: Probe, s': Probe)
    requires || Tick(s, s') || DogWakes(c, s, s') || DogLooks(c, s, s') || DogPushes(s, s')
             || SamplerStep(c, s, s') || MainStep(c, s, s')
    ensures s'.flows == s.flows
  {
  }

  lemma SumOn(c: Config, run: seq<Probe>, a: nat, k: nat)
    requires k + 1 < |run| && SumSince(run, a, k) && SamplerStep(c, run[k], run[k + 1]) && Summing(run[k + 1].sampler)
    requires Below(Recvs(run[a].flows), Recvs(run[k].flows)) && Below(Sents(run[a].flows), Sents(run[k].flows))
    ensures SumSince(run, a, k + 1)
  {
    var s, m := run[k], run[k].sampler;
    if m.pc == SumDown && |m.current| < |s.flows| {
      ReadOne(m.current, Recvs(run[a].flows), Recvs(s.flows), s.flows[|m.current|].bytesRecv);
    } else if m.pc.SumUp? {
      ReadOne(m.current, Sents(run[a].flows), Sents(s.flows), s.flows[|m.current|].bytesSent);
    }
  }

  lemma SumWaits(run: seq<Probe>, a: nat, k: nat)
    requires k + 1 < |run| && SumSince(run, a, k) && run[k + 1].sampler == run[k].sampler && CountersGrow(run[k], run[k + 1])
    ensures SumSince(run, a, k + 1)
  {
    var m := run[k].sampler;
    if m.pc == SumDown {
      PartialKept(m.current, Recvs(run[a].flows), Recvs(run[k].flows), Recvs(run[k + 1].flows));
    } else {
      PartialKept(m.currentDown, Recvs(run[a].flows), Recvs(run[k].flows), Recvs(run[k + 1].flows));
      PartialKept(m.current, Sents(run[a].flows), Sents(run[k].flows), Sents(run[k + 1].flows));
    }
  }

  lemma {:induction false} CountersGrown(c: Config, run: seq<Probe>, a: nat, k: nat)
    requires IsRun(c, run) && a <= k < |run|
    ensures CountersGrow(run[a], run[k])
    decreases k
  {
    hide IsRun, Next, Inv, FlowsInv;
    if a < k {
      CountersGrown(c, run, a, k - 1);
      RunInv(c, run, k - 1);
      FlowsAre(c, run[k - 1]);
      R.LastStep(c, run, k);
      FlowsGrow(c, run[k - 1], run[k]);
    }
  }

  lemma FlowsAre(c: Config, s: Probe)
    requires Inv(c, s)
    ensures FlowsInv(c, s)
  {
  }

  lemma BeginsEmpty(c: Config, s: Probe, s': Probe)
    requires Next(c, s, s') && Summing(s'.sampler) && !Summing(s.sampler)
    ensures s'.sampler.pc == SumDown && s'.sampler.current == []
  {
  }

  lemma AsleepAtFirst(c: Config, run: seq<Probe>)
    requires IsRun(c, run)
    ensures run[0].sampler.pc == Asleep
  {
  }

  lemma NothingRead(run: seq<Probe>, k: nat)
    requires k < |run| && run[k].sampler.pc == SumDown && run[k].sampler.current == []
    ensures SumSince(run, k, k)
  {
  }

  lemma {:induction false} SumReads(c: Config, run: seq<Probe>, k: nat) returns (a: nat)
    requires IsRun(c, run) && k < |run| && Summing(run[k].sampler)
    ensures SumSince(run, a, k)
  {
    AsleepAtFirst(c, run);
    hide IsRun, Next, Inv, SumSince, FlowsInv, CountersGrow, SamplerStep;
    R.LastStep(c, run, k);
    if Summing(run[k - 1].sampler) {
      a := SumReads(c, run, k - 1);
      SumAhead(c, run, a, k - 1);
    } else {
      a := k;
      BeginsEmpty(c, run[k - 1], run[k]);
      NothingRead(run, k);
    }
  }

  lemma SumAhead(c: Config, run: seq<Probe>, a: nat, k: nat)
    requires IsRun(c, run) && k + 1 < |run| && SumSince(run, a, k) && Summing(run[k + 1].sampler)
    ensures SumSince(run, a, k + 1)
  {
    hide IsRun, Next, Inv, FlowsInv, SamplerStep;
    R.LastStep(c, run, k + 1);
    SamplerRests(c, run[k], run[k + 1]);
    CountersGrown(c, run, a, k);
    if SamplerStep(c, run[k], run[k + 1]) {
      SumOn(c, run, a, k);
    } else {
      CountersGrown(c, run, k, k + 1);
      SumWaits(run, a, k);
    }
  }

  lemma PushesSums(c: Config, s: Probe, s': Probe)
    requires Inv(c, s) && Next(c, s, s') && s.sampler.pc.SumUp? && s'.sampler.pc == Pushed
    ensures s'.sampler.prevDown == Total(s.sampler.currentDown) && s'.sampler.prevUp == Total(s.sampler.current)
    ensures |s.sampler.current| == |s.flows| && s'.flows == s.flows
  {
    hide Inv, SamplerInv, Next;
    SamplerRests(c, s, s');
    Sampled(c, s);
    SumIs(s);
  }

  lemma Sampled(c: Config, s: Probe)
    requires Inv(c, s)
    ensures SamplerInv(s)
  {
  }

  lemma SumIs(s: Probe)
    requires SamplerInv(s) && s.sampler.pc.SumUp?
    ensures s.sampler.pc.down == Total(s.sampler.currentDown) && s.sampler.acc == Total(s.sampler.current)
    ensures |s.sampler.current| <= |s.flows|
  {
  }

  /** A sample's totals lie between those of the flows when its sum was begun and those when it is pushed, flow by flow and so in
      all; the sum began after the sample before. */
  lemma SampleIsTaken(c: Config, run: seq<Probe>, k: nat) returns (a: nat)
    requires IsRun(c, run) && 0 < k < |run| && run[k - 1].sampler.pc.SumUp? && run[k].sampler.pc == Pushed
    ensures a < k && (forall l | a <= l < k :: Summing(run[l].sampler))
    ensures var m := run[k].sampler;
            && Total(Recvs(run[a].flows)) <= m.prevDown <= Total(Recvs(run[k].flows))
            && Total(Sents(run[a].flows)) <= m.prevUp <= Total(Sents(run[k].flows))
            && Below(Recvs(run[a].flows), run[k - 1].sampler.currentDown) && Below(run[k - 1].sampler.currentDown, Recvs(run[k].flows))
            && Below(Sents(run[a].flows), run[k - 1].sampler.current) && Below(run[k - 1].sampler.current, Sents(run[k].flows))
  {
    hide IsRun, Next, Inv;
    a := SumReads(c, run, k - 1);
    RunInv(c, run, k - 1);
    R.LastStep(c, run, k);
    PushesSums(c, run[k - 1], run[k]);
    var m := run[k - 1].sampler;
    TotalBelow(Recvs(run[a].flows), m.currentDown);
    TotalBelow(m.currentDown, Recvs(run[k].flows));
    TotalBelow(Sents(run[a].flows), m.current);
    TotalBelow(m.current, Sents(run[k].flows));
  }
}
