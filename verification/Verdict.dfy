/**
 From a port's probe metrics to a verdict.  Ratios and rates are exact reals in place of `f64`.
 */
module Verdict {
  import opened Basics

  datatype StallEvent = StallEvent(conn: nat, atMs: nat, gapMs: nat)

  /** The fields of `PortMetrics` that the verdict depends on. */
  datatype PortMetrics = PortMetrics(
    attempted: nat, connected: nat, connectFailed: nat, midstreamDisconnects: nat, flowsNoReturn: nat,
    stalls: seq<StallEvent>, bytesSent: nat, bytesRecv: nat, avgDownKbps: real, rttP95Ms: real)

  datatype DetectParams = DetectParams(
    failOnStall: bool, failOnMidstreamDisconnect: bool, failOnNoReturn: bool,
    maxConnectFailRatio: real, minThroughputKbps: real, maxRttP95Ms: real)

  const DEFAULT_DETECT := DetectParams(true, true, true, 0.10, 0.0, 0.0)

  datatype Reason =
    | NoConnection(failed: nat, attempted: nat)
    | Stalled(count: nat, worstGapMs: nat)
    | Disconnected(count: nat)
    | SentNothing
    | NoReturn(count: nat)
    | ConnectFailures(ratio: real)
    | SlowDownload
    | SlowRtt

  datatype Outcome = Pass | Fail

  datatype PortVerdict = PortVerdict(outcome: Outcome, reasons: seq<Reason>)

  ghost predicate IsWorst(stalls: seq<StallEvent>, worst: nat) {
    && (forall i :: 0 <= i < |stalls| ==> stalls[i].gapMs <= worst)
    && (exists i :: 0 <= i < |stalls| && stalls[i].gapMs == worst)
  }

  /** The share of attempts that failed to connect is within the limit, without dividing. */
  ghost predicate RatioWithin(m: PortMetrics, d: DetectParams) {
    m.connectFailed as real <= d.maxConnectFailRatio * Attempts(m)
  }

  /** What a port must show to pass, rule by rule. */
  ghost predicate Healthy(m: PortMetrics, d: DetectParams) {
    && m.connected > 0
    && (d.failOnStall ==> m.stalls == [])
    && (d.failOnMidstreamDisconnect ==> m.midstreamDisconnects == 0)
    && m.bytesSent > 0
    && (d.failOnNoReturn ==> m.flowsNoReturn == 0)
    && RatioWithin(m, d)
    && (d.minThroughputKbps > 0.0 ==> m.avgDownKbps >= d.minThroughputKbps)
    && (d.maxRttP95Ms > 0.0 ==> m.rttP95Ms <= d.maxRttP95Ms)
  }

  method WorstGap(stalls: seq<StallEvent>) returns (worst: nat)
    ensures stalls != [] ==> IsWorst(stalls, worst)
    ensures stalls == [] ==> worst == 0
  {
    worst := 0;
    ghost var at := 0;
    for i := 0 to |stalls|
      invariant i == 0 ==> worst == 0
      invariant i > 0 ==> 0 <= at < i && stalls[at].gapMs == worst
      invariant forall j :: 0 <= j < i ==> stalls[j].gapMs <= worst
    {
      if i == 0 || stalls[i].gapMs > worst {
        worst, at := stalls[i].gapMs, i;
      }
    }
  }

  /** The rules, as reasons: `r` names a rule that `m` breaks under `d`, with the right figures. */
  ghost predicate Broken(m: PortMetrics, d: DetectParams, r: Reason) {
    match r
    case NoConnection(failed, attempted) => m.connected == 0 && failed == m.connectFailed && attempted == m.attempted
    case Stalled(count, worst) => m.connected > 0 && d.failOnStall && count == |m.stalls| > 0 && IsWorst(m.stalls, worst)
    case Disconnected(count) => m.connected > 0 && d.failOnMidstreamDisconnect && count == m.midstreamDisconnects > 0
    case SentNothing => m.connected > 0 && m.bytesSent == 0
    case NoReturn(count) => m.connected > 0 && m.bytesSent > 0 && d.failOnNoReturn && count == m.flowsNoReturn > 0
    case ConnectFailures(ratio) =>
      && m.connected > 0 && !RatioWithin(m, d)
      && ratio * Attempts(m) == m.connectFailed as real
    case SlowDownload => m.connected > 0 && d.minThroughputKbps > 0.0 && m.avgDownKbps < d.minThroughputKbps
    case SlowRtt => m.connected > 0 && d.maxRttP95Ms > 0.0 && m.rttP95Ms > d.maxRttP95Ms
  }

  function Attempts(m: PortMetrics): (n: real)
    ensures n >= 1.0
  {
    if m.attempted == 0 then 1.0 else m.attempted as real
  }

  function Order(r: Reason): nat {
    match r
    case NoConnection(_, _) => 0
    case Stalled(_, _) => 1
    case Disconnected(_) => 2
    case SentNothing => 3
    case NoReturn(_) => 3
    case ConnectFailures(_) => 4
    case SlowDownload => 5
    case SlowRtt => 6
  }

  /** After the rules up to `k`, the reasons are the broken ones among them. */
  ghost predicate ReasonsUpTo(m: PortMetrics, d: DetectParams, reasons: seq<Reason>, k: nat) {
    forall r :: r in reasons <==> Broken(m, d, r) && Order(r) <= k
  }

  lemma WorstExists(stalls: seq<StallEvent>) returns (worst: nat)
    requires stalls != []
    ensures IsWorst(stalls, worst)
  {
    var last := |stalls| - 1;
    if last == 0 {
      worst := stalls[0].gapMs;
    } else {
      var w := WorstExists(stalls[..last]);
      worst := if w < stalls[last].gapMs then stalls[last].gapMs else w;
      var j :| 0 <= j < last && stalls[..last][j].gapMs == w;
      assert stalls[j].gapMs == w;
      forall i | 0 <= i < |stalls| ensures stalls[i].gapMs <= worst {
        if i < last { assert stalls[..last][i] == stalls[i]; }
      }
    }
  }

  /** A port is healthy exactly when it breaks no rule. */
  lemma HealthyIffNothingBroken(m: PortMetrics, d: DetectParams)
    ensures Healthy(m, d) <==> forall r :: !Broken(m, d, r)
  {
    if !Healthy(m, d) {
      if m.connected == 0 {
        assert Broken(m, d, NoConnection(m.connectFailed, m.attempted));
      } else if d.failOnStall && m.stalls != [] {
        var worst := WorstExists(m.stalls);
        assert Broken(m, d, Stalled(|m.stalls|, worst));
      } else if d.failOnMidstreamDisconnect && m.midstreamDisconnects > 0 {
        assert Broken(m, d, Disconnected(m.midstreamDisconnects));
      } else if m.bytesSent == 0 {
        assert Broken(m, d, SentNothing);
      } else if d.failOnNoReturn && m.flowsNoReturn > 0 {
        assert Broken(m, d, NoReturn(m.flowsNoReturn));
      } else if !RatioWithin(m, d) {
        assert Broken(m, d, ConnectFailures(m.connectFailed as real / Attempts(m)));
      } else if d.minThroughputKbps > 0.0 && m.avgDownKbps < d.minThroughputKbps {
        assert Broken(m, d, SlowDownload);
      } else {
        assert Broken(m, d, SlowRtt);
      }
    }
  }

  /** The connect-failure rule compares the same quantity the limit is stated in. */
  lemma RatioRule(m: PortMetrics, d: DetectParams, ratio: real)
    requires ratio * Attempts(m) == m.connectFailed as real
    ensures ratio <= d.maxConnectFailRatio <==> RatioWithin(m, d)
  {
    Scaled(ratio, d.maxConnectFailRatio, Attempts(m));
  }

  lemma SameRatio(m: PortMetrics, q: real, r: real)
    requires q * Attempts(m) == r * Attempts(m)
    ensures q == r
  {
    Scaled(q, r, Attempts(m));
    Scaled(r, q, Attempts(m));
  }

  /** `evaluate`: the reasons are exactly the broken rules, and a port passes exactly when it is
      healthy.  A port without a connection is given that reason alone. */
  method Evaluate(m: PortMetrics, d: DetectParams) returns (v: PortVerdict)
    ensures forall r :: r in v.reasons <==> Broken(m, d, r)
    ensures v.outcome == Pass <==> Healthy(m, d)
  {
    HealthyIffNothingBroken(m, d);
    var reasons: seq<Reason> := [];
    if m.connected == 0 {
      reasons := reasons + [NoConnection(m.connectFailed, m.attempted)];
      return PortVerdict(Fail, reasons);
    }
    reasons := StallRule(m, d);
    reasons := FlowRules(m, d, reasons);
    reasons := RatioRules(m, d, reasons);
    reasons := RateRules(m, d, reasons);
    if reasons != [] {
      assert reasons[0] in reasons;
    }
    return PortVerdict(if reasons == [] then Pass else Fail, reasons);
  }

  method StallRule(m: PortMetrics, d: DetectParams) returns (reasons: seq<Reason>)
    requires m.connected > 0
    ensures ReasonsUpTo(m, d, reasons, 1)
  {
    reasons := [];
    if d.failOnStall && m.stalls != [] {
      var worst := WorstGap(m.stalls);
      reasons := reasons + [Stalled(|m.stalls|, worst)];
    }
  }

  method FlowRules(m: PortMetrics, d: DetectParams, before: seq<Reason>) returns (reasons: seq<Reason>)
    requires m.connected > 0 && ReasonsUpTo(m, d, before, 1)
    ensures ReasonsUpTo(m, d, reasons, 3)
  {
    reasons := before;
    if d.failOnMidstreamDisconnect && m.midstreamDisconnects > 0 {
      reasons := reasons + [Disconnected(m.midstreamDisconnects)];
    }
    assert ReasonsUpTo(m, d, reasons, 2);
    if m.connected > 0 && m.bytesSent == 0 {
      reasons := reasons + [SentNothing];
    } else if d.failOnNoReturn && m.flowsNoReturn > 0 {
      reasons := reasons + [NoReturn(m.flowsNoReturn)];
    }
  }

  method RatioRules(m: PortMetrics, d: DetectParams, before: seq<Reason>) returns (reasons: seq<Reason>)
    requires m.connected > 0 && ReasonsUpTo(m, d, before, 3)
    ensures ReasonsUpTo(m, d, reasons, 4)
  {
    reasons := before;
    var ratio := m.connectFailed as real / Attempts(m);
    RatioRule(m, d, ratio);
    OnlyRatio(m, d, ratio);
    if ratio > d.maxConnectFailRatio {
      reasons := reasons + [ConnectFailures(ratio)];
    }
  }

  lemma OnlyRatio(m: PortMetrics, d: DetectParams, ratio: real)
    requires m.connected > 0 && ratio * Attempts(m) == m.connectFailed as real
    ensures forall r :: Broken(m, d, r) && Order(r) == 4 <==> !RatioWithin(m, d) && r == ConnectFailures(ratio)
  {
    forall r | Broken(m, d, r) && Order(r) == 4 ensures r == ConnectFailures(ratio) {
      SameRatio(m, r.ratio, ratio);
    }
  }

  method RateRules(m: PortMetrics, d: DetectParams, before: seq<Reason>) returns (reasons: seq<Reason>)
    requires m.connected > 0 && ReasonsUpTo(m, d, before, 4)
    ensures ReasonsUpTo(m, d, reasons, 6)
  {
    reasons := before;
    if d.minThroughputKbps > 0.0 && m.avgDownKbps < d.minThroughputKbps {
      reasons := reasons + [SlowDownload];
    }
    assert ReasonsUpTo(m, d, reasons, 5);
    if d.maxRttP95Ms > 0.0 && m.rttP95Ms > d.maxRttP95Ms {
      reasons := reasons + [SlowRtt];
    }
  }
}
