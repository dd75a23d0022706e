/**
 The hysteresis of a server's health: two counters and a flag, driven by connection outcomes and by health checks,
 against what they mean in terms of the whole history of outcomes.
 */
module Health {

  datatype Thresholds = Thresholds(failure: nat, recovery: nat)

  datatype Counters = Counters(healthy: bool, failures: nat, successes: nat)

  const FRESH := Counters(true, 0, 0)

  /** One outcome, good or bad: `mark_connection_success` and `mark_connection_failed`. */
  function Observe(t: Thresholds, c: Counters, ok: bool): Counters {
    if ok then
      Counters(c.healthy || c.successes + 1 >= t.recovery, 0, c.successes + 1)
    else
      Counters(c.healthy && c.failures + 1 < t.failure, c.failures + 1, 0)
  }

  function ObserveAll(t: Thresholds, h: seq<bool>): Counters {
    if h == [] then FRESH else Observe(t, ObserveAll(t, h[..|h| - 1]), h[|h| - 1])
  }

  // ------------------------------------------------------------------ in terms of the history

  /** The last `n` outcomes are all `ok`. */
  ghost predicate EndsWith(h: seq<bool>, ok: bool, n: nat) {
    n <= |h| && forall i :: |h| - n <= i < |h| ==> h[i] == ok
  }

  /** `n` is the length of the run of `ok` that the history ends with. */
  ghost predicate TrailingRun(h: seq<bool>, ok: bool, n: nat) {
    EndsWith(h, ok, n) && (n < |h| ==> h[|h| - 1 - n] != ok)
  }

  /** With the `k`-th outcome a run of failures reached the failure threshold, or went on beyond it. */
  ghost predicate DownAt(t: Thresholds, h: seq<bool>, k: nat) {
    1 <= k <= |h| && !h[k - 1] && EndsWith(h[..k], false, t.failure)
  }

  ghost predicate UpAt(t: Thresholds, h: seq<bool>, k: nat) {
    1 <= k <= |h| && h[k - 1] && EndsWith(h[..k], true, t.recovery)
  }

  /** Every run of failures that reached its threshold was followed by a run of successes that reached its own. */
  ghost predicate HealthyBy(t: Thresholds, h: seq<bool>) {
    forall d: nat :: DownAt(t, h, d) ==> exists u: nat :: d < u && UpAt(t, h, u)
  }

  lemma RunGrows(h: seq<bool>, ok: bool, n: nat)
    requires TrailingRun(h, ok, n)
    ensures TrailingRun(h + [ok], ok, n + 1)
    ensures TrailingRun(h + [!ok], ok, 0)
  {
    var g := h + [ok];
    assert forall i :: 0 <= i < |h| ==> g[i] == h[i];
  }

  /** A run is at least `n` long exactly when the history ends with `n` of its kind. */
  lemma RunReaches(h: seq<bool>, ok: bool, n: nat, m: nat)
    requires TrailingRun(h, ok, n)
    ensures EndsWith(h, ok, m) <==> m <= n
  {
    if m > n && m <= |h| {
      assert h[|h| - 1 - n] != ok;
    }
  }

  lemma EventsKept(t: Thresholds, h: seq<bool>, ok: bool, k: nat)
    requires k <= |h|
    ensures DownAt(t, h + [ok], k) <==> DownAt(t, h, k)
    ensures UpAt(t, h + [ok], k) <==> UpAt(t, h, k)
  {
    if k >= 1 {
      assert (h + [ok])[..k] == h[..k];
    }
  }

  /** How the history predicate moves with one more outcome. */
  lemma HealthyByGrows(t: Thresholds, h: seq<bool>, ok: bool)
    ensures var g := h + [ok];
            HealthyBy(t, g) <==>
              if ok then HealthyBy(t, h) || UpAt(t, g, |g|) else HealthyBy(t, h) && !DownAt(t, g, |g|)
  {
    var g := h + [ok];
    forall k: nat | k <= |h|
      ensures (DownAt(t, g, k) <==> DownAt(t, h, k)) && (UpAt(t, g, k) <==> UpAt(t, h, k))
    {
      EventsKept(t, h, ok, k);
    }
    if ok {
      HealthyBySuccess(t, h, g);
    } else {
      HealthyByFailure(t, h, g);
    }
  }

  ghost predicate SameEvents(t: Thresholds, h: seq<bool>, g: seq<bool>) {
    forall k: nat :: k <= |h| ==> (DownAt(t, g, k) <==> DownAt(t, h, k)) && (UpAt(t, g, k) <==> UpAt(t, h, k))
  }

  lemma HealthyBySuccess(t: Thresholds, h: seq<bool>, g: seq<bool>)
    requires g == h + [true] && SameEvents(t, h, g)
    ensures HealthyBy(t, g) <==> HealthyBy(t, h) || UpAt(t, g, |g|)
  {
    assert !DownAt(t, g, |g|);
    if HealthyBy(t, g) && !UpAt(t, g, |g|) {
      forall d: nat | DownAt(t, h, d) ensures exists u: nat :: d < u && UpAt(t, h, u) {
        assert DownAt(t, g, d);
        var u: nat :| d < u && UpAt(t, g, u);
        assert u != |g| && UpAt(t, h, u);
      }
    }
    if UpAt(t, g, |g|) {
      forall d: nat | DownAt(t, g, d) ensures exists u: nat :: d < u && UpAt(t, g, u) {
        assert d < |g|;
      }
    } else if HealthyBy(t, h) {
      forall d: nat | DownAt(t, g, d) ensures exists u: nat :: d < u && UpAt(t, g, u) {
        assert DownAt(t, h, d);
        var u: nat :| d < u && UpAt(t, h, u);
        assert UpAt(t, g, u);
      }
    }
  }

  lemma HealthyByFailure(t: Thresholds, h: seq<bool>, g: seq<bool>)
    requires g == h + [false] && SameEvents(t, h, g)
    ensures HealthyBy(t, g) <==> HealthyBy(t, h) && !DownAt(t, g, |g|)
  {
    assert !UpAt(t, g, |g|);
    if HealthyBy(t, g) {
      forall d: nat | DownAt(t, h, d) ensures exists u: nat :: d < u && UpAt(t, h, u) {
        assert DownAt(t, g, d);
        var u: nat :| d < u && UpAt(t, g, u);
        assert u != |g| && UpAt(t, h, u);
      }
      assert forall u: nat :: UpAt(t, g, u) ==> u <= |g|;
    }
    if HealthyBy(t, h) && !DownAt(t, g, |g|) {
      forall d: nat | DownAt(t, g, d) ensures exists u: nat :: d < u && UpAt(t, g, u) {
        assert d != |g| && DownAt(t, h, d);
        var u: nat :| d < u && UpAt(t, h, u);
        assert UpAt(t, g, u);
      }
    }
  }

  /** After any history of outcomes, from whatever sources: the counters are the lengths of the runs the
      history ends with, at most one of them is not zero, and the server is healthy exactly when every
      failure run that reached the threshold has been made good by a success run that reached its own. */
  lemma {:induction false} HysteresisRefinesHistory(t: Thresholds, h: seq<bool>)
    ensures var c := ObserveAll(t, h);
            && TrailingRun(h, false, c.failures) && TrailingRun(h, true, c.successes)
            && (c.failures == 0 || c.successes == 0)
            && (c.healthy <==> HealthyBy(t, h))
  {
    if h != [] {
      var g, ok := h[..|h| - 1], h[|h| - 1];
      assert h == g + [ok];
      HysteresisRefinesHistory(t, g);
      var c := ObserveAll(t, g);
      if ok {
        RunGrows(g, true, c.successes);
        RunGrows(g, false, c.failures);
        RunReaches(h, true, c.successes + 1, t.recovery);
      } else {
        RunGrows(g, false, c.failures);
        RunGrows(g, true, c.successes);
        RunReaches(h, false, c.failures + 1, t.failure);
      }
      assert h[..|h|] == h;
      HealthyByGrows(t, g, ok);
    }
  }
}
