/** Round-robin selection: which server each of a series of calls gets, and how evenly. */
module RoundRobin {
  import opened Basics
  import opened Bytes

  /** The counter value selects index `j` of `n`. */
  predicate Selects(counter: nat, n: nat, j: nat)
    requires n > 0
  {
    counter % n == j
  }

  /** How often index `j` comes up when a counter runs from `start` over `k` values, modulo `n`. */
  function Hits(start: nat, k: nat, n: nat, j: nat): nat
    requires n > 0
  {
    if k == 0 then 0 else Hits(start, k - 1, n, j) + if Selects(start + k - 1, n, j) then 1 else 0
  }

  /** The steps from `start` to the next value that selects `j`. */
  function Offset(start: nat, n: nat, j: nat): (o: nat)
    requires j < n
    ensures o < n
  {
    var a := start % n;
    if j >= a then j - a else j + n - a
  }

  lemma ModStep(start: nat, n: nat, i: nat)
    requires n > 0 && i < n
    ensures (start + i) % n == if start % n + i < n then start % n + i else start % n + i - n
  {
    var q, a := start / n, start % n;
    assert start == q * n + a;
    if a + i < n {
      ModUnique(start + i, n, q, a + i);
    } else {
      assert (q + 1) * n == q * n + n;
      ModUnique(start + i, n, q + 1, a + i - n);
    }
  }

  /** Within one round each index comes up at its offset and nowhere else. */
  lemma {:induction false} WithinRound(start: nat, r: nat, n: nat, j: nat)
    requires j < n && r <= n
    ensures Hits(start, r, n, j) == if Offset(start, n, j) < r then 1 else 0
  {
    if r > 0 {
      WithinRound(start, r - 1, n, j);
      ModStep(start, n, r - 1);
    }
  }

  lemma {:induction false} HitsSplit(start: nat, k: nat, m: nat, n: nat, j: nat)
    requires n > 0
    ensures Hits(start, k + m, n, j) == Hits(start, k, n, j) + Hits(start + k, m, n, j)
  {
    if m > 0 {
      HitsSplit(start, k, m - 1, n, j);
    }
  }

  /** `hits` of `k` is a fair share for one of `n`: `k / n`, rounded down or up. */
  ghost predicate FairShare(hits: nat, k: nat, n: nat)
    requires n > 0
  {
    k / n <= hits <= (k + n - 1) / n
  }

  /** Fairness: over any `k` consecutive values each of the `n` indices comes up `k / n` times, rounded down
      or up; hence exactly once in any `n` in a row. */
  lemma {:induction false} Fair(start: nat, k: nat, n: nat, j: nat)
    requires j < n
    ensures FairShare(Hits(start, k, n, j), k, n)
    ensures k % n == 0 ==> Hits(start, k, n, j) == k / n
    decreases k
  {
    hide Hits;
    if k < n {
      WithinRound(start, k, n, j);
      DivSmall(k, n);
    } else {
      HitsSplit(start, n, k - n, n, j);
      WithinRound(start, n, n, j);
      Fair(start + n, k - n, n, j);
      DivStep(k, n);
      DivStep(k + n - 1, n);
    }
  }

  lemma DivSmall(k: nat, n: nat)
    requires k < n
    ensures k / n == 0 && k % n == k
    ensures (k + n - 1) / n == if k == 0 then 0 else 1
  {
    QuotientIs(k, n, 0);
    QuotientIs(k + n - 1, n, if k == 0 then 0 else 1);
  }

  lemma DivStep(k: nat, n: nat)
    requires 0 < n <= k
    ensures k / n == (k - n) / n + 1
    ensures k % n == (k - n) % n
  {
    var q := (k - n) / n;
    assert (q + 1) * n == q * n + n;
    QuotientIs(k, n, q + 1);
  }

  lemma QuotientIs(k: nat, n: nat, q: nat)
    requires n > 0 && q * n <= k < q * n + n
    ensures k / n == q && k % n == k - q * n
  {
    ModUnique(k, n, q, k - q * n);
    var d := k / n;
    assert d * n == q * n;
    MultipleAway(n, d - q);
    assert (d - q) * n == d * n - q * n;
  }

  // ------------------------------------------------------------------ in terms of the servers picked

  /** The entry that a counter value selects. */
  function PickAt<T>(servers: seq<T>, counter: nat): T
    requires servers != []
  {
    servers[counter % |servers|]
  }

  /** The servers that `k` consecutive selections return, for counter values that do not wrap. */
  function Picks<T>(servers: seq<T>, start: nat, k: nat): (p: seq<T>)
    requires servers != []
    ensures |p| == k
    ensures forall i :: 0 <= i < k ==> p[i] == PickAt(servers, start + i)
  {
    if k == 0 then [] else Picks(servers, start, k - 1) + [PickAt(servers, start + k - 1)]
  }

  lemma PickIs<T>(servers: seq<T>, m: nat, j: nat)
    requires Distinct(servers) && j < |servers|
    ensures PickAt(servers, m) == servers[j] <==> Selects(m, |servers|, j)
  {
  }

  lemma CountSnoc<T>(s: seq<T>, x: T, y: T)
    ensures multiset(s + [x])[y] == multiset(s)[y] + if x == y then 1 else 0
  {
  }

  /** One more value, one more pick. */
  lemma OneMore<T>(servers: seq<T>, start: nat, k: nat, j: nat)
    requires servers != []
    ensures k == 0 ==> Picks(servers, start, k) == [] && Hits(start, k, |servers|, j) == 0
    ensures k > 0 ==> Picks(servers, start, k) == Picks(servers, start, k - 1) + [PickAt(servers, start + k - 1)]
    ensures k > 0 ==>
              Hits(start, k, |servers|, j) == Hits(start, k - 1, |servers|, j) + if Selects(start + k - 1, |servers|, j) then 1 else 0
  {
    hide PickAt, Selects;
  }

  lemma {:induction false} PicksAreHits<T>(servers: seq<T>, start: nat, k: nat, j: nat)
    requires Distinct(servers) && j < |servers|
    ensures multiset(Picks(servers, start, k))[servers[j]] == Hits(start, k, |servers|, j)
  {
    hide Distinct, PickAt, Selects, Picks, Hits;
    OneMore(servers, start, k, j);
    if k > 0 {
      PicksAreHits(servers, start, k - 1, j);
      PickIs(servers, start + k - 1, j);
      CountSnoc(Picks(servers, start, k - 1), PickAt(servers, start + k - 1), servers[j]);
    }
  }

  lemma OneRound(k: nat)
    ensures k > 0 ==> k / k == 1 && k % k == 0
  {
    if k > 0 {
      QuotientIs(k, k, 1);
    }
  }

  /** Among any `k` consecutive selections each server is picked `k / n` times, rounded down or up. */
  lemma FairPicks<T>(servers: seq<T>, start: nat, k: nat, j: nat)
    requires Distinct(servers) && j < |servers|
    ensures var n := |servers|; var hits := multiset(Picks(servers, start, k))[servers[j]];
            && FairShare(hits, k, n)
            && (k == n ==> hits == 1)
  {
    hide Distinct, Picks, Hits, FairShare;
    PicksAreHits(servers, start, k, j);
    Fair(start, k, |servers|, j);
    OneRound(k);
  }

  // ------------------------------------------------------------------ the 64-bit counter

  const WRAP: nat := 0x1_0000_0000_0000_0000

  /** The rotation goes on undisturbed when the counter wraps exactly when the number of servers divides 2^64. */
  lemma WrapKeepsRotationIff(n: nat)
    requires n > 0
    ensures (forall x: nat :: (x % WRAP) % n == x % n) <==> WRAP % n == 0
  {
    if forall x: nat :: (x % WRAP) % n == x % n {
      assert (WRAP % WRAP) % n == WRAP % n;
      assert 0 % n == 0;
    }
    if WRAP % n == 0 {
      forall x: nat ensures (x % WRAP) % n == x % n {
        DividesWrap(x, n);
      }
    }
  }

  lemma DividesWrap(x: nat, n: nat)
    requires n > 0 && WRAP % n == 0
    ensures (x % WRAP) % n == x % n
  {
    var q, r, m := x / WRAP, x % WRAP, WRAP / n;
    var q', r' := r / n, r % n;
    assert x == WRAP * q + r && WRAP == n * m && r == n * q' + r';
    assert x == (q * m + q') * n + r' by {
      assert WRAP * q == (n * m) * q == (q * m) * n;
      assert (q * m + q') * n == (q * m) * n + q' * n;
    }
    ModUnique(x, n, q * m + q', r');
  }
}
