/**
 The client's pool of servers: health bookkeeping, selection, and the count of connections, with the calls that drive them.
 A call that changes a server's health has its entry to itself; the counts of connections are atomics under a
 shared guard, and each add to one is a step of its own.  So an interleaving of callers is a sequence of the methods below.
 */
module ServerPool {
  import opened Basics
  import opened Bytes
  import opened Health
  import opened RoundRobin

  type Address = nat

  datatype Option<T> = None | Some(value: T)

  const U32: int := 0x1_0000_0000

  datatype ServerInfo = ServerInfo(counters: Counters, active: u32, total: u64)

  datatype Strategy = RoundRobinly | Randomly | ByLeastConnections | ByHash

  // ------------------------------------------------------------------ flows, for the account of connections

  /** A connection between `mark_connection_start` and its end; `Left` is one that went off by an error
      exit, past its `mark_connection_end`. */
  datatype FlowStatus = Running | Closed | Left
  datatype FlowRecord = FlowRecord(address: Address, status: FlowStatus)

  function StartsOf(flows: seq<FlowRecord>, a: Address): nat {
    if flows == [] then 0
    else StartsOf(flows[..|flows| - 1], a) + if flows[|flows| - 1].address == a then 1 else 0
  }

  function OpenOf(flows: seq<FlowRecord>, a: Address): nat {
    if flows == [] then 0
    else
      var last := flows[|flows| - 1];
      OpenOf(flows[..|flows| - 1], a) + if last.address == a && last.status != Closed then 1 else 0
  }

  lemma StartSnoc(flows: seq<FlowRecord>, a: Address, f: FlowRecord)
    ensures StartsOf(flows + [f], a) == StartsOf(flows, a) + if f.address == a then 1 else 0
    ensures OpenOf(flows + [f], a) == OpenOf(flows, a) + if f.address == a && f.status != Closed then 1 else 0
  {
    assert (flows + [f])[..|flows|] == flows;
  }

  /** A running flow changes its status. */
  lemma {:induction false} StatusChange(flows: seq<FlowRecord>, i: nat, status: FlowStatus, a: Address)
    requires i < |flows| && flows[i].status == Running
    ensures var flows' := flows[i := flows[i].(status := status)];
            && StartsOf(flows', a) == StartsOf(flows, a)
            && OpenOf(flows', a) + (if flows[i].address == a && status == Closed then 1 else 0) == OpenOf(flows, a)
  {
    var last := |flows| - 1;
    var flows' := flows[i := flows[i].(status := status)];
    if i < last {
      StatusChange(flows[..last], i, status, a);
      assert flows'[..last] == flows[..last][i := flows[i].(status := status)];
    } else {
      assert flows'[..last] == flows[..last];
    }
  }

  ghost predicate RunningAt(flows: seq<FlowRecord>, flow: nat, a: Address) {
    flow < |flows| && flows[flow] == FlowRecord(a, Running)
  }

  lemma {:induction false} OpenWithinStarts(flows: seq<FlowRecord>, a: Address)
    ensures OpenOf(flows, a) <= StartsOf(flows, a) <= |flows|
  {
    if flows != [] {
      OpenWithinStarts(flows[..|flows| - 1], a);
    }
  }

  /** The connections that have ended. */
  function ClosedOf(flows: seq<FlowRecord>, a: Address): nat {
    if flows == [] then 0
    else
      var last := flows[|flows| - 1];
      ClosedOf(flows[..|flows| - 1], a) + if last.address == a && last.status == Closed then 1 else 0
  }

  lemma {:induction false} OpenAndClosed(flows: seq<FlowRecord>, a: Address)
    ensures OpenOf(flows, a) + ClosedOf(flows, a) == StartsOf(flows, a) <= |flows|
  {
    if flows != [] {
      OpenAndClosed(flows[..|flows| - 1], a);
    }
  }

  lemma {:induction false} RunningIsOpen(flows: seq<FlowRecord>, i: nat)
    requires i < |flows| && flows[i].status == Running
    ensures OpenOf(flows, flows[i].address) >= 1
  {
    if i < |flows| - 1 {
      RunningIsOpen(flows[..|flows| - 1], i);
    }
  }

  // ------------------------------------------------------------------ the calls, as a log

  datatype PoolEvent =
    | Started(address: Address, caller: nat)
    | Succeeded(address: Address, caller: nat)
    | FailedAt(address: Address, caller: nat)

  /** What one caller has recorded. */
  function ByCaller(log: seq<PoolEvent>, caller: nat): seq<PoolEvent> {
    if log == [] then []
    else
      var last := log[|log| - 1];
      ByCaller(log[..|log| - 1], caller) + if last.caller == caller then [last] else []
  }

  lemma ByCallerSnoc(log: seq<PoolEvent>, e: PoolEvent, caller: nat)
    ensures ByCaller(log + [e], caller) == ByCaller(log, caller) + if e.caller == caller then [e] else []
  {
    assert (log + [e])[..|log|] == log;
  }

  // ------------------------------------------------------------------ what the pool keeps true

  type Servers = map<Address, ServerInfo>
  type History = map<Address, seq<bool>>

  /** The counters of every server are what its outcomes make them. */
  ghost predicate HealthInv(t: Thresholds, servers: Servers, history: History) {
    history.Keys == servers.Keys && forall a :: a in servers ==> servers[a].counters == ObserveAll(t, history[a])
  }

  /** The 32-bit count of active connections and the 64-bit total, exact while nothing has overflowed; the total lacks
      the starts that stand between their two adds. */
  ghost predicate Accounted(info: ServerInfo, flows: seq<FlowRecord>, half: nat, a: Address) {
    && info.active == OpenOf(flows, a) % U32
    && half <= StartsOf(flows, a) && info.total == (StartsOf(flows, a) - half) % WRAP
  }

  ghost predicate AccountInv(servers: Servers, flows: seq<FlowRecord>, half: multiset<Address>) {
    forall a :: a in servers ==> Accounted(servers[a], flows, half[a], a)
  }

  ghost predicate OrderInv(order: seq<Address>, servers: Servers) {
    Distinct(order) && (forall a :: a in order ==> a in servers) && (forall a :: a in servers ==> a in order)
  }

  /** A round-robin selection: the list it was made from, the counter's value, and the server picked. */
  datatype Selection = Selection(healthy: seq<Address>, counter: u64, picked: Address)

  ghost predicate Turn(s: Selection, i: nat) {
    && Distinct(s.healthy) && s.healthy != [] && s.counter == i % WRAP
    && s.picked == PickAt(s.healthy, s.counter)
  }

  /** The selections took the counter's values one after the other, each the entry of its list that its value names. */
  ghost predicate SelectionInv(selections: seq<Selection>, roundRobin: u64) {
    && roundRobin == |selections| % WRAP
    && forall i :: 0 <= i < |selections| ==> Turn(selections[i], i)
  }

  function Picked(selections: seq<Selection>): (p: seq<Address>)
    ensures |p| == |selections| && forall i :: 0 <= i < |p| ==> p[i] == selections[i].picked
  {
    if selections == [] then [] else Picked(selections[..|selections| - 1]) + [selections[|selections| - 1].picked]
  }

  /** A selection of any kind: who asked, the servers as they stood then, the counter's value, and the server picked. */
  datatype Pick = Pick(caller: nat, servers: Servers, counter: u64, picked: Address)

  /** The server picked was healthy when it was, and the one that the strategy takes of those that were. */
  ghost predicate WellPicked(order: seq<Address>, strategy: Strategy, p: Pick) {
    && p.picked in p.servers && p.servers[p.picked].counters.healthy
    && var healthy := HealthyIn(order, p.servers);
       && p.picked in healthy
       && (strategy == RoundRobinly ==> p.picked == PickAt(healthy, p.counter))
       && (strategy == ByLeastConnections ==> IsFirstLeast(healthy, p.servers, p.picked))
  }

  ghost predicate PickInv(order: seq<Address>, strategy: Strategy, picks: seq<Pick>) {
    forall i :: 0 <= i < |picks| ==> WellPicked(order, strategy, picks[i])
  }

  lemma IsWellPicked(order: seq<Address>, strategy: Strategy, p: Pick)
    requires p.picked in p.servers && p.servers[p.picked].counters.healthy && p.picked in HealthyIn(order, p.servers)
    requires strategy == RoundRobinly ==> p.picked == PickAt(HealthyIn(order, p.servers), p.counter)
    requires strategy == ByLeastConnections ==> IsFirstLeast(HealthyIn(order, p.servers), p.servers, p.picked)
    ensures WellPicked(order, strategy, p)
  {
    hide HealthyIn, PickAt, IsFirstLeast;
  }

  lemma OnePickMore(order: seq<Address>, strategy: Strategy, picks: seq<Pick>, p: Pick)
    requires PickInv(order, strategy, picks) && WellPicked(order, strategy, p)
    ensures PickInv(order, strategy, picks + [p])
  {
    hide WellPicked;
  }

  /** What one caller was given. */
  function PicksOf(picks: seq<Pick>, caller: nat): seq<Pick> {
    if picks == [] then []
    else
      var last := picks[|picks| - 1];
      PicksOf(picks[..|picks| - 1], caller) + if last.caller == caller then [last] else []
  }

  lemma PicksSnoc(picks: seq<Pick>, p: Pick, caller: nat)
    ensures PicksOf(picks + [p], caller) == PicksOf(picks, caller) + if p.caller == caller then [p] else []
  {
    assert (picks + [p])[..|picks|] == picks;
  }

  /** The rotation over `list` is not broken by the counter's wrap within these `k` values. */
  ghost predicate Unbroken(from: nat, k: nat, n: nat)
    requires n > 0
  {
    from % WRAP + k <= WRAP || WRAP % n == 0
  }

  lemma WrapStep(from: nat, i: nat)
    requires from % WRAP + i < WRAP
    ensures (from + i) % WRAP == from % WRAP + i
  {
    ModUnique(from + i, WRAP, from / WRAP, from % WRAP + i);
  }

  /** Where the rotation that `k` selections from the `from`th on follow begins. */
  function RotationStart(from: nat, k: nat): nat { if from % WRAP + k <= WRAP then from % WRAP else from }

  lemma TurnIsPick(s: Selection, from: nat, i: nat, k: nat)
    requires i < k && Turn(s, from + i) && Unbroken(from, k, |s.healthy|)
    ensures s.picked == PickAt(s.healthy, RotationStart(from, k) + i)
  {
    if from % WRAP + k <= WRAP {
      WrapStep(from, i);
    } else {
      DividesWrap(from + i, |s.healthy|);
    }
  }

  ghost predicate Follows(selections: seq<Selection>, list: seq<Address>, from: nat, start: nat, i: nat)
    requires from + i < |selections| && list != []
  {
    selections[from + i].picked == PickAt(list, start + i)
  }

  lemma {:induction false} WindowIsPicks(selections: seq<Selection>, list: seq<Address>, from: nat, start: nat, k: nat)
    requires from + k <= |selections| && list != []
    requires forall i | 0 <= i < k :: Follows(selections, list, from, start, i)
    ensures Picked(selections[from..from + k]) == Picks(list, start, k)
  {
    hide PickAt;
    if k > 0 {
      WindowIsPicks(selections, list, from, start, k - 1);
      assert selections[from..from + k][..k - 1] == selections[from..from + k - 1];
      assert Follows(selections, list, from, start, k - 1);
    }
  }

  lemma SelectionFollows(selections: seq<Selection>, roundRobin: u64, list: seq<Address>, from: nat, k: nat, i: nat)
    requires SelectionInv(selections, roundRobin) && from + k <= |selections| && list != [] && i < k
    requires selections[from + i].healthy == list && Unbroken(from, k, |list|)
    ensures Follows(selections, list, from, RotationStart(from, k), i)
  {
    hide PickAt, Unbroken, RotationStart;
    assert Turn(selections[from + i], from + i);
    TurnIsPick(selections[from + i], from, i, k);
  }

  /** The first occurrences: the keys of a map that takes the addresses in one after the other. */
  function Firsts(addresses: seq<Address>): (r: seq<Address>)
    ensures Distinct(r) && forall a :: a in r <==> a in addresses
  {
    if addresses == [] then []
    else
      var rest, last := Firsts(addresses[..|addresses| - 1]), addresses[|addresses| - 1];
      if last in rest then rest else rest + [last]
  }

  function Observed(t: Thresholds, servers: Servers, a: Address, ok: bool): Servers {
    if a in servers then servers[a := servers[a].(counters := Observe(t, servers[a].counters, ok))] else servers
  }

  function Noted(history: History, a: Address, ok: bool): History {
    if a in history then history[a := history[a] + [ok]] else history
  }

  /** A server's counts of connections change, and nothing of its health. */
  lemma CountsOnly(t: Thresholds, order: seq<Address>, servers: Servers, history: History, a: Address, info: ServerInfo)
    requires OrderInv(order, servers) && HealthInv(t, servers, history)
    requires a in servers && info.counters == servers[a].counters
    ensures OrderInv(order, servers[a := info]) && HealthInv(t, servers[a := info], history)
  {
  }

  lemma ObservedAccount(t: Thresholds, servers: Servers, flows: seq<FlowRecord>, half: multiset<Address>, a: Address, ok: bool)
    requires AccountInv(servers, flows, half)
    ensures AccountInv(Observed(t, servers, a, ok), flows, half)
  {
    hide Observe;
  }

  lemma ObservedKeeps(t: Thresholds, order: seq<Address>, servers: Servers, history: History, flows: seq<FlowRecord>,
                      half: multiset<Address>, a: Address, ok: bool)
    requires OrderInv(order, servers) && HealthInv(t, servers, history)
    ensures OrderInv(order, Observed(t, servers, a, ok))
    ensures HealthInv(t, Observed(t, servers, a, ok), Noted(history, a, ok))
    ensures AccountInv(servers, flows, half) ==> AccountInv(Observed(t, servers, a, ok), flows, half)
  {
    hide AccountInv, Observe;
    if AccountInv(servers, flows, half) {
      ObservedAccount(t, servers, flows, half, a, ok);
    }
    if a in servers {
      assert (history[a] + [ok])[..|history[a]|] == history[a];
    }
  }

  lemma Wraps(n: nat)
    ensures (n % U32 + 1) % U32 == (n + 1) % U32
    ensures (n % WRAP + 1) % WRAP == (n + 1) % WRAP
    ensures n >= 1 ==> (n % U32 - 1) % U32 == (n - 1) % U32
  {
    WrapsUp(n);
    WrapsFar(n);
    if n >= 1 {
      WrapsUp(n - 1);
    }
  }

  lemma WrapsUp(n: nat)
    ensures (n % U32 + 1) % U32 == (n + 1) % U32
  {
  }

  lemma WrapsFar(n: nat)
    ensures (n % WRAP + 1) % WRAP == (n + 1) % WRAP
  {
  }

  lemma WordBelowWrap(n: u64)
    ensures n % WRAP == n
  {
  }

  lemma BelowWrap(n: nat)
    requires n < U32
    ensures n % U32 == n && n % WRAP == n
  {
  }

  /** The first add of a start: one more connection is open, and one more start is between its adds. */
  lemma StartKeeps(servers: Servers, flows: seq<FlowRecord>, half: multiset<Address>, a: Address)
    requires AccountInv(servers, flows, half) && a in servers
    ensures AccountInv(servers[a := servers[a].(active := (servers[a].active + 1) % U32)],
                       flows + [FlowRecord(a, Running)], half + multiset{a})
  {
    var servers' := servers[a := servers[a].(active := (servers[a].active + 1) % U32)];
    forall b | b in servers' ensures Accounted(servers'[b], flows + [FlowRecord(a, Running)], (half + multiset{a})[b], b) {
      StartSnoc(flows, b, FlowRecord(a, Running));
      WrapsUp(OpenOf(flows, b));
    }
  }

  /** The second. */
  lemma FinishKeeps(servers: Servers, flows: seq<FlowRecord>, half: multiset<Address>, a: Address)
    requires AccountInv(servers, flows, half) && a in servers && a in half
    ensures AccountInv(servers[a := servers[a].(total := (servers[a].total + 1) % WRAP)], flows, half - multiset{a})
  {
    var servers' := servers[a := servers[a].(total := (servers[a].total + 1) % WRAP)];
    forall b | b in servers' ensures Accounted(servers'[b], flows, (half - multiset{a})[b], b) {
      if b == a {
        WrapsFar(StartsOf(flows, a) - half[a]);
      }
    }
  }

  lemma EndKeeps(servers: Servers, flows: seq<FlowRecord>, half: multiset<Address>, a: Address, flow: nat)
    requires AccountInv(servers, flows, half) && a in servers && flow < |flows| && flows[flow] == FlowRecord(a, Running)
    ensures AccountInv(servers[a := servers[a].(active := (servers[a].active - 1) % U32)],
                       flows[flow := FlowRecord(a, Closed)], half)
    ensures |flows| < U32 ==> servers[a].active >= 1 && (servers[a].active - 1) % U32 == servers[a].active - 1
  {
    var servers' := servers[a := servers[a].(active := (servers[a].active - 1) % U32)];
    forall b | b in servers' ensures Accounted(servers'[b], flows[flow := FlowRecord(a, Closed)], half[b], b) {
      StatusChange(flows, flow, Closed, b);
      Wraps(OpenOf(flows, b));
    }
    assert Accounted(servers[a], flows, half[a], a);
    hide AccountInv;
    RunningIsOpen(flows, flow);
    OpenWithinStarts(flows, a);
    if |flows| < U32 {
      NoWrapDown(OpenOf(flows, a));
    }
  }

  lemma NoWrapDown(n: nat)
    requires 1 <= n < U32
    ensures n % U32 == n >= 1 && (n - 1) % U32 == n - 1
  {
  }

  lemma LeaveKeeps(servers: Servers, flows: seq<FlowRecord>, half: multiset<Address>, flow: nat)
    requires AccountInv(servers, flows, half) && flow < |flows| && flows[flow].status == Running
    ensures AccountInv(servers, flows[flow := flows[flow].(status := Left)], half)
  {
    forall b | b in servers ensures Accounted(servers[b], flows[flow := flows[flow].(status := Left)], half[b], b) {
      StatusChange(flows, flow, Left, b);
    }
  }

  // ------------------------------------------------------------------ the pool

  /** The pool's state as a value. */
  datatype World = World(log: seq<PoolEvent>, picks: seq<Pick>, flows: seq<FlowRecord>, servers: Servers, history: History,
                         counter: u64, valid: bool)

  class ServerPool {
    const thresholds: Thresholds
    const strategy: Strategy
    const order: seq<Address>             // the order in which the map is walked
    var servers: Servers
    var roundRobin: u64
    ghost var history: History            // every outcome observed, per address
    ghost var flows: seq<FlowRecord>      // every connection started
    ghost var log: seq<PoolEvent>         // every call that marks a connection start or outcome
    ghost var half: multiset<Address>     // the starts that stand between their two adds
    ghost var selections: seq<Selection>  // every round-robin selection
    ghost var picks: seq<Pick>            // every selection that found a server

    /** All but the account of connections. */
    ghost predicate Sound() reads this {
      && OrderInv(order, servers) && HealthInv(thresholds, servers, history) && SelectionInv(selections, roundRobin)
      && PickInv(order, strategy, picks)
    }

    ghost predicate Valid() reads this { Sound() && AccountInv(servers, flows, half) }

    ghost function Now(): World reads this { World(log, picks, flows, servers, history, roundRobin, Valid()) }

    constructor (addresses: seq<Address>, thresholds: Thresholds, strategy: Strategy)
      ensures Valid() && order == Firsts(addresses) && this.thresholds == thresholds && this.strategy == strategy
      ensures flows == [] && log == [] && selections == [] && picks == [] && half == multiset{} && roundRobin == 0
      ensures forall a :: a in addresses <==> a in servers
      ensures forall a :: a in addresses ==> history[a] == [] && servers[a].counters.healthy
    {
      this.thresholds := thresholds;
      this.strategy := strategy;
      order := Firsts(addresses);
      selections := [];
      picks := [];
      half := multiset{};
      servers := map a | a in addresses :: ServerInfo(FRESH, 0, 0);
      roundRobin := 0;
      history := map a | a in addresses :: [];
      flows := [];
      log := [];
    }

    // ---------------------------------------------------------------- health

    /** `mark_connection_failed`. */
    method MarkConnectionFailed(address: Address, ghost caller: nat)
      requires Sound()
      modifies this`servers, this`history, this`log
      ensures Sound() && (old(Valid()) ==> Valid()) && log == old(log) + [FailedAt(address, caller)]
      ensures servers == Observed(thresholds, old(servers), address, false)
      ensures history == Noted(old(history), address, false)
    {
      hide HealthInv, AccountInv, OrderInv, SelectionInv, PickInv;
      ObservedKeeps(thresholds, order, servers, history, flows, half, address, false);
      log := log + [FailedAt(address, caller)];
      history := Noted(history, address, false);
      if address in servers {
        var c := servers[address].counters;
        c := c.(failures := c.failures + 1, successes := 0);
        if c.failures >= thresholds.failure {
          c := c.(healthy := false);
        }
        servers := servers[address := servers[address].(counters := c)];
      }
    }

    /** `mark_connection_success`. */
    method MarkConnectionSuccess(address: Address, ghost caller: nat)
      requires Sound()
      modifies this`servers, this`history, this`log
      ensures Sound() && (old(Valid()) ==> Valid()) && log == old(log) + [Succeeded(address, caller)]
      ensures servers == Observed(thresholds, old(servers), address, true)
      ensures history == Noted(old(history), address, true)
    {
      hide HealthInv, AccountInv, OrderInv, SelectionInv, PickInv;
      ObservedKeeps(thresholds, order, servers, history, flows, half, address, true);
      log := log + [Succeeded(address, caller)];
      history := Noted(history, address, true);
      if address in servers {
        var c := servers[address].counters;
        c := c.(successes := c.successes + 1, failures := 0);
        if !c.healthy && c.successes >= thresholds.recovery {
          c := c.(healthy := true);
        }
        servers := servers[address := servers[address].(counters := c)];
      }
    }

    /** The update at the end of a health check, written out a second time in the health checker. */
    method HealthCheckResult(address: Address, ok: bool)
      requires Sound()
      modifies this`servers, this`history
      ensures Sound() && (old(Valid()) ==> Valid())
      ensures servers == Observed(thresholds, old(servers), address, ok)
      ensures history == Noted(old(history), address, ok)
    {
      hide HealthInv, AccountInv, OrderInv, SelectionInv, PickInv;
      ObservedKeeps(thresholds, order, servers, history, flows, half, address, ok);
      history := Noted(history, address, ok);
      if address in servers {
        var c := servers[address].counters;
        if ok {
          c := c.(successes := c.successes + 1, failures := 0);
          if !c.healthy && c.successes >= thresholds.recovery {
            c := c.(healthy := true);
          }
        } else {
          c := c.(failures := c.failures + 1, successes := 0);
          if c.healthy && c.failures >= thresholds.failure {
            c := c.(healthy := false);
          }
        }
        servers := servers[address := servers[address].(counters := c)];
      }
    }

    /** In terms of all outcomes a server has seen, from connections and health checks in any interleaving. */
    lemma HealthIsHistory(a: Address)
      requires Sound() && a in servers
      ensures servers[a].counters.healthy <==> HealthyBy(thresholds, history[a])
      ensures TrailingRun(history[a], false, servers[a].counters.failures)
      ensures TrailingRun(history[a], true, servers[a].counters.successes)
    {
      HysteresisRefinesHistory(thresholds, history[a]);
    }

    // ---------------------------------------------------------------- connections

    /** The first add of `mark_connection_start`, to `active_connections`; the flow it starts is the last of `flows`
        from then on. */
    method BeginStart(address: Address, ghost caller: nat)
      requires Sound()
      modifies this`servers, this`flows, this`log, this`half
      ensures Sound() && (old(Valid()) ==> Valid()) && log == old(log) + [Started(address, caller)]
      ensures flows == if address in old(servers) then old(flows) + [FlowRecord(address, Running)] else old(flows)
      ensures half == if address in old(servers) then old(half) + multiset{address} else old(half)
      ensures servers == if address in old(servers)
                         then old(servers)[address := old(servers)[address].(active := (old(servers)[address].active + 1) % U32)]
                         else old(servers)
    {
      hide AccountInv, SelectionInv, OrderInv, HealthInv, PickInv;
      log := log + [Started(address, caller)];
      if address in servers {
        if AccountInv(servers, flows, half) {
          StartKeeps(servers, flows, half, address);
        }
        var s := servers[address];
        CountsOnly(thresholds, order, servers, history, address, s.(active := (s.active + 1) % U32));
        servers := servers[address := s.(active := (s.active + 1) % U32)];
        flows := flows + [FlowRecord(address, Running)];
        half := half + multiset{address};
      }
    }

    /** The second add, to `total_connections`. */
    method FinishStart(address: Address)
      requires Sound()
      modifies this`servers, this`half
      ensures Sound() && (old(Valid()) && (address in old(half) || address !in old(servers)) ==> Valid())
      ensures half == if address in old(servers) then old(half) - multiset{address} else old(half)
      ensures servers == if address in old(servers)
                         then old(servers)[address := old(servers)[address].(total := (old(servers)[address].total + 1) % WRAP)]
                         else old(servers)
    {
      hide AccountInv, SelectionInv, OrderInv, HealthInv, PickInv;
      if address in servers {
        if AccountInv(servers, flows, half) && address in half {
          FinishKeeps(servers, flows, half, address);
        }
        var s := servers[address];
        CountsOnly(thresholds, order, servers, history, address, s.(total := (s.total + 1) % WRAP));
        servers := servers[address := s.(total := (s.total + 1) % WRAP)];
        half := half - multiset{address};
      }
    }

    /** `mark_connection_start` with nothing between its adds. */
    method MarkConnectionStart(address: Address, ghost caller: nat)
      requires Sound()
      modifies this`servers, this`flows, this`log, this`half
      ensures Sound() && (old(Valid()) ==> Valid()) && log == old(log) + [Started(address, caller)] && half == old(half)
      ensures flows == if address in old(servers) then old(flows) + [FlowRecord(address, Running)] else old(flows)
      ensures servers.Keys == old(servers).Keys
      ensures forall a :: a in servers ==> servers[a].counters == old(servers)[a].counters
      ensures forall a :: a in servers && a != address ==> servers[a] == old(servers)[a]
    {
      hide AccountInv, SelectionInv, OrderInv, HealthInv, PickInv;
      BeginStart(address, caller);
      FinishStart(address);
    }

    /** `mark_connection_end`: the count of a known address goes down by one, and wraps at zero.  When a flow calls it
        that is still running, the account goes on, and short of 2^32 connections the count does not wrap. */
    method MarkConnectionEnd(address: Address, ghost flow: nat)
      requires Sound()
      modifies this`servers, this`flows
      ensures Sound() && servers.Keys == old(servers).Keys
      ensures servers == if address in old(servers)
                         then old(servers)[address := old(servers)[address].(active := (old(servers)[address].active - 1) % U32)]
                         else old(servers)
      ensures flows == if RunningAt(old(flows), flow, address) then old(flows)[flow := FlowRecord(address, Closed)] else old(flows)
      ensures old(Valid()) && RunningAt(old(flows), flow, address) && address in servers ==>
                Valid() && (|flows| < U32 ==> servers[address].active == old(servers)[address].active - 1)
      ensures old(Valid()) && address !in old(servers) && !RunningAt(old(flows), flow, address) ==> Valid()
    {
      hide AccountInv, SelectionInv, OrderInv, HealthInv, PickInv;
      if address in servers {
        if AccountInv(servers, flows, half) && RunningAt(flows, flow, address) {
          EndKeeps(servers, flows, half, address, flow);
        }
        var s := servers[address];
        CountsOnly(thresholds, order, servers, history, address, s.(active := (s.active - 1) % U32));
        servers := servers[address := s.(active := (s.active - 1) % U32)];
      }
      if RunningAt(flows, flow, address) {
        flows := flows[flow := FlowRecord(address, Closed)];
      }
    }

    /** A flow leaves by an error exit: nothing is marked. */
    ghost method LeaveByError(flow: nat)
      requires Valid() && flow < |flows| && flows[flow].status == Running
      modifies this`flows
      ensures Valid() && flows == old(flows)[flow := old(flows)[flow].(status := Left)]
    {
      LeaveKeeps(servers, flows, half, flow);
      flows := flows[flow := flows[flow].(status := Left)];
    }

    /** While fewer than 2^32 connections have been started, the count of active connections is exactly the flows running
        and those that left by an error, and the total is the flows started but for the starts between their adds;
        so the active are no more than the total exactly when there are no more such starts than flows ended. */
    lemma ActiveIsOpen(a: Address)
      requires Valid() && a in servers && |flows| < U32
      ensures servers[a].active == OpenOf(flows, a) && servers[a].total + half[a] == StartsOf(flows, a)
      ensures servers[a].active <= servers[a].total <==> half[a] <= ClosedOf(flows, a)
      ensures a !in half ==> servers[a].active <= servers[a].total
    {
      assert Accounted(servers[a], flows, half[a], a);
      OpenAndClosed(flows, a);
      BelowWrap(OpenOf(flows, a));
      BelowWrap(StartsOf(flows, a) - half[a]);
    }

    // ---------------------------------------------------------------- selection

    /** `get_server`; `draw` stands for the random number of the strategies that draw one. */
    method GetServer(draw: nat, ghost caller: nat) returns (picked: Option<Address>)
      requires Sound()
      modifies this`roundRobin, this`selections, this`picks
      ensures Sound() && (old(Valid()) ==> Valid())
      ensures picked == None <==> HealthyIn(order, servers) == []
      ensures picked.Some? ==> picked.value in servers && servers[picked.value].counters.healthy
      ensures strategy == RoundRobinly && picked.Some? ==>
                var healthy := HealthyIn(order, servers);
                && picked.value == PickAt(healthy, old(roundRobin)) && roundRobin == (old(roundRobin) + 1) % WRAP
                && selections == old(selections) + [Selection(healthy, old(roundRobin), picked.value)]
      ensures strategy == ByLeastConnections && picked.Some? ==> IsFirstLeast(HealthyIn(order, servers), servers, picked.value)
      ensures strategy != RoundRobinly || picked == None ==> roundRobin == old(roundRobin) && selections == old(selections)
      ensures strategy == Randomly || strategy == ByHash ==> picked.Some? ==> picked.value == PickAt(HealthyIn(order, servers), draw)
      ensures picks == if picked.Some? then old(picks) + [Pick(caller, servers, old(roundRobin), picked.value)] else old(picks)
    {
      hide HealthInv, AccountInv, OrderInv, SelectionInv, IsFirstLeast, HealthyIn, LeastPicked, PickAt, Distinct, Loads,
           PickInv,
           WellPicked;
      var healthy := FilterHealthy(order, servers);
      HealthyListed(order, servers);
      picked := PickFrom(healthy, Loads(healthy, servers), draw);
      if picked.Some? {
        if strategy == ByLeastConnections {
          LeastOfLoads(healthy, servers, picked.value);
        }
        HealthyOne(order, servers, picked.value);
        ghost var p := Pick(caller, servers, old(roundRobin), picked.value);
        IsWellPicked(order, strategy, p);
        OnePickMore(order, strategy, picks, p);
        picks := picks + [p];
      }
    }

    /** The pick, from whatever list a walk has collected, and whatever was read when the servers' active counts were loaded
        one after the other: between two visits of the walk, two loads, and the one and the other, other calls may have
        come in. */
    method PickFrom(healthy: seq<Address>, loads: seq<u32>, draw: nat) returns (picked: Option<Address>)
      requires Sound() && Distinct(healthy) && |loads| == |healthy|
      modifies this`roundRobin, this`selections
      ensures Sound() && (old(Valid()) ==> Valid())
      ensures picked == None <==> healthy == []
      ensures picked.Some? ==> picked.value in healthy
      ensures strategy == RoundRobinly && picked.Some? ==>
                && picked.value == PickAt(healthy, old(roundRobin)) && roundRobin == (old(roundRobin) + 1) % WRAP
                && selections == old(selections) + [Selection(healthy, old(roundRobin), picked.value)]
      ensures strategy == ByLeastConnections && picked.Some? ==>
                LeastPicked(healthy, loads, picked.value)
      ensures strategy != RoundRobinly || picked == None ==> roundRobin == old(roundRobin) && selections == old(selections)
      ensures strategy == Randomly || strategy == ByHash ==> picked.Some? ==> picked.value == PickAt(healthy, draw)
    {
      hide HealthInv, AccountInv, OrderInv, LeastAt, PickInv;
      if healthy == [] {
        return None;
      }
      match strategy
      case RoundRobinly =>
        var index := roundRobin;
        WrapsFar(|selections|);
        roundRobin := (roundRobin + 1) % WRAP;
        selections := selections + [Selection(healthy, index, healthy[index % |healthy|])];
        return Some(healthy[index % |healthy|]);
      case ByLeastConnections =>
        var i := FirstLeast(loads);
        return Some(healthy[i]);
      case _ =>
        return Some(healthy[draw % |healthy|]);
    }

    /** Fairness of the pool: among any `k` round-robin selections in a row, by whatever callers and whatever else was
        called in between, that were made from one list, each server of the list was picked `k / n` times, rounded
        down or up, and exactly once in `n`; provided the counter did not wrap among them, or `n` divides 2^64. */
    lemma SelectionsAreFair(list: seq<Address>, from: nat, k: nat, j: nat)
      requires Sound() && from + k <= |selections| && j < |list| && Distinct(list)
      requires forall i | from <= i < from + k :: selections[i].healthy == list
      requires Unbroken(from, k, |list|)
      ensures var n := |list|; var hits := multiset(Picked(selections[from..from + k]))[list[j]];
              FairShare(hits, k, n) && (k == n ==> hits == 1)
    {
      hide FairShare, SelectionInv, Unbroken, RotationStart, Follows;
      forall i | 0 <= i < k ensures Follows(selections, list, from, RotationStart(from, k), i) {
        SelectionFollows(selections, roundRobin, list, from, k, i);
      }
      WindowIsPicks(selections, list, from, RotationStart(from, k), k);
      FairPicks(list, RotationStart(from, k), k, j);
    }

    /** `k` selections in a row, with nothing in between. */
    method GetServers(k: nat, ghost caller: nat) returns (picked: seq<Address>)
      requires Sound() && strategy == RoundRobinly && HealthyIn(order, servers) != [] && roundRobin + k <= WRAP
      modifies this`roundRobin, this`selections, this`picks
      ensures Sound() && picked == Picks(HealthyIn(order, servers), old(roundRobin), k)
      ensures FairlyPicked(picked, HealthyIn(order, servers))
    {
      ghost var healthy, start := HealthyIn(order, servers), roundRobin;
      HealthyOnly(order, servers);
      hide HealthInv, AccountInv, OrderInv, SelectionInv, IsFirstLeast, HealthyIn, Picks, PickAt, FairlyPicked, PickInv;
      picked := [];
      OneMore(healthy, start, 0, 0);
      WordBelowWrap(roundRobin);
      for i := 0 to k
        invariant Sound() && picked == Picks(healthy, start, i) && roundRobin == (start + i) % WRAP
      {
        picked := Onward(healthy, start, i, picked, caller);
      }
      AllFair(healthy, start, k);
    }

    /** The next of them. */
    method Onward(ghost healthy: seq<Address>, ghost start: nat, ghost i: nat, before: seq<Address>, ghost caller: nat)
      returns (picked: seq<Address>)
      requires Sound() && strategy == RoundRobinly && healthy == HealthyIn(order, servers) != [] && start + i < WRAP
      requires before == Picks(healthy, start, i) && roundRobin == (start + i) % WRAP
      modifies this`roundRobin, this`selections, this`picks
      ensures Sound() && picked == Picks(healthy, start, i + 1) && roundRobin == (start + (i + 1)) % WRAP
    {
      hide HealthInv, AccountInv, OrderInv, SelectionInv, IsFirstLeast, HealthyIn, Picks, PickInv;
      WordBelowWrap(start + i);
      WrapsFar(start + i);
      OneMore(healthy, start, i + 1, 0);
      var next := GetServer(0, caller);
      picked := before + [next.value];
    }
  }

  /** Each server of the list has a fair share of the picks. */
  ghost predicate FairlyPicked(picked: seq<Address>, list: seq<Address>)
    requires list != []
  {
    forall j :: 0 <= j < |list| ==> FairShare(multiset(picked)[list[j]], |picked|, |list|)
  }

  lemma AllFair(list: seq<Address>, start: nat, k: nat)
    requires list != [] && Distinct(list)
    ensures FairlyPicked(Picks(list, start, k), list)
  {
    hide FairShare, Picks;
    forall j | 0 <= j < |list| ensures FairShare(multiset(Picks(list, start, k))[list[j]], k, |list|) {
      FairPicks(list, start, k, j);
    }
  }

  // ------------------------------------------------------------------ the healthy servers

  function HealthyIn(order: seq<Address>, servers: Servers): seq<Address>
  {
    if order == [] then []
    else
      var last := order[|order| - 1];
      HealthyIn(order[..|order| - 1], servers) + if last in servers && servers[last].counters.healthy then [last] else []
  }

  method FilterHealthy(order: seq<Address>, servers: Servers) returns (healthy: seq<Address>)
    ensures healthy == HealthyIn(order, servers)
  {
    healthy := [];
    for i := 0 to |order|
      invariant healthy == HealthyIn(order[..i], servers)
    {
      assert order[..i + 1][..i] == order[..i];
      if order[i] in servers && servers[order[i]].counters.healthy {
        healthy := healthy + [order[i]];
      }
    }
    assert order[..|order|] == order;
  }

  /** The list holds the healthy servers, each once. */
  lemma {:induction false} HealthyOnly(order: seq<Address>, servers: Servers)
    requires Distinct(order)
    ensures Distinct(HealthyIn(order, servers))
    ensures forall a :: a in HealthyIn(order, servers) <==> a in order && a in servers && servers[a].counters.healthy
  {
    if order != [] {
      HealthyOnly(order[..|order| - 1], servers);
    }
  }

  /** In the order of the walk. */
  ghost predicate InWalkOrder(order: seq<Address>, list: seq<Address>, at: seq<nat>) {
    && |at| == |list| && (forall k | 0 <= k < |at| :: at[k] < |order| && list[k] == order[at[k]])
    && (forall j, k | 0 <= j < k < |at| :: at[j] < at[k])
  }

  lemma {:induction false} HealthyInOrder(order: seq<Address>, servers: Servers) returns (at: seq<nat>)
    ensures InWalkOrder(order, HealthyIn(order, servers), at)
  {
    at := [];
    if order != [] {
      var n := |order| - 1;
      at := HealthyInOrder(order[..n], servers);
      if order[n] in servers && servers[order[n]].counters.healthy {
        at := at + [n];
      }
    }
  }

  lemma HealthyListed(order: seq<Address>, servers: Servers)
    requires OrderInv(order, servers)
    ensures Distinct(HealthyIn(order, servers)) && forall a :: a in HealthyIn(order, servers) ==> a in servers
  {
    HealthyOnly(order, servers);
  }

  lemma HealthyOne(order: seq<Address>, servers: Servers, a: Address)
    requires OrderInv(order, servers) && a in HealthyIn(order, servers)
    ensures a in servers && servers[a].counters.healthy
  {
    HealthyOnly(order, servers);
  }

  /** The first server with the fewest active connections, as `min_by_key` finds it. */
  ghost predicate IsFirstLeast(list: seq<Address>, servers: Servers, least: Address) {
    && least in servers
    && (forall j :: 0 <= j < |list| && list[j] in servers ==> servers[least].active <= servers[list[j]].active)
    && (exists i :: (0 <= i < |list| && list[i] == least && FewerBefore(list, servers, least, i)))
  }

  ghost predicate FewerBefore(list: seq<Address>, servers: Servers, least: Address, i: nat) {
    && i <= |list| && least in servers
    && forall j :: 0 <= j < i && list[j] in servers ==> servers[least].active < servers[list[j]].active
  }

  /** The `i`th of the values read is the first of the least. */
  ghost predicate LeastAt(loads: seq<u32>, i: nat) {
    && i < |loads| && (forall j :: 0 <= j < |loads| ==> loads[i] <= loads[j])
    && (forall j :: 0 <= j < i ==> loads[i] < loads[j])
  }

  /** The server picked goes with the first of the least values read. */
  ghost predicate LeastPicked(list: seq<Address>, loads: seq<u32>, picked: Address) {
    exists i :: 0 <= i < |list| && picked == list[i] && LeastAt(loads, i)
  }

  /** `min_by_key` over the values as they are read. */
  method FirstLeast(loads: seq<u32>) returns (best: nat)
    requires loads != []
    ensures LeastAt(loads, best)
  {
    best := 0;
    for i := 1 to |loads|
      invariant best < i
      invariant forall j :: 0 <= j < i ==> loads[best] <= loads[j]
      invariant forall j :: 0 <= j < best ==> loads[best] < loads[j]
    {
      if loads[i] < loads[best] {
        best := i;
      }
    }
  }

  /** The active counts, all read in one state. */
  function Loads(list: seq<Address>, servers: Servers): (loads: seq<u32>)
    requires forall a :: a in list ==> a in servers
    ensures |loads| == |list| && forall i :: 0 <= i < |list| ==> loads[i] == servers[list[i]].active
  {
    if list == [] then [] else Loads(list[..|list| - 1], servers) + [servers[list[|list| - 1]].active]
  }

  lemma LeastOfLoads(list: seq<Address>, servers: Servers, least: Address)
    requires forall a :: a in list ==> a in servers
    requires LeastPicked(list, Loads(list, servers), least)
    ensures least in list && IsFirstLeast(list, servers, least)
  {
    var i :| 0 <= i < |list| && least == list[i] && LeastAt(Loads(list, servers), i);
    assert FewerBefore(list, servers, least, i);
  }

  method LeastConnections(list: seq<Address>, servers: Servers) returns (least: Address)
    requires list != [] && forall a :: a in list ==> a in servers
    ensures least in list && IsFirstLeast(list, servers, least)
  {
    var i := FirstLeast(Loads(list, servers));
    least := list[i];
    LeastOfLoads(list, servers, least);
  }

  // ------------------------------------------------------------------ what other callers do

  datatype Call =
    | StartCall(address: Address)
    | FinishCall(address: Address)
    | EndCall(address: Address)
    | FailCall(address: Address)
    | SuccessCall(address: Address)
    | CheckCall(address: Address, ok: bool)
    | SelectCall(draw: nat)

  /** Flows come, and change their status; none changes its address. */
  ghost predicate FlowsGrow(before: seq<FlowRecord>, after: seq<FlowRecord>) {
    |before| <= |after| && forall i :: 0 <= i < |before| ==> after[i].address == before[i].address
  }

  lemma SameFlowsGrow(flows: seq<FlowRecord>)
    ensures FlowsGrow(flows, flows)
  {
  }

  lemma FlowsGrowOn(a: seq<FlowRecord>, b: seq<FlowRecord>, c: seq<FlowRecord>)
    requires FlowsGrow(a, b) && FlowsGrow(b, c)
    ensures FlowsGrow(a, c)
  {
  }

  lemma OthersPick(picks: seq<Pick>, picks': seq<Pick>, caller: nat, me: nat)
    requires picks' == picks || (|picks'| == |picks| + 1 && picks' == picks + [picks'[|picks|]] && picks'[|picks|].caller == caller)
    requires caller != me
    ensures PicksOf(picks', me) == PicksOf(picks, me)
  {
    if picks' != picks {
      PicksSnoc(picks, picks'[|picks|], me);
    }
  }

  /** Any one call by another caller. */
  method Perform(pool: ServerPool, call: Call, ghost caller: nat, ghost me: nat)
    requires pool.Sound() && caller != me
    modifies pool
    ensures pool.Sound() && pool.servers.Keys == old(pool.servers).Keys
    ensures ByCaller(pool.log, me) == ByCaller(old(pool.log), me) && FlowsGrow(old(pool.flows), pool.flows)
    ensures PicksOf(pool.picks, me) == PicksOf(old(pool.picks), me)
  {
    hide ServerPool.Sound, ServerPool.Valid, HealthInv, AccountInv, OrderInv, SelectionInv, ByCaller, Noted, HealthyIn,
         IsFirstLeast, PickInv, PicksOf, PickAt;
    ghost var log, picks := pool.log, pool.picks;
    match call
    case StartCall(a) => pool.BeginStart(a, caller); ByCallerSnoc(log, Started(a, caller), me);
    case FinishCall(a) => pool.FinishStart(a);
    case EndCall(a) => pool.MarkConnectionEnd(a, |pool.flows|);
    case FailCall(a) => pool.MarkConnectionFailed(a, caller); ByCallerSnoc(log, FailedAt(a, caller), me);
    case SuccessCall(a) => pool.MarkConnectionSuccess(a, caller); ByCallerSnoc(log, Succeeded(a, caller), me);
    case CheckCall(a, ok) => pool.HealthCheckResult(a, ok);
    case SelectCall(draw) => {
      var picked := pool.GetServer(draw, caller);
      OthersPick(picks, pool.picks, caller, me);
    }
  }

  /** Any calls by other callers. */
  method Others(pool: ServerPool, calls: seq<Call>, ghost them: nat, ghost me: nat)
    requires pool.Sound() && them != me
    modifies pool
    ensures pool.Sound() && pool.servers.Keys == old(pool.servers).Keys
    ensures ByCaller(pool.log, me) == ByCaller(old(pool.log), me) && FlowsGrow(old(pool.flows), pool.flows)
    ensures PicksOf(pool.picks, me) == PicksOf(old(pool.picks), me)
    ensures calls == [] ==> unchanged(pool)
  {
    hide ServerPool.Sound, ServerPool.Valid, HealthInv, AccountInv, OrderInv, SelectionInv, ByCaller, PickInv, PicksOf,
         FlowsGrow;
    SameFlowsGrow(pool.flows);
    for i := 0 to |calls|
      invariant pool.Sound() && pool.servers.Keys == old(pool.servers).Keys
      invariant ByCaller(pool.log, me) == ByCaller(old(pool.log), me) && FlowsGrow(old(pool.flows), pool.flows)
      invariant PicksOf(pool.picks, me) == PicksOf(old(pool.picks), me)
      invariant i == 0 ==> unchanged(pool)
    {
      ghost var flows := pool.flows;
      Perform(pool, calls[i], them, me);
      FlowsGrowOn(old(pool.flows), flows, pool.flows);
    }
  }

  // ------------------------------------------------------------------ connecting, with failover

  const MAX_RETRIES: nat := 3

  datatype Connected = Connected(address: Address) | NoHealthyServer | AllFailed

  function Failures(failed: seq<Address>, me: nat): seq<PoolEvent> {
    if failed == [] then [] else Failures(failed[..|failed| - 1], me) + [FailedAt(failed[|failed| - 1], me)]
  }

  function Success(r: Connected, me: nat): seq<PoolEvent> {
    if r.Connected? then [Started(r.address, me), Succeeded(r.address, me)] else []
  }

  lemma FailureSnoc(log: seq<PoolEvent>, failed: seq<Address>, a: Address, me: nat)
    ensures log + Failures(failed + [a], me) == (log + Failures(failed, me)) + [FailedAt(a, me)]
  {
    assert (failed + [a])[..|failed|] == failed;
  }

  lemma SuccessLast(log: seq<PoolEvent>, a: Address, me: nat)
    ensures (log + [Started(a, me)]) + [Succeeded(a, me)] == log + Success(Connected(a), me)
  {
  }

  /** What the other callers do at each point where they can come in. */
  type Interference = nat -> seq<Call>

  ghost predicate Quiet(others: Interference) { forall i :: others(i) == [] }

  lemma QuietAt(others: Interference, i: nat)
    ensures Quiet(others) ==> others(i) == []
  {
  }

  lemma GrowLength(a: seq<FlowRecord>, b: seq<FlowRecord>)
    requires FlowsGrow(a, b)
    ensures |a| <= |b|
  {
  }

  lemma NoSuccess(log: seq<PoolEvent>, r: Connected, flows: seq<FlowRecord>, me: nat)
    requires !r.Connected?
    ensures log + Success(r, me) == log && flows + [] == flows
  {
  }

  lemma StillThere(before: seq<FlowRecord>, after: seq<FlowRecord>, flow: nat)
    requires FlowsGrow(before, after)
    ensures |before| <= |after| && (flow < |before| ==> after[flow].address == before[flow].address)
  {
  }

  // What the attempts leave behind when nobody else comes in.

  function Refused(t: Thresholds, servers: Servers, failed: seq<Address>): Servers {
    if failed == [] then servers else Observed(t, Refused(t, servers, failed[..|failed| - 1]), failed[|failed| - 1], false)
  }

  function RefusedHistory(history: History, failed: seq<Address>): History {
    if failed == [] then history else Noted(RefusedHistory(history, failed[..|failed| - 1]), failed[|failed| - 1], false)
  }

  function CounterAfter(strategy: Strategy, counter: u64, i: nat): u64 {
    if strategy == RoundRobinly then (counter + i) % WRAP else counter
  }

  lemma RefusedSnoc(t: Thresholds, servers: Servers, history: History, failed: seq<Address>, a: Address)
    ensures Refused(t, servers, failed + [a]) == Observed(t, Refused(t, servers, failed), a, false)
    ensures RefusedHistory(history, failed + [a]) == Noted(RefusedHistory(history, failed), a, false)
  {
    assert (failed + [a])[..|failed|] == failed;
  }

  lemma CounterOn(strategy: Strategy, counter: u64, i: nat)
    ensures CounterAfter(strategy, counter, 0) == counter
    ensures CounterAfter(strategy, counter, i + 1)
            == if strategy == RoundRobinly then (CounterAfter(strategy, counter, i) + 1) % WRAP else CounterAfter(strategy, counter, i)
  {
    WordBelowWrap(counter);
    WrapsFar(counter + i);
  }

  /** The servers attempted are the servers selected, in order: those that refused, and behind them the one that accepted,
      if one did.  Each was healthy when it was selected, and the one that the strategy takes. */
  ghost predicate Attempted(order: seq<Address>, strategy: Strategy, chosen: seq<Pick>, failed: seq<Address>, r: Connected) {
    && |chosen| == |failed| + (if r.Connected? then 1 else 0)
    && (forall i :: 0 <= i < |failed| ==> chosen[i].picked == failed[i])
    && (r.Connected? ==> chosen[|failed|].picked == r.address)
    && PickInv(order, strategy, chosen)
  }

  /** With nobody else coming in, each was selected from the servers as the failures before it had left them. */
  ghost predicate Undisturbed(t: Thresholds, strategy: Strategy, servers: Servers, counter: u64, chosen: seq<Pick>,
                              failed: seq<Address>) {
    |chosen| <= |failed| + 1 && forall i :: 0 <= i < |chosen| ==> UndisturbedAt(t, strategy, servers, counter, chosen[i], failed, i)
  }

  ghost predicate UndisturbedAt(t: Thresholds, strategy: Strategy, servers: Servers, counter: u64, p: Pick,
                                failed: seq<Address>, i: nat) {
    i <= |failed| && p.servers == Refused(t, servers, failed[..i]) && p.counter == CounterAfter(strategy, counter, i)
  }

  // What the parts of an attempt do to the pool.

  /** A selection among others. */
  ghost predicate Selects(strategy: Strategy, w: World, w': World, pick: Option<Pick>, me: nat, quiet: bool) {
    && ByCaller(w'.log, me) == ByCaller(w.log, me) && |w.flows| <= |w'.flows|
    && PicksOf(w'.picks, me) == (if pick.Some? then PicksOf(w.picks, me) + [pick.value] else PicksOf(w.picks, me))
    && (quiet ==>
          && w'.log == w.log && w'.flows == w.flows && w'.servers == w.servers && w'.history == w.history && (w.valid ==> w'.valid)
          && (pick.Some? ==> pick.value.servers == w.servers && pick.value.counter == w.counter)
          && w'.counter == if pick.Some? then CounterAfter(strategy, w.counter, 1) else w.counter)
  }

  /** The mark of a failed attempt. */
  ghost predicate MarksRefused(t: Thresholds, w: World, w': World, address: Address, me: nat, quiet: bool) {
    && ByCaller(w'.log, me) == ByCaller(w.log, me) + [FailedAt(address, me)] && |w.flows| <= |w'.flows|
    && PicksOf(w'.picks, me) == PicksOf(w.picks, me)
    && (quiet ==>
          && w'.log == w.log + [FailedAt(address, me)] && w'.flows == w.flows && (w.valid ==> w'.valid)
          && w'.servers == Observed(t, w.servers, address, false) && w'.history == Noted(w.history, address, false)
          && w'.counter == w.counter)
  }

  /** The marks of a connection that is open. */
  ghost predicate MarksOpen(w: World, w': World, address: Address, me: nat, quiet: bool) {
    && ByCaller(w'.log, me) == ByCaller(w.log, me) + Success(Connected(address), me)
    && PicksOf(w'.picks, me) == PicksOf(w.picks, me)
    && (quiet ==>
          && w'.log == w.log + Success(Connected(address), me) && w'.flows == w.flows + [FlowRecord(address, Running)]
          && w'.history == Noted(w.history, address, true) && w'.counter == w.counter && (w.valid ==> w'.valid))
  }

  /** All attempts so far have failed. */
  ghost predicate Attempting(order: seq<Address>, t: Thresholds, strategy: Strategy, w: World, w': World, failed: seq<Address>,
                             chosen: seq<Pick>, me: nat, quiet: bool) {
    && ByCaller(w'.log, me) == ByCaller(w.log, me) + Failures(failed, me) && |w.flows| <= |w'.flows|
    && PicksOf(w'.picks, me) == PicksOf(w.picks, me) + chosen
    && Attempted(order, strategy, chosen, failed, NoHealthyServer)
    && (quiet ==>
          && w'.log == w.log + Failures(failed, me) && w'.flows == w.flows && (w.valid ==> w'.valid)
          && w'.servers == Refused(t, w.servers, failed) && w'.history == RefusedHistory(w.history, failed)
          && w'.counter == CounterAfter(strategy, w.counter, |failed|)
          && Undisturbed(t, strategy, w.servers, w.counter, chosen, failed))
  }

  /** What the call comes to.  Whatever the others do, this caller records a failure for each attempt that failed, and one
      start and one success exactly when a connection is returned; and it attempts just the servers that it selects.  With
      nobody else coming in that is all that happens: each server is selected from the servers as the failures before
      have left them, and those failures, and at the end the success, are all that goes into the outcomes. */
  ghost predicate Failover(order: seq<Address>, t: Thresholds, strategy: Strategy, w: World, w': World, failed: seq<Address>,
                           chosen: seq<Pick>, r: Connected, me: nat, quiet: bool) {
    && ByCaller(w'.log, me) == (ByCaller(w.log, me) + Failures(failed, me)) + Success(r, me)
    && PicksOf(w'.picks, me) == PicksOf(w.picks, me) + chosen
    && Attempted(order, strategy, chosen, failed, r)
    && (quiet ==>
          && w'.log == (w.log + Failures(failed, me)) + Success(r, me)
          && w'.flows == w.flows + (if r.Connected? then [FlowRecord(r.address, Running)] else [])
          && (w.valid ==> w'.valid)
          && Undisturbed(t, strategy, w.servers, w.counter, chosen, failed)
          && w'.counter == CounterAfter(strategy, w.counter, |chosen|)
          && var refused := RefusedHistory(w.history, failed);
             w'.history == if r.Connected? then Noted(refused, r.address, true) else refused)
  }

  lemma AttemptsBegin(order: seq<Address>, t: Thresholds, strategy: Strategy, w: World, me: nat, quiet: bool)
    ensures Attempting(order, t, strategy, w, w, [], [], me, quiet)
  {
    WordBelowWrap(w.counter);
  }

  /** One attempt more has failed. */
  lemma AttemptsGoOn(order: seq<Address>, t: Thresholds, strategy: Strategy, w: World, w1: World, w2: World, w3: World,
                     failed: seq<Address>, chosen: seq<Pick>, p: Pick, me: nat, quiet: bool)
    requires Attempting(order, t, strategy, w, w1, failed, chosen, me, quiet) && Selects(strategy, w1, w2, Some(p), me, quiet)
    requires MarksRefused(t, w2, w3, p.picked, me, quiet) && WellPicked(order, strategy, p)
    ensures Attempting(order, t, strategy, w, w3, failed + [p.picked], chosen + [p], me, quiet)
  {
    hide ByCaller, PicksOf, Attempted, Undisturbed, Failures, Refused, RefusedHistory, CounterAfter, Observed, Noted,
         WellPicked;
    AttemptFailed(order, strategy, chosen, failed, p);
    FailureSnoc(ByCaller(w.log, me), failed, p.picked, me);
    FailureSnoc(w.log, failed, p.picked, me);
    RefusedSnoc(t, w.servers, w.history, failed, p.picked);
    Associate(PicksOf(w.picks, me), chosen, [p]);
    AsMany(order, strategy, chosen, failed);
    if quiet {
      OneMoreUndisturbed(t, strategy, w.servers, w.counter, chosen, failed, p);
      CounterOn(strategy, w.counter, |failed|);
      CounterOn(strategy, w1.counter, 0);
    }
  }

  lemma AsMany(order: seq<Address>, strategy: Strategy, chosen: seq<Pick>, failed: seq<Address>)
    requires Attempted(order, strategy, chosen, failed, NoHealthyServer)
    ensures |chosen| == |failed|
  {
  }

  /** An attempt has succeeded. */
  lemma AttemptSucceeds(order: seq<Address>, t: Thresholds, strategy: Strategy, w: World, w1: World, w2: World, w3: World,
                        failed: seq<Address>, chosen: seq<Pick>, p: Pick, me: nat, quiet: bool)
    requires Attempting(order, t, strategy, w, w1, failed, chosen, me, quiet) && Selects(strategy, w1, w2, Some(p), me, quiet)
    requires MarksOpen(w2, w3, p.picked, me, quiet) && WellPicked(order, strategy, p)
    ensures Failover(order, t, strategy, w, w3, failed, chosen + [p], Connected(p.picked), me, quiet)
  {
    hide ByCaller, PicksOf, Attempted, Undisturbed, Failures, Refused, RefusedHistory, CounterAfter, Observed, Noted,
         WellPicked,
         Success;
    AttemptFailed(order, strategy, chosen, failed, p);
    Associate(PicksOf(w.picks, me), chosen, [p]);
    AsMany(order, strategy, chosen, failed);
    if quiet {
      OneMoreUndisturbed(t, strategy, w.servers, w.counter, chosen, failed, p);
      CounterOn(strategy, w.counter, |failed|);
      CounterOn(strategy, w1.counter, 0);
    }
  }

  /** No server is healthy, or all attempts are used up. */
  lemma AttemptsEnd(order: seq<Address>, t: Thresholds, strategy: Strategy, w: World, w1: World, w2: World,
                    failed: seq<Address>, chosen: seq<Pick>, r: Connected, me: nat, quiet: bool)
    requires Attempting(order, t, strategy, w, w1, failed, chosen, me, quiet) && !r.Connected?
    requires w2 == w1 || Selects(strategy, w1, w2, None, me, quiet)
    ensures Failover(order, t, strategy, w, w2, failed, chosen, r, me, quiet)
  {
    hide ByCaller, PicksOf, Undisturbed, Failures, Refused, RefusedHistory, CounterAfter, Observed, Noted, PickInv;
    NoSuccess(ByCaller(w2.log, me), r, w2.flows, me);
    NoSuccess(w2.log, r, w2.flows, me);
  }

  lemma AttemptFailed(order: seq<Address>, strategy: Strategy, chosen: seq<Pick>, failed: seq<Address>, p: Pick)
    requires Attempted(order, strategy, chosen, failed, NoHealthyServer) && WellPicked(order, strategy, p)
    ensures Attempted(order, strategy, chosen + [p], failed + [p.picked], NoHealthyServer)
    ensures Attempted(order, strategy, chosen + [p], failed, Connected(p.picked))
  {
    OnePickMore(order, strategy, chosen, p);
    hide PickInv;
  }

  lemma OneMoreUndisturbed(t: Thresholds, strategy: Strategy, servers: Servers, counter: u64, chosen: seq<Pick>,
                           failed: seq<Address>, p: Pick)
    requires |chosen| == |failed| && Undisturbed(t, strategy, servers, counter, chosen, failed)
    requires p.servers == Refused(t, servers, failed) && p.counter == CounterAfter(strategy, counter, |failed|)
    ensures Undisturbed(t, strategy, servers, counter, chosen + [p], failed)
    ensures Undisturbed(t, strategy, servers, counter, chosen + [p], failed + [p.picked])
  {
    hide Refused, CounterAfter;
    var failed', chosen' := failed + [p.picked], chosen + [p];
    assert failed[..|failed|] == failed;
    forall i | 0 <= i < |chosen'|
      ensures UndisturbedAt(t, strategy, servers, counter, chosen'[i], failed, i)
      ensures UndisturbedAt(t, strategy, servers, counter, chosen'[i], failed', i)
    {
      assert failed'[..i] == failed[..i];
      assert i < |chosen| ==> UndisturbedAt(t, strategy, servers, counter, chosen[i], failed, i);
    }
  }

  /** A connection is open: it is marked as started, in two adds, and as a success; others may come in before each. */
  method MarkOpen(pool: ServerPool, address: Address, others: Interference, at: nat, ghost me: nat, ghost them: nat)
    returns (ghost mine: nat)
    requires pool.Sound() && me != them && address in pool.servers
    modifies pool
    ensures pool.Sound() && pool.servers.Keys == old(pool.servers).Keys
    ensures MarksOpen(old(pool.Now()), pool.Now(), address, me, Quiet(others))
    ensures |old(pool.flows)| <= mine < |pool.flows| && pool.flows[mine].address == address
  {
    hide ServerPool.Sound, ServerPool.Valid, PicksOf, HealthInv, AccountInv, OrderInv, SelectionInv, ByCaller, Noted,
         Success, FlowsGrow, Quiet, Observe, PickInv;
    QuietAt(others, at + 2);
    ghost var log := pool.log;
    mine := BothAdds(pool, address, others, at, me, them);
    ghost var flows, log' := pool.flows, pool.log;
    Others(pool, others(at + 2), them, me);
    StillThere(flows, pool.flows, mine);
    ByCallerSnoc(pool.log, Succeeded(address, me), me);
    pool.MarkConnectionSuccess(address, me);
    SuccessLast(ByCaller(log, me), address, me);
    SuccessLast(log, address, me);
  }

  /** The two adds of the start. */
  method BothAdds(pool: ServerPool, address: Address, others: Interference, at: nat, ghost me: nat, ghost them: nat)
    returns (ghost mine: nat)
    requires pool.Sound() && me != them && address in pool.servers
    modifies pool
    ensures pool.Sound() && pool.servers.Keys == old(pool.servers).Keys
    ensures ByCaller(pool.log, me) == ByCaller(old(pool.log), me) + [Started(address, me)]
    ensures |old(pool.flows)| <= mine < |pool.flows| && pool.flows[mine].address == address
    ensures Quiet(others) ==>
              && pool.log == old(pool.log) + [Started(address, me)]
              && pool.flows == old(pool.flows) + [FlowRecord(address, Running)]
              && pool.history == old(pool.history) && pool.roundRobin == old(pool.roundRobin)
              && (old(pool.Valid()) ==> pool.Valid())
    ensures PicksOf(pool.picks, me) == PicksOf(old(pool.picks), me)
  {
    hide ServerPool.Sound, ServerPool.Valid, PicksOf, HealthInv, AccountInv, OrderInv, SelectionInv, ByCaller, FlowsGrow,
         Quiet, PickInv;
    QuietAt(others, at + 1);
    mine := FirstAdd(pool, address, others, at, me, them);
    ghost var flows := pool.flows;
    Others(pool, others(at + 1), them, me);
    StillThere(flows, pool.flows, mine);
    pool.FinishStart(address);
  }

  method FirstAdd(pool: ServerPool, address: Address, others: Interference, at: nat, ghost me: nat, ghost them: nat)
    returns (ghost mine: nat)
    requires pool.Sound() && me != them && address in pool.servers
    modifies pool
    ensures pool.Sound() && pool.servers.Keys == old(pool.servers).Keys
    ensures ByCaller(pool.log, me) == ByCaller(old(pool.log), me) + [Started(address, me)]
    ensures |old(pool.flows)| <= mine < |pool.flows| && pool.flows[mine].address == address
    ensures Quiet(others) ==>
              && pool.log == old(pool.log) + [Started(address, me)]
              && pool.flows == old(pool.flows) + [FlowRecord(address, Running)]
              && pool.history == old(pool.history) && pool.roundRobin == old(pool.roundRobin)
              && address in pool.half && (old(pool.Valid()) ==> pool.Valid())
    ensures PicksOf(pool.picks, me) == PicksOf(old(pool.picks), me)
  {
    hide ServerPool.Sound, ServerPool.Valid, PicksOf, HealthInv, AccountInv, OrderInv, SelectionInv, ByCaller, FlowsGrow,
         Quiet, PickInv;
    QuietAt(others, at);
    ghost var flows := pool.flows;
    Others(pool, others(at), them, me);
    StillThere(flows, pool.flows, 0);
    mine := |pool.flows|;
    ByCallerSnoc(pool.log, Started(address, me), me);
    pool.BeginStart(address, me);
  }

  /** A server is selected. */
  method SelectAmongOthers(pool: ServerPool, draw: nat, others: Interference, at: nat, ghost me: nat, ghost them: nat)
    returns (picked: Option<Address>, ghost pick: Option<Pick>)
    requires pool.Sound() && me != them
    modifies pool
    ensures pool.Sound() && Selects(pool.strategy, old(pool.Now()), pool.Now(), pick, me, Quiet(others))
    ensures picked == None ==> HealthyIn(pool.order, pool.servers) == [] && pick == None
    ensures picked.Some? ==> picked.value in pool.servers && pick.Some? && pick.value.picked == picked.value
    ensures picked.Some? ==> WellPicked(pool.order, pool.strategy, pick.value)
  {
    hide HealthInv, AccountInv, OrderInv, SelectionInv, ByCaller, FlowsGrow, Quiet, HealthyIn, IsFirstLeast, PickAt,
         PickInv, PicksOf,
         WellPicked;
    QuietAt(others, at);
    ghost var flows := pool.flows;
    Others(pool, others(at), them, me);
    GrowLength(flows, pool.flows);
    ghost var picks, counter := pool.picks, pool.roundRobin;
    picked := pool.GetServer(draw, me);
    pick := None;
    if picked.Some? {
      ghost var p := pool.picks[|picks|];
      pick := Some(p);
      PicksSnoc(picks, p, me);
      LastPick(pool.order, pool.strategy, pool.picks);
      CounterOn(pool.strategy, counter, 0);
    }
  }

  lemma LastPick(order: seq<Address>, strategy: Strategy, picks: seq<Pick>)
    requires PickInv(order, strategy, picks) && picks != []
    ensures WellPicked(order, strategy, picks[|picks| - 1])
  {
  }

  /** An attempt has failed, and is marked. */
  method MarkRefused(pool: ServerPool, address: Address, others: Interference, at: nat, ghost me: nat, ghost them: nat)
    requires pool.Sound() && me != them
    modifies pool
    ensures pool.Sound() && MarksRefused(pool.thresholds, old(pool.Now()), pool.Now(), address, me, Quiet(others))
  {
    hide ServerPool.Sound, ServerPool.Valid, PicksOf, HealthInv, AccountInv, OrderInv, SelectionInv, ByCaller, FlowsGrow,
         Quiet, Noted, Observed, PickInv;
    QuietAt(others, at);
    ghost var flows := pool.flows;
    Others(pool, others(at), them, me);
    GrowLength(flows, pool.flows);
    ByCallerSnoc(pool.log, FailedAt(address, me), me);
    pool.MarkConnectionFailed(address, me);
  }

  /** `connect_with_failover`; `accepts[i]` says whether the `i`-th attempt to connect succeeds, and `others` what other
      callers do meanwhile.  At most three attempts are made, each to the server just selected; what is returned is the
      first that succeeds. */
  method ConnectWithFailover(pool: ServerPool, accepts: seq<bool>, draws: seq<nat>, others: Interference,
                             ghost me: nat, ghost them: nat)
    returns (r: Connected, ghost failed: seq<Address>, ghost mine: nat, ghost chosen: seq<Pick>)
    requires pool.Sound() && |accepts| == |draws| == MAX_RETRIES && me != them
    modifies pool
    ensures pool.Sound()
    ensures Failover(pool.order, pool.thresholds, pool.strategy, old(pool.Now()), pool.Now(), failed, chosen, r, me, Quiet(others))
    ensures r.Connected? ==> |old(pool.flows)| <= mine < |pool.flows| && pool.flows[mine].address == r.address
    ensures forall i :: 0 <= i < |failed| <= MAX_RETRIES ==> !accepts[i]
    ensures match r
            case Connected(a) => a in pool.servers && |failed| < 3 && accepts[|failed|]
            case NoHealthyServer => |failed| < 3 && HealthyIn(pool.order, pool.servers) == []
            case AllFailed => |failed| == 3
  {
    hide ServerPool.Sound, ServerPool.Valid, Attempting, Selects, MarksRefused, MarksOpen, WellPicked, HealthyIn, Quiet,
         Failover;
    failed, mine, chosen := [], 0, [];
    ghost var order, t, strategy, quiet, w := pool.order, pool.thresholds, pool.strategy, Quiet(others), pool.Now();
    AttemptsBegin(order, t, strategy, w, me, quiet);
    for attempt := 0 to MAX_RETRIES
      invariant pool.Sound() && |failed| == attempt && forall i :: 0 <= i < attempt ==> !accepts[i]
      invariant Attempting(order, t, strategy, w, pool.Now(), failed, chosen, me, quiet)
    {
      FlowsSoFar(order, t, strategy, w, pool.Now(), failed, chosen, me, quiet);
      ghost var w1 := pool.Now();
      var picked;
      ghost var pick;
      picked, pick := SelectAmongOthers(pool, draws[attempt], others, 5 * attempt, me, them);
      ghost var w2 := pool.Now();
      if picked == None {
        AttemptsEnd(order, t, strategy, w, w1, w2, failed, chosen, NoHealthyServer, me, quiet);
        return NoHealthyServer, failed, mine, chosen;
      }
      var address := picked.value;
      if accepts[attempt] {
        FlowsSelected(strategy, w1, w2, pick, me, quiet);
        mine := MarkOpen(pool, address, others, 5 * attempt + 1, me, them);
        AttemptSucceeds(order, t, strategy, w, w1, w2, pool.Now(), failed, chosen, pick.value, me, quiet);
        return Connected(address), failed, mine, chosen + [pick.value];
      }
      MarkRefused(pool, address, others, 5 * attempt + 4, me, them);
      AttemptsGoOn(order, t, strategy, w, w1, w2, pool.Now(), failed, chosen, pick.value, me, quiet);
      failed, chosen := failed + [address], chosen + [pick.value];
    }
    AttemptsEnd(order, t, strategy, w, pool.Now(), pool.Now(), failed, chosen, AllFailed, me, quiet);
    return AllFailed, failed, mine, chosen;
  }

  lemma FlowsSoFar(order: seq<Address>, t: Thresholds, strategy: Strategy, w: World, w': World, failed: seq<Address>,
                   chosen: seq<Pick>, me: nat, quiet: bool)
    requires Attempting(order, t, strategy, w, w', failed, chosen, me, quiet)
    ensures |w.flows| <= |w'.flows|
  {
  }

  lemma FlowsSelected(strategy: Strategy, w: World, w': World, pick: Option<Pick>, me: nat, quiet: bool)
    requires Selects(strategy, w, w', pick, me, quiet)
    ensures |w.flows| <= |w'.flows|
  {
  }

  /** A first start, seen between its two adds: more connections active than there ever were in total. */
  method StartsAhead() returns (pool: ServerPool)
    ensures fresh(pool) && pool.Valid() && 0 in pool.servers
    ensures pool.servers[0].active == 1 && pool.servers[0].total == 0 && 0 in pool.half
  {
    pool := new ServerPool([0], Thresholds(3, 2), RoundRobinly);
    pool.BeginStart(0, 0);
  }
}
