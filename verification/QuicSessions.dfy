/**
 The QUIC server's session table: connection handlers that insert a session and remove it at the end, streams that
 update it, and a cleanup that looks for idle sessions under a read lock and removes them later under a write lock.
 */
module QuicSessions {
  import opened Basics

  type Addr = nat
  type Id = nat

  /** Seconds. */
  const INACTIVE := 120.0

  datatype Session = Session(id: Id, lastActivity: real, requests: nat, sent: nat, received: nat)

  /** The sessions by address, and the collector: its entries, each marked ended or not, and the ids that
      `end_connection` was called with. */
  datatype Table = Table(sessions: map<Addr, Session>, entries: map<Id, bool>, ended: seq<Id>)

  // ------------------------------------------------------------------ what is done under one lock

  function Inserted(t: Table, addr: Addr, id: Id, now: real): Table {
    t.(sessions := t.sessions[addr := Session(id, now, 0, 0, 0)])
  }

  function Started(t: Table, id: Id): Table { t.(entries := t.entries[id := false]) }

  function Requested(t: Table, addr: Addr, bytes: nat, now: real): Table {
    if addr !in t.sessions then t
    else
      var s := t.sessions[addr];
      t.(sessions := t.sessions[addr := s.(lastActivity := now, requests := s.requests + 1, received := s.received + bytes)])
  }

  function Responded(t: Table, addr: Addr, bytes: nat): Table {
    if addr !in t.sessions then t
    else var s := t.sessions[addr]; t.(sessions := t.sessions[addr := s.(sent := s.sent + bytes)])
  }

  /** The session at the address, if any, is removed and its connection ended. */
  function Removed(t: Table, addr: Addr): Table {
    if addr !in t.sessions then t
    else
      var id := t.sessions[addr].id;
      Table(t.sessions - {addr}, if id in t.entries then t.entries[id := true] else t.entries, t.ended + [id])
  }

  ghost predicate Idle(s: Session, now: real) { now - s.lastActivity > INACTIVE }

  function Swept(t: Table, addrs: seq<Addr>): Table {
    if addrs == [] then t else Removed(Swept(t, addrs[..|addrs| - 1]), addrs[|addrs| - 1])
  }

  // ------------------------------------------------------------------ the machine

  /** A handler between its insert and its remove. */
  datatype Handler = Handler(addr: Addr, started: bool)

  /** A cleanup between its two phases: the addresses it found, the sessions it saw there, and the ids inserted by then. */
  datatype Cleanup = NoCleanup | Found(addrs: seq<Addr>, saw: map<Addr, Id>, known: set<Id>)

  /** Besides the table: the handlers, the ids inserted, those overwritten by an insert at their address, and those
      ended before their collector entry was made. */
  datatype State = State(table: Table, handlers: map<Id, Handler>, cleanup: Cleanup,
                         inserted: set<Id>, displaced: set<Id>, early: set<Id>)

  datatype Event =
    | Accept(addr: Addr, id: Id, now: real)
    | Start(id: Id)
    | Request(addr: Addr, bytes: nat, now: real)
    | Response(addr: Addr, bytes: nat)
    | Close(id: Id)
    | Scan(now: real, addrs: seq<Addr>)
    | Sweep

  function Init(): State { State(Table(map[], map[], []), map[], NoCleanup, {}, {}, {}) }

  /** The scan lists the idle sessions' addresses, in some order. */
  ghost predicate Lists(addrs: seq<Addr>, t: Table, now: real) {
    Distinct(addrs) && forall a :: a in addrs <==> a in t.sessions && Idle(t.sessions[a], now)
  }

  ghost predicate Enabled(s: State, e: Event) {
    match e
    case Accept(_, id, _) => id !in s.inserted
    case Start(id) => id in s.handlers && !s.handlers[id].started
    case Request(_, _, _) => true
    case Response(_, _) => true
    case Close(id) => id in s.handlers && s.handlers[id].started
    case Scan(now, addrs) => s.cleanup.NoCleanup? && Lists(addrs, s.table, now)
    case Sweep => s.cleanup.Found?
  }

  ghost function Saw(t: Table, addrs: seq<Addr>): map<Addr, Id> {
    map a | a in addrs && a in t.sessions :: t.sessions[a].id
  }

  /** The ids that a removal at these addresses would end. */
  ghost function IdsAt(t: Table, addrs: seq<Addr>): set<Id> {
    set a | a in addrs && a in t.sessions :: t.sessions[a].id
  }

  ghost function Next(s: State, e: Event): State
    requires Enabled(s, e)
  {
    match e
    case Accept(addr, id, now) =>
      s.(table := Inserted(s.table, addr, id, now), handlers := s.handlers[id := Handler(addr, false)],
         inserted := s.inserted + {id}, displaced := s.displaced + IdsAt(s.table, [addr]))
    case Start(id) => s.(table := Started(s.table, id), handlers := s.handlers[id := s.handlers[id].(started := true)])
    case Request(addr, bytes, now) => s.(table := Requested(s.table, addr, bytes, now))
    case Response(addr, bytes) => s.(table := Responded(s.table, addr, bytes))
    case Close(id) =>
      var addrs := [s.handlers[id].addr];
      s.(table := Removed(s.table, addrs[0]), handlers := s.handlers - {id},
         early := s.early + (IdsAt(s.table, addrs) - s.table.entries.Keys))
    case Scan(now, addrs) => s.(cleanup := Found(addrs, Saw(s.table, addrs), s.inserted))
    case Sweep =>
      s.(table := Swept(s.table, s.cleanup.addrs), cleanup := NoCleanup,
         early := s.early + (IdsAt(s.table, s.cleanup.addrs) - s.table.entries.Keys))
  }

  // ------------------------------------------------------------------ what every step keeps

  ghost function MapIds(t: Table): set<Id> { set a | a in t.sessions :: t.sessions[a].id }

  ghost predicate OneAddress(t: Table) {
    forall a, b :: a in t.sessions && b in t.sessions && t.sessions[a].id == t.sessions[b].id ==> a == b
  }

  /** Every id inserted is in one place: in the map, among those ended (once), or displaced. */
  ghost predicate Accounted(t: Table, inserted: set<Id>, displaced: set<Id>) {
    && OneAddress(t) && Distinct(t.ended)
    && (forall id :: id in inserted <==> id in MapIds(t) || id in t.ended || id in displaced)
    && (forall id :: id in MapIds(t) ==> id !in t.ended && id !in displaced)
    && (forall id :: id in t.ended ==> id !in displaced)
  }

  /** An id has an entry unless its handler is still to make one; an ended id's entry says so unless the end came early. */
  ghost predicate EntriesInv(t: Table, handlers: map<Id, Handler>, inserted: set<Id>, early: set<Id>) {
    && (forall id :: id in inserted <==> id in t.entries || (id in handlers && !handlers[id].started))
    && (forall id :: id in handlers && !handlers[id].started ==> id !in t.entries)
    && (forall id :: id in early ==> id in t.ended)
    && (forall id :: id in t.entries ==> (t.entries[id] <==> id in t.ended && id !in early))
    && (forall id :: id in t.ended && id !in t.entries ==> id in early)
    && (forall id :: id in handlers ==> id in inserted)
  }

  /** At an address the cleanup found there is the session it saw, or one inserted since, or none. */
  ghost predicate CleanupInv(s: State) {
    s.cleanup.Found? ==>
      && s.cleanup.known <= s.inserted && Distinct(s.cleanup.addrs) && s.cleanup.saw.Values <= s.cleanup.known
      && forall a :: a in s.cleanup.addrs ==>
           && a in s.cleanup.saw && s.cleanup.saw[a] in s.cleanup.known
           && (a in s.table.sessions ==>
                 (s.table.sessions[a].id == s.cleanup.saw[a] <==> s.table.sessions[a].id in s.cleanup.known))
  }

  ghost predicate Inv(s: State) {
    && Accounted(s.table, s.inserted, s.displaced)
    && EntriesInv(s.table, s.handlers, s.inserted, s.early)
    && CleanupInv(s)
  }

  // ------------------------------------------------------------------ the table's own steps

  lemma InsertAccounted(t: Table, inserted: set<Id>, displaced: set<Id>, addr: Addr, id: Id, now: real)
    requires Accounted(t, inserted, displaced) && id !in inserted
    ensures Accounted(Inserted(t, addr, id, now), inserted + {id}, displaced + IdsAt(t, [addr]))
  {
    var t' := Inserted(t, addr, id, now);
    assert t'.sessions[addr].id == id;
    forall x ensures x in MapIds(t') <==> x == id || (x in MapIds(t) && x !in IdsAt(t, [addr])) {
      if x in MapIds(t) && x !in IdsAt(t, [addr]) {
        var a :| a in t.sessions && t.sessions[a].id == x;
        assert addr in [addr];
        assert t'.sessions[a].id == x;
      }
      if x in MapIds(t') && x != id {
        var a :| a in t'.sessions && t'.sessions[a].id == x;
        assert t.sessions[a].id == x;
      }
    }
  }

  lemma SameSessions(t: Table, t': Table, inserted: set<Id>, displaced: set<Id>)
    requires Accounted(t, inserted, displaced)
    requires t'.ended == t.ended && t'.sessions.Keys == t.sessions.Keys
    requires forall a :: a in t.sessions ==> t'.sessions[a].id == t.sessions[a].id
    ensures Accounted(t', inserted, displaced)
  {
    assert MapIds(t') == MapIds(t);
  }

  lemma RemovedIds(t: Table, addr: Addr)
    requires OneAddress(t) && addr in t.sessions
    ensures MapIds(Removed(t, addr)) == MapIds(t) - {t.sessions[addr].id}
  {
    var t' := Removed(t, addr);
    forall x ensures x in MapIds(t') <==> x in MapIds(t) && x != t.sessions[addr].id {
      if x in MapIds(t) && x != t.sessions[addr].id {
        var a :| a in t.sessions && t.sessions[a].id == x;
        assert t'.sessions[a].id == x;
      }
    }
  }

  lemma RemoveAccounted(t: Table, inserted: set<Id>, displaced: set<Id>, addr: Addr)
    requires Accounted(t, inserted, displaced)
    ensures Accounted(Removed(t, addr), inserted, displaced)
  {
    if addr in t.sessions {
      RemovedIds(t, addr);
      assert t.sessions[addr].id in MapIds(t);
    }
  }

  lemma RemoveEntries(t: Table, handlers: map<Id, Handler>, inserted: set<Id>, displaced: set<Id>, early: set<Id>, addr: Addr)
    requires Accounted(t, inserted, displaced) && EntriesInv(t, handlers, inserted, early)
    ensures EntriesInv(Removed(t, addr), handlers, inserted, early + (IdsAt(t, [addr]) - t.entries.Keys))
  {
    if addr in t.sessions {
      assert t.sessions[addr].id in MapIds(t);
      assert IdsAt(t, [addr]) == {t.sessions[addr].id};
    } else {
      assert IdsAt(t, [addr]) == {};
    }
  }

  /** A sweep at distinct addresses ends the ids there, each once, and touches no other session. */
  lemma {:induction false} SweepKeeps(t: Table, handlers: map<Id, Handler>, inserted: set<Id>, displaced: set<Id>,
                                      early: set<Id>,
                                      addrs: seq<Addr>)
    requires Accounted(t, inserted, displaced) && EntriesInv(t, handlers, inserted, early) && Distinct(addrs)
    ensures Accounted(Swept(t, addrs), inserted, displaced)
    ensures EntriesInv(Swept(t, addrs), handlers, inserted, early + (IdsAt(t, addrs) - t.entries.Keys))
    ensures Swept(t, addrs).entries.Keys == t.entries.Keys
    ensures Swept(t, addrs).sessions == t.sessions - set a | a in addrs
    ensures forall id :: id in Swept(t, addrs).ended <==> id in t.ended || id in IdsAt(t, addrs)
  {
    if addrs == [] {
      assert IdsAt(t, addrs) == {};
    } else {
      var n := |addrs| - 1;
      var rest, last := addrs[..n], addrs[n];
      SweepKeeps(t, handlers, inserted, displaced, early, rest);
      var u := Swept(t, rest);
      SweepSplits(t, u, rest, last);
      assert addrs == rest + [last];
      RemoveAccounted(u, inserted, displaced, last);
      RemoveEntries(u, handlers, inserted, displaced, early + (IdsAt(t, rest) - t.entries.Keys), last);
      assert early + (IdsAt(t, rest) - t.entries.Keys) + (IdsAt(u, [last]) - u.entries.Keys)
             == early + (IdsAt(t, addrs) - t.entries.Keys);
    }
  }

  lemma SweepSplits(t: Table, u: Table, rest: seq<Addr>, last: Addr)
    requires last !in rest && u.sessions == t.sessions - set a | a in rest
    ensures IdsAt(t, rest + [last]) == IdsAt(t, rest) + IdsAt(u, [last])
    ensures Removed(u, last).sessions == t.sessions - set a | a in rest + [last]
    ensures Removed(u, last).entries.Keys == u.entries.Keys
    ensures forall id :: id in Removed(u, last).ended <==> id in u.ended || id in IdsAt(u, [last])
  {
    assert last in [last];
    assert forall a :: a in rest + [last] <==> a in rest || a == last;
    forall x ensures x in IdsAt(t, rest + [last]) <==> x in IdsAt(t, rest) || x in IdsAt(u, [last]) {
      if x in IdsAt(t, rest) {
        var a :| a in rest && a in t.sessions && t.sessions[a].id == x;
        assert a in rest + [last];
      }
      if x in IdsAt(u, [last]) {
        assert last in rest + [last];
      }
    }
    if last in u.sessions {
      assert u.sessions[last].id in IdsAt(u, [last]);
      assert Removed(u, last).ended == u.ended + [u.sessions[last].id];
    }
  }

  // ------------------------------------------------------------------ every step keeps it

  lemma AcceptKeeps(s: State, addr: Addr, id: Id, now: real)
    requires Inv(s) && id !in s.inserted
    ensures Inv(Next(s, Accept(addr, id, now)))
  {
    InsertAccounted(s.table, s.inserted, s.displaced, addr, id, now);
    hide Accounted;
    var s' := Next(s, Accept(addr, id, now));
    assert EntriesInv(s'.table, s'.handlers, s'.inserted, s'.early) by {
      EndedIsInserted(s.table, s.inserted, s.displaced, id);
    }
  }

  lemma EndedIsInserted(t: Table, inserted: set<Id>, displaced: set<Id>, id: Id)
    requires Accounted(t, inserted, displaced)
    ensures id in t.ended ==> id in inserted
  {
  }

  lemma StartKeeps(s: State, id: Id)
    requires Inv(s) && Enabled(s, Start(id))
    ensures Inv(Next(s, Start(id)))
  {
  }

  lemma RequestKeeps(s: State, e: Event)
    requires Inv(s) && (e.Request? || e.Response?)
    ensures Inv(Next(s, e))
  {
    SameSessions(s.table, Next(s, e).table, s.inserted, s.displaced);
    CleanupKept(s, Next(s, e));
    hide Accounted, CleanupInv;
  }

  /** Steps that leave no session where none was, and none that was not there. */
  ghost predicate Fewer(t: Table, t': Table) {
    forall a :: a in t'.sessions ==> a in t.sessions && t'.sessions[a].id == t.sessions[a].id
  }

  lemma CleanupKept(s: State, s': State)
    requires CleanupInv(s) && Fewer(s.table, s'.table) && s'.cleanup == s.cleanup && s'.inserted == s.inserted
    ensures CleanupInv(s')
  {
  }

  /** A handler that has made its entry can go. */
  lemma HandlerGone(t: Table, handlers: map<Id, Handler>, inserted: set<Id>, early: set<Id>, id: Id)
    requires EntriesInv(t, handlers, inserted, early) && id in handlers && handlers[id].started
    ensures EntriesInv(t, handlers - {id}, inserted, early)
  {
  }

  lemma CloseKeeps(s: State, id: Id)
    requires Inv(s) && Enabled(s, Close(id))
    ensures Inv(Next(s, Close(id)))
  {
    var addr := s.handlers[id].addr;
    var s' := Next(s, Close(id));
    CleanupKept(s, s');
    hide Accounted, CleanupInv, EntriesInv, Removed, IdsAt;
    RemoveAccounted(s.table, s.inserted, s.displaced, addr);
    RemoveEntries(s.table, s.handlers, s.inserted, s.displaced, s.early, addr);
    HandlerGone(s'.table, s.handlers, s.inserted, s'.early, id);
  }

  lemma ScanKeeps(s: State, now: real, addrs: seq<Addr>)
    requires Inv(s) && Enabled(s, Scan(now, addrs))
    ensures Inv(Next(s, Scan(now, addrs)))
  {
    forall a | a in s.table.sessions ensures s.table.sessions[a].id in s.inserted {
      assert s.table.sessions[a].id in MapIds(s.table);
    }
  }

  lemma StepKeeps(s: State, e: Event)
    requires Inv(s) && Enabled(s, e)
    ensures Inv(Next(s, e))
  {
    match e
    case Accept(addr, id, now) => AcceptKeeps(s, addr, id, now);
    case Start(id) => StartKeeps(s, id);
    case Request(_, _, _) => RequestKeeps(s, e);
    case Response(_, _) => RequestKeeps(s, e);
    case Close(id) => CloseKeeps(s, id);
    case Scan(now, addrs) => ScanKeeps(s, now, addrs);
    case Sweep => SweepKeeps(s.table, s.handlers, s.inserted, s.displaced, s.early, s.cleanup.addrs);
  }

  // ------------------------------------------------------------------ runs

  ghost predicate StepAt(run: seq<State>, es: seq<Event>, i: nat)
    requires i < |es| && |run| == |es| + 1
  {
    Enabled(run[i], es[i]) && run[i + 1] == Next(run[i], es[i])
  }

  ghost predicate IsRun(run: seq<State>, es: seq<Event>) {
    |run| == |es| + 1 && run[0] == Init() && forall i | 0 <= i < |es| :: StepAt(run, es, i)
  }

  lemma {:induction false} RunInv(run: seq<State>, es: seq<Event>, k: nat)
    requires IsRun(run, es) && k <= |es|
    ensures Inv(run[k])
  {
    if k > 0 {
      RunInv(run, es, k - 1);
      assert StepAt(run, es, k - 1);
      hide Inv, Enabled;
      StepKeeps(run[k - 1], es[k - 1]);
    } else {
      assert Inv(Init());
    }
  }

  /** Over every run: each id inserted is in the map, or ended, or displaced, and only one of these; none is ended twice,
      and no ended id is in the map. */
  lemma Conserved(run: seq<State>, es: seq<Event>, k: nat)
    requires IsRun(run, es) && k <= |es|
    ensures var t := run[k].table;
            && (forall id | id in run[k].inserted ::
                  (if id in MapIds(t) then 1 else 0) + multiset(t.ended)[id] + (if id in run[k].displaced then 1 else 0) == 1)
            && (forall id | id in t.ended :: id in run[k].inserted && id !in MapIds(t))
  {
    RunInv(run, es, k);
    var s := run[k];
    forall id | id in s.inserted
      ensures (if id in MapIds(s.table) then 1 else 0) + multiset(s.table.ended)[id] + (if id in s.displaced then 1 else 0) == 1
    {
      CountOnce(s.table.ended, id);
    }
  }

  lemma {:induction false} CountOnce(ids: seq<Id>, id: Id)
    requires Distinct(ids)
    ensures multiset(ids)[id] == if id in ids then 1 else 0
  {
    if ids != [] {
      var n := |ids| - 1;
      CountOnce(ids[..n], id);
      assert ids == ids[..n] + [ids[n]];
    }
  }

  // ------------------------------------------------------------------ what a session says of its own history

  /** Of the events from the `j`th to before the `k`th: the requests made at an address, the bytes they brought, the bytes of
      the responses, and when the address was last touched. */
  datatype Account = Account(lastActivity: real, requests: nat, sent: nat, received: nat)

  function AccountOf(es: seq<Event>, a: Addr, j: nat, k: nat): Account
    requires j < k <= |es| && es[j].Accept?
    decreases k
  {
    if k == j + 1 then Account(es[j].now, 0, 0, 0)
    else
      var before, e := AccountOf(es, a, j, k - 1), es[k - 1];
      if e.Request? && e.addr == a then
        before.(lastActivity := e.now, requests := before.requests + 1, received := before.received + e.bytes)
      else if e.Response? && e.addr == a then before.(sent := before.sent + e.bytes)
      else before
  }

  /** The session was inserted with the `j`th event, no other has come from its address since, and its figures are those of
      the events since. */
  ghost predicate Tells(s: Session, es: seq<Event>, a: Addr, j: nat, k: nat) {
    && j < k <= |es| && es[j].Accept? && es[j].addr == a && es[j].id == s.id
    && (forall i | j < i < k :: !(es[i].Accept? && es[i].addr == a))
    && var account := AccountOf(es, a, j, k);
       s == Session(s.id, account.lastActivity, account.requests, account.sent, account.received)
  }

  lemma {:induction false} SweptFewer(t: Table, addrs: seq<Addr>, a: Addr)
    ensures a in Swept(t, addrs).sessions ==> a in t.sessions && Swept(t, addrs).sessions[a] == t.sessions[a]
  {
    if addrs != [] {
      SweptFewer(t, addrs[..|addrs| - 1], a);
    }
  }

  /** How the session at an address comes out of a step. */
  lemma SessionStep(s: State, e: Event, a: Addr)
    requires Enabled(s, e) && a in Next(s, e).table.sessions
    ensures var after := Next(s, e).table.sessions[a];
            if e.Accept? && e.addr == a then after == Session(e.id, e.now, 0, 0, 0)
            else
              && a in s.table.sessions
              && var before := s.table.sessions[a];
                 if e.Request? && e.addr == a then
                   after == Session(before.id, e.now, before.requests + 1, before.sent, before.received + e.bytes)
                 else if e.Response? && e.addr == a then after == before.(sent := before.sent + e.bytes)
                 else after == before
  {
    if e.Sweep? {
      SweptFewer(s.table, s.cleanup.addrs, a);
    }
  }

  /** Over every run, each session in the map says what has happened to it since its connection was accepted: so many requests,
      so many bytes each way, and the last activity. */
  lemma {:induction false} SessionTellsHistory(run: seq<State>, es: seq<Event>, k: nat, a: Addr) returns (j: nat)
    requires IsRun(run, es) && k <= |es| && a in run[k].table.sessions
    ensures Tells(run[k].table.sessions[a], es, a, j, k)
  {
    assert k > 0;
    assert StepAt(run, es, k - 1);
    hide Enabled, Next;
    var e := es[k - 1];
    SessionStep(run[k - 1], e, a);
    if e.Accept? && e.addr == a {
      j := k - 1;
    } else {
      j := SessionTellsHistory(run, es, k - 1, a);
    }
  }

  // ------------------------------------------------------------------ when nothing is displaced

  ghost predicate AtFreeAddress(run: seq<State>, es: seq<Event>, i: nat)
    requires i < |es| && |run| == |es| + 1
  {
    es[i].Accept? ==> es[i].addr !in run[i].table.sessions
  }

  lemma OnlyAcceptDisplaces(s: State, e: Event)
    requires Inv(s) && Enabled(s, e)
    ensures Next(s, e).displaced == s.displaced <==> (e.Accept? ==> e.addr !in s.table.sessions)
    ensures s.displaced <= Next(s, e).displaced
  {
    if e.Accept? {
      assert e.addr in [e.addr];
      if e.addr in s.table.sessions {
        var id := s.table.sessions[e.addr].id;
        assert id in MapIds(s.table);
        assert id in IdsAt(s.table, [e.addr]);
      } else {
        assert IdsAt(s.table, [e.addr]) == {};
      }
    }
  }

  /** A run displaces no session exactly when every connection it accepts comes from an address with no session in the map. */
  lemma {:induction false} NothingDisplacedIff(run: seq<State>, es: seq<Event>, k: nat)
    requires IsRun(run, es) && k <= |es|
    ensures run[k].displaced == {} <==> forall i | 0 <= i < k :: AtFreeAddress(run, es, i)
  {
    if k > 0 {
      NothingDisplacedIff(run, es, k - 1);
      RunInv(run, es, k - 1);
      assert StepAt(run, es, k - 1);
      hide Inv, Enabled, Next;
      OnlyAcceptDisplaces(run[k - 1], es[k - 1]);
      assert AtFreeAddress(run, es, k - 1) <==> run[k].displaced == run[k - 1].displaced;
    }
  }

  // ------------------------------------------------------------------ one live connection for an address

  /** No connection is accepted from an address that a live handler has. */
  ghost predicate DistinctAt(run: seq<State>, es: seq<Event>, i: nat)
    requires i < |es| && |run| == |es| + 1
  {
    es[i].Accept? ==> forall id :: id in run[i].handlers ==> run[i].handlers[id].addr != es[i].addr
  }

  /** A session in the map is that of the one live handler at its address. */
  ghost predicate OwnInv(s: State) {
    && (forall a :: a in s.table.sessions ==>
          s.table.sessions[a].id in s.handlers && s.handlers[s.table.sessions[a].id].addr == a)
    && (forall x, y :: x in s.handlers && y in s.handlers && s.handlers[x].addr == s.handlers[y].addr ==> x == y)
    && s.displaced == {}
  }

  lemma AcceptOwns(s: State, addr: Addr, id: Id, now: real)
    requires Inv(s) && id !in s.inserted && OwnInv(s)
    requires forall x :: x in s.handlers ==> s.handlers[x].addr != addr
    ensures OwnInv(Next(s, Accept(addr, id, now)))
  {
    assert id !in s.handlers;
    assert IdsAt(s.table, [addr]) == {};
    hide Accounted, EntriesInv, CleanupInv;
  }

  lemma CloseOwns(s: State, id: Id)
    requires OwnInv(s) && Enabled(s, Close(id))
    ensures OwnInv(Next(s, Close(id)))
  {
  }

  lemma SweepOwns(s: State)
    requires Inv(s) && OwnInv(s) && Enabled(s, Sweep)
    ensures OwnInv(Next(s, Sweep))
  {
    SweepKeeps(s.table, s.handlers, s.inserted, s.displaced, s.early, s.cleanup.addrs);
    hide Accounted, EntriesInv, CleanupInv;
  }

  lemma OthersOwn(s: State, e: Event)
    requires Enabled(s, e) && OwnInv(s) && (e.Start? || e.Request? || e.Response? || e.Scan?)
    ensures OwnInv(Next(s, e))
  {
  }

  lemma OwnKept(s: State, e: Event)
    requires Inv(s) && Enabled(s, e) && OwnInv(s)
    requires e.Accept? ==> forall id :: id in s.handlers ==> s.handlers[id].addr != e.addr
    ensures OwnInv(Next(s, e))
  {
    assert e.Accept? ==> e.id !in s.inserted;
    hide Inv, OwnInv, Next, Enabled;
    match e
    case Accept(addr, id, now) => AcceptOwns(s, addr, id, now);
    case Close(id) => CloseOwns(s, id);
    case Sweep => SweepOwns(s);
    case _ => OthersOwn(s, e);
  }

  lemma {:induction false} RunOwn(run: seq<State>, es: seq<Event>, k: nat)
    requires IsRun(run, es) && k <= |es| && forall i | 0 <= i < k :: DistinctAt(run, es, i)
    ensures OwnInv(run[k])
  {
    if k > 0 {
      RunOwn(run, es, k - 1);
      RunInv(run, es, k - 1);
      assert StepAt(run, es, k - 1) && DistinctAt(run, es, k - 1);
      hide Inv, Enabled, Next, OwnInv;
      OwnKept(run[k - 1], es[k - 1]);
    }
  }

  /** With distinct addresses of live connections, a handler that closes ends its own session, or none that is left. */
  lemma CloseEndsOwn(run: seq<State>, es: seq<Event>, k: nat)
    requires IsRun(run, es) && k < |es| && (forall i | 0 <= i < k :: DistinctAt(run, es, i)) && es[k].Close?
    ensures var t, t' := run[k].table, run[k + 1].table;
            t'.ended == t.ended + [es[k].id] || (t'.ended == t.ended && es[k].id in t.ended && t'.sessions == t.sessions)
  {
    RunOwn(run, es, k);
    RunInv(run, es, k);
    assert StepAt(run, es, k);
    var s, id := run[k], es[k].id;
    if s.handlers[id].addr !in s.table.sessions {
      assert id in s.inserted;
      assert forall a | a in s.table.sessions :: s.table.sessions[a].id != id;
    }
  }

  /** With distinct addresses of live connections, once every handler is done the map is empty, every session was ended
      once, and each has an entry in the collector, marked as ended unless its end came before its entry. */
  lemma AllEnded(run: seq<State>, es: seq<Event>, k: nat)
    requires IsRun(run, es) && k <= |es| && forall i | 0 <= i < k :: DistinctAt(run, es, i)
    requires run[k].handlers == map[]
    ensures var s := run[k];
            && s.table.sessions == map[] && Distinct(s.table.ended)
            && (forall id :: id in s.table.ended <==> id in s.inserted)
            && (forall id :: id in s.table.entries <==> id in s.inserted)
            && (forall id | id in s.inserted :: s.table.entries[id] <==> id !in s.early)
  {
    RunOwn(run, es, k);
    RunInv(run, es, k);
    assert MapIds(run[k].table) == {};
  }

  // ------------------------------------------------------------------ the cleanup

  /** What a sweep ends: exactly the ids at the addresses found, and these are sessions the scan saw idle exactly when
      none of the addresses has a session inserted since the scan. */
  lemma SweepEndsSeenIff(run: seq<State>, es: seq<Event>, k: nat)
    requires IsRun(run, es) && k < |es| && es[k].Sweep?
    ensures run[k].cleanup.Found?
    ensures var s, addrs := run[k], run[k].cleanup.addrs;
            && (forall id :: id in run[k + 1].table.ended <==> id in s.table.ended || id in IdsAt(s.table, addrs))
            && ((forall id | id in IdsAt(s.table, addrs) :: id in s.cleanup.saw.Values)
                <==> (forall a | a in addrs && a in s.table.sessions :: s.table.sessions[a].id in s.cleanup.known))
  {
    RunInv(run, es, k);
    assert StepAt(run, es, k);
    var s := run[k];
    var addrs := s.cleanup.addrs;
    SweepKeeps(s.table, s.handlers, s.inserted, s.displaced, s.early, addrs);
    forall a | a in addrs && a in s.table.sessions
      ensures s.table.sessions[a].id in s.cleanup.saw.Values <==> s.table.sessions[a].id in s.cleanup.known
    {
      if s.table.sessions[a].id in s.cleanup.known {
        assert a in s.cleanup.saw.Keys;
      }
    }
    assert forall a | a in addrs && a in s.table.sessions :: s.table.sessions[a].id in IdsAt(s.table, addrs);
  }

  /** The event puts a time of activity on whatever session is at the address from then on. */
  predicate Touches(e: Event, a: Addr) {
    (e.Accept? || e.Request?) && e.addr == a
  }

  /** Of the events after the `j`th and before the `k`th, the last that touches the address is within the threshold
      of `now`. */
  predicate FreshBy(es: seq<Event>, j: nat, k: nat, a: Addr, now: real)
    requires j < k <= |es|
    decreases k
  {
    if k == j + 1 then false
    else if Touches(es[k - 1], a) then now - es[k - 1].now <= INACTIVE
    else FreshBy(es, j, k - 1, a, now)
  }

  /** The `j`th event is a scan and the cleanup has not gone on to its sweep before the `k`th. */
  ghost predicate Between(es: seq<Event>, j: nat, k: nat) {
    j < k <= |es| && es[j].Scan? && forall i | j < i < k :: !es[i].Sweep?
  }

  ghost predicate IdleUnlessFresh(s: State, es: seq<Event>, j: nat, k: nat, a: Addr)
    requires Between(es, j, k)
  {
    a in s.table.sessions ==> (Idle(s.table.sessions[a], es[j].now) <==> !FreshBy(es, j, k, a, es[j].now))
  }

  lemma ScanFresh(s: State, es: seq<Event>, j: nat, a: Addr)
    requires Between(es, j, j + 1) && Enabled(s, es[j]) && a in es[j].addrs
    ensures IdleUnlessFresh(Next(s, es[j]), es, j, j + 1, a)
  {
  }

  lemma StepFresh(s: State, es: seq<Event>, j: nat, k: nat, a: Addr)
    requires Between(es, j, k + 1) && j < k && Enabled(s, es[k]) && s.cleanup.Found?
    requires Between(es, j, k) && IdleUnlessFresh(s, es, j, k, a)
    ensures IdleUnlessFresh(Next(s, es[k]), es, j, k + 1, a) && Next(s, es[k]).cleanup == s.cleanup
  {
  }

  lemma {:induction false} FreshRun(run: seq<State>, es: seq<Event>, j: nat, k: nat, a: Addr)
    requires IsRun(run, es) && Between(es, j, k) && a in es[j].addrs
    ensures run[k].cleanup.Found? && run[k].cleanup.addrs == es[j].addrs
    ensures IdleUnlessFresh(run[k], es, j, k, a)
    decreases k
  {
    assert StepAt(run, es, k - 1);
    if k == j + 1 {
      ScanFresh(run[j], es, j, a);
    } else {
      assert Between(es, j, k - 1);
      FreshRun(run, es, j, k - 1, a);
      hide Enabled, Next, IdleUnlessFresh;
      StepFresh(run[k - 1], es, j, k - 1, a);
    }
  }

  /** A sweep ends the session at an address that its scan found although it would not have been idle for that scan
      exactly when the last connection accepted from, or request made at, the address since the scan brought its
      activity within the threshold. */
  lemma SweepEndsIdleIff(run: seq<State>, es: seq<Event>, j: nat, k: nat, a: Addr)
    requires IsRun(run, es) && k < |es| && Between(es, j, k) && es[k].Sweep?
    requires a in es[j].addrs && a in run[k].table.sessions
    ensures run[k].table.sessions[a].id in run[k + 1].table.ended
    ensures Idle(run[k].table.sessions[a], es[j].now) <==> !FreshBy(es, j, k, a, es[j].now)
  {
    FreshRun(run, es, j, k, a);
    RunInv(run, es, k);
    assert StepAt(run, es, k);
    var s := run[k];
    SweepKeeps(s.table, s.handlers, s.inserted, s.displaced, s.early, s.cleanup.addrs);
    assert s.table.sessions[a].id in IdsAt(s.table, s.cleanup.addrs);
  }

  /** With a clock that does not go back, and no connection that was held up for the whole threshold between its clock
      reading and its insert, that is any connection or request at the address since the scan. */
  lemma {:induction false} FreshIsTouched(es: seq<Event>, j: nat, k: nat, a: Addr, now: real)
    requires j < k <= |es| && forall i | j < i < k && Touches(es[i], a) :: es[i].now >= now - INACTIVE
    ensures FreshBy(es, j, k, a, now) <==> exists i :: j < i < k && Touches(es[i], a)
    decreases k
  {
    if k > j + 1 {
      FreshIsTouched(es, j, k - 1, a, now);
    }
  }

  /** Of the sessions the sweep is about to end, each would still be idle for its scan. */
  ghost predicate EndsOnlyIdle(s: State, addrs: seq<Addr>, now: real) {
    forall a :: a in addrs && a in s.table.sessions ==> Idle(s.table.sessions[a], now)
  }

  /** Since the scan nothing has touched an address found that still has a session. */
  ghost predicate Untouched(s: State, es: seq<Event>, j: nat, k: nat)
    requires Between(es, j, k)
  {
    forall i, a :: j < i < k && a in es[j].addrs && a in s.table.sessions ==> !Touches(es[i], a)
  }

  /** With a clock that does not go back, and no connection held up between its clock reading and its insert for as long as
      the threshold, a sweep ends only sessions that were idle for its scan and still are exactly when
      no connection has come from an address found, and no request been made on its session, since the scan. */
  lemma SweepEndsOnlyIdleIff(run: seq<State>, es: seq<Event>, j: nat, k: nat)
    requires IsRun(run, es) && k < |es| && Between(es, j, k) && es[k].Sweep?
    requires forall i | j < i < k && (es[i].Accept? || es[i].Request?) :: es[i].now >= es[j].now - INACTIVE
    ensures run[k].cleanup.Found? && run[k].cleanup.addrs == es[j].addrs
    ensures EndsOnlyIdle(run[k], es[j].addrs, es[j].now) <==> Untouched(run[k], es, j, k)
  {
    assert StepAt(run, es, k);
    CleanupStays(run, es, j, k);
    forall a | a in es[j].addrs && a in run[k].table.sessions
      ensures Idle(run[k].table.sessions[a], es[j].now) <==> forall i | j < i < k :: !Touches(es[i], a)
    {
      FreshRun(run, es, j, k, a);
      FreshIsTouched(es, j, k, a, es[j].now);
    }
  }

  lemma {:induction false} CleanupStays(run: seq<State>, es: seq<Event>, j: nat, k: nat)
    requires IsRun(run, es) && Between(es, j, k)
    ensures run[k].cleanup.Found? && run[k].cleanup.addrs == es[j].addrs
    decreases k
  {
    assert StepAt(run, es, k - 1);
    if k > j + 1 {
      assert Between(es, j, k - 1);
      CleanupStays(run, es, j, k - 1);
    }
  }

  // A run with one address: its session is idle when the scan comes, and is another when the sweep comes.

  const OLD := Session(1, 0.0, 0, 0, 0)
  const NEW := Session(2, 121.0, 0, 0, 0)

  function EventOf(i: nat): Event
    requires i < 7
  {
    if i == 0 then Accept(0, 1, 0.0) else if i == 1 then Start(1) else if i == 2 then Scan(121.0, [0])
    else if i == 3 then Close(1) else if i == 4 then Accept(0, 2, 121.0) else if i == 5 then Start(2) else Sweep
  }

  function StateOf(i: nat): State
    requires i <= 7
  {
    var found := Found([0], map[0 := 1], {1});
    if i == 0 then Init()
    else if i == 1 then State(Table(map[0 := OLD], map[], []), map[1 := Handler(0, false)], NoCleanup, {1}, {}, {})
    else if i == 2 then State(Table(map[0 := OLD], map[1 := false], []), map[1 := Handler(0, true)], NoCleanup, {1}, {}, {})
    else if i == 3 then State(Table(map[0 := OLD], map[1 := false], []), map[1 := Handler(0, true)], found, {1}, {}, {})
    else if i == 4 then State(Table(map[], map[1 := true], [1]), map[], found, {1}, {}, {})
    else if i == 5 then
      State(Table(map[0 := NEW], map[1 := true], [1]), map[2 := Handler(0, false)], found, {1, 2}, {}, {})
    else if i == 6 then
      State(Table(map[0 := NEW], map[1 := true, 2 := false], [1]), map[2 := Handler(0, true)], found, {1, 2}, {}, {})
    else State(Table(map[], map[1 := true, 2 := true], [1, 2]), map[2 := Handler(0, true)], NoCleanup, {1, 2}, {}, {})
  }

  lemma AcceptsOf(i: nat)
    requires i == 0 || i == 1 || i == 4 || i == 5
    ensures Enabled(StateOf(i), EventOf(i)) && StateOf(i + 1) == Next(StateOf(i), EventOf(i))
  {
    var s := StateOf(i);
    assert IdsAt(s.table, [0]) == (if 0 in s.table.sessions then {s.table.sessions[0].id} else {});
  }

  lemma ScanOf()
    ensures Enabled(StateOf(2), EventOf(2)) && StateOf(3) == Next(StateOf(2), EventOf(2))
  {
    var t := StateOf(2).table;
    assert Idle(t.sessions[0], 121.0);
    assert Lists([0], t, 121.0);
    assert Saw(t, [0]) == map[0 := 1];
  }

  lemma CloseOf()
    ensures Enabled(StateOf(3), EventOf(3)) && StateOf(4) == Next(StateOf(3), EventOf(3))
  {
    var s := StateOf(3);
    assert 0 in [0] && s.table.sessions[0].id == 1;
    assert IdsAt(s.table, [0]) == {1};
    assert s.table.entries.Keys == {1};
    assert Removed(s.table, 0) == StateOf(4).table;
  }

  lemma SweepOf()
    ensures Enabled(StateOf(6), EventOf(6)) && StateOf(7) == Next(StateOf(6), EventOf(6))
  {
    var s := StateOf(6);
    SweptOne(s.table, 0);
    assert IdsAt(s.table, [0]) == {2};
    assert s.table.entries.Keys == {1, 2};
    assert Removed(s.table, 0) == StateOf(7).table;
  }

  /** The scan finds a session idle; its connection closes and another comes from the same address; the sweep then ends
      the new session, no second old, while its handler is live. */
  lemma ReusedAddressIsSwept() returns (run: seq<State>, es: seq<Event>)
    ensures IsRun(run, es) && |es| == 7 && forall i | 0 <= i < |es| :: DistinctAt(run, es, i)
    ensures es[6] == Sweep && run[6].table.sessions == map[0 := NEW] && run[6].cleanup == Found([0], map[0 := 1], {1})
    ensures 2 in run[7].handlers && 2 in run[7].table.ended && run[7].table.sessions == map[]
  {
    es := [EventOf(0), EventOf(1), EventOf(2), EventOf(3), EventOf(4), EventOf(5), EventOf(6)];
    run := [StateOf(0), StateOf(1), StateOf(2), StateOf(3), StateOf(4), StateOf(5), StateOf(6), StateOf(7)];
    forall i | 0 <= i < 7 ensures StepAt(run, es, i) {
      hide Next, Enabled, StateOf, EventOf;
      if i == 2 { ScanOf(); } else if i == 3 { CloseOf(); } else if i == 6 { SweepOf(); } else { AcceptsOf(i); }
    }
  }

  const BUSY := Session(1, 121.0, 1, 0, 10)

  lemma RequestOf()
    ensures Next(StateOf(3), Request(0, 10, 121.0)) == StateOf(3).(table := Table(map[0 := BUSY], map[1 := false], []))
  {
    assert map[0 := OLD][0 := BUSY] == map[0 := BUSY];
  }

  lemma SweepOfBusy(s: State)
    requires s == StateOf(3).(table := Table(map[0 := BUSY], map[1 := false], []))
    ensures Next(s, Sweep) == s.(table := Table(map[], map[1 := true], [1]), cleanup := NoCleanup)
  {
    SweptOne(s.table, 0);
    assert 0 in [0] && s.table.sessions[0].id == 1;
    assert IdsAt(s.table, [0]) == {1} && s.table.entries.Keys == {1};
    assert Removed(s.table, 0) == Table(map[], map[1 := true], [1]);
  }

  /** The scan finds a session idle; a request comes in on it; the sweep ends the session all the same, just active and
      its handler live. */
  lemma BusySessionIsSwept() returns (run: seq<State>, es: seq<Event>)
    ensures IsRun(run, es) && es == [Accept(0, 1, 0.0), Start(1), Scan(121.0, [0]), Request(0, 10, 121.0), Sweep]
    ensures run[4].table.sessions == map[0 := BUSY] && !Idle(BUSY, 121.0) && run[4].cleanup == Found([0], map[0 := 1], {1})
    ensures 1 in run[5].handlers && 1 in run[5].table.ended && run[5].table.sessions == map[]
  {
    es := [EventOf(0), EventOf(1), EventOf(2), Request(0, 10, 121.0), Sweep];
    var s4 := Next(StateOf(3), es[3]);
    run := [StateOf(0), StateOf(1), StateOf(2), StateOf(3), s4, Next(s4, Sweep)];
    RequestOf();
    SweepOfBusy(s4);
    AcceptsOf(0);
    AcceptsOf(1);
    ScanOf();
    forall i | 0 <= i < 5 ensures StepAt(run, es, i) {
      hide Next, EventOf;
    }
  }

  lemma SweptOne(t: Table, addr: Addr)
    ensures Swept(t, [addr]) == Removed(t, addr)
  {
    assert [addr][..0] == [];
  }

  // ------------------------------------------------------------------ the table as the server keeps it

  /** The session map, and the collector's entries beside it.  Each method is what is done under one lock. */
  class SessionTable {
    var sessions: map<Addr, Session>
    var entries: map<Id, bool>
    ghost var ended: seq<Id>        // the ids `end_connection` was called with
    ghost var inserted: set<Id>
    ghost var displaced: set<Id>    // those overwritten at their address

    ghost function View(): Table reads this { Table(sessions, entries, ended) }

    ghost predicate Valid() reads this { Accounted(View(), inserted, displaced) }

    constructor ()
      ensures Valid() && View() == Init().table && inserted == displaced == {}
    {
      sessions := map[];
      entries := map[];
      ended := [];
      inserted := {};
      displaced := {};
    }

    /** The new session takes the address, is safe from the cleanup for its time, and displaces the session that had it. */
    method Insert(addr: Addr, id: Id, now: real)
      requires Valid() && id !in inserted
      modifies this`sessions, this`inserted, this`displaced
      ensures Valid() && View() == Inserted(old(View()), addr, id, now)
      ensures inserted == old(inserted) + {id} && displaced == old(displaced) + IdsAt(old(View()), [addr])
      ensures addr in sessions && sessions[addr].id == id && forall t :: Idle(sessions[addr], t) <==> t > now + 120.0
      ensures forall a :: a != addr ==> (a in sessions <==> a in old(sessions))
      ensures forall a :: a != addr && a in sessions ==> sessions[a] == old(sessions)[a]
    {
      InsertAccounted(View(), inserted, displaced, addr, id, now);
      inserted := inserted + {id};
      displaced := displaced + IdsAt(View(), [addr]);
      sessions := sessions[addr := Session(id, now, 0, 0, 0)];
    }

    method StartConnection(id: Id)
      requires Valid()
      modifies this`entries
      ensures Valid() && View() == Started(old(View()), id)
    {
      entries := entries[id := false];
    }

    /** A request keeps the session at its address from the cleanup for the time that a new session has; no session
        comes or goes, and no other session is touched. */
    method OnRequest(addr: Addr, bytes: nat, now: real)
      requires Valid()
      modifies this`sessions
      ensures Valid() && View() == Requested(old(View()), addr, bytes, now)
      ensures sessions.Keys == old(sessions).Keys && MapIds(View()) == old(MapIds(View()))
      ensures addr in sessions ==> forall t :: Idle(sessions[addr], t) <==> t > now + 120.0
      ensures forall a :: a in sessions && a != addr ==> sessions[a] == old(sessions)[a]
    {
      ghost var was := View();
      if addr in sessions {
        var s := sessions[addr];
        sessions := sessions[addr := s.(lastActivity := now, requests := s.requests + 1, received := s.received + bytes)];
      }
      SameSessions(was, View(), inserted, displaced);
    }

    /** A response is counted, and is no activity: what the cleanup would find idle is as before. */
    method OnResponse(addr: Addr, bytes: nat)
      requires Valid()
      modifies this`sessions
      ensures Valid() && View() == Responded(old(View()), addr, bytes)
      ensures sessions.Keys == old(sessions).Keys && MapIds(View()) == old(MapIds(View()))
      ensures forall a, t :: a in sessions ==> (Idle(sessions[a], t) <==> Idle(old(sessions)[a], t))
      ensures forall a :: a in sessions ==> sessions[a].sent == old(sessions)[a].sent + if a == addr then bytes else 0
    {
      ghost var was := View();
      if addr in sessions {
        sessions := sessions[addr := sessions[addr].(sent := sessions[addr].sent + bytes)];
      }
      SameSessions(was, View(), inserted, displaced);
    }

    /** A stream from its request to its response, when nothing else comes between: an empty request is an error and leaves
        the table alone, and a response is counted only when it went out. */
    method HandleStream(addr: Addr, request: nat, response: nat, sent: bool, now: real) returns (ok: bool)
      requires Valid()
      modifies this`sessions
      ensures Valid() && ok == (request > 0 && sent)
      ensures request == 0 ==> sessions == old(sessions)
      ensures request > 0 && addr in old(sessions) ==>
                var s := old(sessions)[addr];
                sessions == old(sessions)[addr := Session(s.id, now, s.requests + 1, s.sent + if sent then response else 0,
                                                          s.received + request)]
      ensures addr !in old(sessions) ==> sessions == old(sessions)
    {
      if request == 0 {
        return false;
      }
      OnRequest(addr, request, now);
      if !sent {
        return false;
      }
      OnResponse(addr, response);
      ok := true;
    }

    method EndConnection(id: Id)
      modifies this`entries, this`ended
      ensures entries == (if id in old(entries) then old(entries)[id := true] else old(entries)) && ended == old(ended) + [id]
    {
      if id in entries {
        entries := entries[id := true];
      }
      ended := ended + [id];
    }

    method Remove(addr: Addr)
      requires Valid()
      modifies this`sessions, this`entries, this`ended
      ensures Valid() && View() == Removed(old(View()), addr)
    {
      RemoveAccounted(View(), inserted, displaced, addr);
      if addr in sessions {
        var session := sessions[addr];
        sessions := sessions - {addr};
        EndConnection(session.id);
      }
    }

    /** The first phase of the cleanup: nothing changes, and the idle sessions' addresses are listed. */
    method Scan(now: real) returns (found: seq<Addr>)
      ensures Lists(found, View(), now)
    {
      found := [];
      var left := sessions.Keys;
      while left != {}
        invariant left <= sessions.Keys && Distinct(found)
        invariant forall a :: a in found <==> a in sessions && a !in left && Idle(sessions[a], now)
        decreases left
      {
        var a :| a in left;
        if now - sessions[a].lastActivity > INACTIVE {
          found := found + [a];
        }
        left := left - {a};
      }
    }

    /** The second phase, all under the write lock. */
    method Sweep(found: seq<Addr>)
      requires Valid()
      modifies this`sessions, this`entries, this`ended
      ensures Valid() && View() == Swept(old(View()), found)
    {
      hide Accounted;
      ghost var was := View();
      for i := 0 to |found|
        invariant Valid() && View() == Swept(was, found[..i])
      {
        Remove(found[i]);
        assert found[..i + 1][..i] == found[..i];
      }
      assert found[..|found|] == found;
    }
  }
}
