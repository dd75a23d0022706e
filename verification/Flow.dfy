/**
 One TCP flow of a probe run: its `ConnState`, the task that connects and then reads, and the writer task.
 A step is one operation on the shared atomics, one clock reading, or one decision.  What
 `Frame::read` and `Frame::write` return is left open here; EchoPipeline says what it can be.
 */
module Flow {

  /** The section around `disconnected.swap`, the same in the reader and the writer. */
  datatype Alarm = CheckFlag | CheckDeadline | Swap | Add

  datatype TaskPc =
    | Connecting
    | Up                  // `connected` stored, clock not yet read
    | UpAt(t: nat)        // clock read, `last_recv_ms` not yet stored
    | Reading             // in `Frame::read`
    | GotFrame(len: nat)
    | Counted
    | At(t: nat)          // clock read for this frame, not yet stored
    | Stamped
    | Marked              // `first_recv` stored, `in_stall` not yet cleared
    | Raising(alarm: Alarm)
    | JoiningWriter
    | Joined

  datatype WriterPc = NotSpawned | Loop | Sending | Sent | WRaising(alarm: Alarm) | WriterJoined

  datatype Flow = Flow(
    connected: bool, firstRecv: bool, lastRecvMs: nat, bytesSent: nat, bytesRecv: nat,
    disconnected: bool, inStall: bool,
    task: TaskPc, writer: WriterPc,
    stamps: seq<nat>,     // every value stored into `last_recv_ms`, in order
    marks: nat,           // swaps that turned `in_stall` on
    clears: nat,          // stores that turned `in_stall` off
    markSeen: nat,        // of the last swap that turned it on: the stamps at the watchdog's look
    markedAt: nat)        // and those at the swap itself

  const NEW_FLOW := Flow(false, false, 0, 0, 0, false, false, Connecting, NotSpawned, [], 0, 0, 0, 0)

  /** What a task can see besides its own flow. */
  datatype Env = Env(clock: nat, deadline: nat, windingDown: bool)

  /** What a step adds to `midstream_disconnects` and to `connect_failed`. */
  datatype Effect = Effect(mid: nat, fail: nat)
  const QUIET := Effect(0, 0)

  // ------------------------------------------------------------------ steps

  ghost predicate ConnectStep(e: Env, f: Flow, f': Flow, eff: Effect) {
    match f.task
    case Connecting =>
      || (f' == f.(task := Joined) && eff == Effect(0, 1))
      || (f' == f.(task := Up, connected := true) && eff == QUIET)
    case Up => f' == f.(task := UpAt(e.clock)) && eff == QUIET
    case UpAt(t) =>
      f' == f.(task := Reading, writer := Loop, lastRecvMs := t, stamps := f.stamps + [t]) && eff == QUIET
    case _ => false
  }

  ghost predicate ReadStep(e: Env, f: Flow, f': Flow, eff: Effect) {
    && eff == QUIET
    && match f.task
       case Reading =>
         f' == f.(task := Raising(CheckFlag)) || exists len: nat :: len > 0 && f' == f.(task := GotFrame(len))
       case GotFrame(len) => f' == f.(task := Counted, bytesRecv := f.bytesRecv + len)
       case Counted => f' == f.(task := At(e.clock))
       case At(t) => f' == f.(task := Stamped, lastRecvMs := t, stamps := f.stamps + [t])
       case Stamped => f' == f.(task := Marked, firstRecv := true)
       case Marked => f' == f.(task := Reading, inStall := false, clears := f.clears + if f.inStall then 1 else 0)
       case JoiningWriter => f.writer == WriterJoined && f' == f.(task := Joined)
       case _ => false
  }

  /** The guard `!winding_down && now < deadline`, then the swap, then the count. */
  ghost predicate ReaderAlarm(e: Env, f: Flow, f': Flow, eff: Effect) {
    && f.task.Raising?
    && match f.task.alarm
       case CheckFlag =>
         f' == f.(task := if e.windingDown then JoiningWriter else Raising(CheckDeadline)) && eff == QUIET
       case CheckDeadline =>
         f' == f.(task := if e.clock >= e.deadline then JoiningWriter else Raising(Swap)) && eff == QUIET
       case Swap =>
         f' == f.(task := if f.disconnected then JoiningWriter else Raising(Add), disconnected := true) && eff == QUIET
       case Add =>
         f' == f.(task := JoiningWriter) && eff == Effect(1, 0)
  }

  ghost predicate WriterAlarm(e: Env, f: Flow, f': Flow, eff: Effect) {
    && f.writer.WRaising?
    && match f.writer.alarm
       case CheckFlag =>
         f' == f.(writer := if e.windingDown then WriterJoined else WRaising(CheckDeadline)) && eff == QUIET
       case CheckDeadline =>
         f' == f.(writer := if e.clock >= e.deadline then WriterJoined else WRaising(Swap)) && eff == QUIET
       case Swap =>
         f' == f.(writer := if f.disconnected then WriterJoined else WRaising(Add), disconnected := true) && eff == QUIET
       case Add =>
         f' == f.(writer := WriterJoined) && eff == Effect(1, 0)
  }

  ghost predicate WriteStep(e: Env, f: Flow, f': Flow, eff: Effect, frameLen: nat) {
    && eff == QUIET
    && match f.writer
       case Loop => f' == f.(writer := if e.clock < e.deadline then Sending else WriterJoined)
       case Sending => f' == f.(writer := Sent) || f' == f.(writer := WRaising(CheckFlag))
       case Sent => f' == f.(writer := Loop, bytesSent := f.bytesSent + frameLen)
       case _ => false
  }

  ghost predicate FlowStep(e: Env, f: Flow, f': Flow, eff: Effect, frameLen: nat) {
    || ConnectStep(e, f, f', eff)
    || ReadStep(e, f, f', eff)
    || ReaderAlarm(e, f, f', eff)
    || WriterAlarm(e, f, f', eff)
    || WriteStep(e, f, f', eff, frameLen)
  }

  // ------------------------------------------------------------------ what a step changes

  /** The clock reading that a task holds but has not stored yet. */
  predicate HoldsStamp(task: TaskPc) { task.At? || task.UpAt? }

  /** A step stores the held stamp, or leaves the stamps alone; a stamp taken is the clock. */
  ghost predicate StampEffect(clock: nat, f: Flow, f': Flow) {
    || (&& HoldsStamp(f.task) && !HoldsStamp(f'.task)
        && f'.stamps == f.stamps + [f.task.t] && f'.lastRecvMs == f.task.t)
    || (&& f'.stamps == f.stamps && f'.lastRecvMs == f.lastRecvMs
        && (HoldsStamp(f'.task) ==> f'.task == f.task || (!HoldsStamp(f.task) && f'.task.t == clock))
        && (HoldsStamp(f.task) ==> f'.task == f.task))
  }

  /** `in_stall` is only ever cleared by the flow's own task. */
  ghost predicate StallEffect(f: Flow, f': Flow) {
    && f'.marks == f.marks && f'.markSeen == f.markSeen && f'.markedAt == f.markedAt
    && (|| (f'.inStall == f.inStall && f'.clears == f.clears)
        || (!f'.inStall && f'.clears == f.clears + if f.inStall then 1 else 0))
  }

  ghost predicate Grows(f: Flow, f': Flow) {
    && f.bytesSent <= f'.bytesSent && f.bytesRecv <= f'.bytesRecv
    && (f.connected ==> f'.connected) && (f.disconnected ==> f'.disconnected)
    && (f.firstRecv ==> f'.firstRecv)
  }

  ghost predicate CountEffect(f: Flow, f': Flow, eff: Effect) {
    && Broken(f') + PendingAdds(f) == Broken(f) + PendingAdds(f') + eff.mid
    && GaveUp(f') == GaveUp(f) + eff.fail
  }

  /** Tasks of the flow that stand between the swap and the count. */
  function PendingAdds(f: Flow): nat {
    (if f.task == Raising(Add) then 1 else 0) + (if f.writer == WRaising(Add) then 1 else 0)
  }

  function Broken(f: Flow): nat { if f.disconnected then 1 else 0 }

  /** The flow's task has counted a connect failure. */
  function GaveUp(f: Flow): nat { if f.task == Joined && !f.connected then 1 else 0 }

  // ------------------------------------------------------------------ invariant of one flow

  ghost predicate StampsInv(clock: nat, f: Flow) {
    && (forall i, j :: 0 <= i < j < |f.stamps| ==> f.stamps[i] <= f.stamps[j])
    && (forall i :: 0 <= i < |f.stamps| ==> f.stamps[i] <= clock)
    && (f.stamps != [] ==> f.lastRecvMs == f.stamps[|f.stamps| - 1])
    && (HoldsStamp(f.task) ==> f.task.t <= clock && forall i :: 0 <= i < |f.stamps| ==> f.stamps[i] <= f.task.t)
  }

  /** Before the connection is up, and on a flow that never comes up, nothing has happened. */
  ghost predicate ControlInv(f: Flow) {
    && (!f.connected ==> (f.task == Connecting || f.task == Joined) && f.bytesRecv == 0 && !f.disconnected && !f.firstRecv)
    && (f.connected ==> f.task != Connecting)
    && (f.writer == NotSpawned <==> f.task == Connecting || f.task == Up || f.task.UpAt? || !f.connected)
    && (f.connected && f.task == Joined ==> f.writer == WriterJoined)
    && (f.writer != NotSpawned ==> f.stamps != [])
    && (f.firstRecv ==> f.writer != NotSpawned)
    && (f.task.GotFrame? ==> f.task.len > 0)
    && (f.firstRecv || f.task == Counted || f.task.At? || f.task == Stamped || f.task == Marked ==> f.bytesRecv > 0)
  }

  ghost predicate AlarmInv(f: Flow) {
    PendingAdds(f) <= Broken(f)
  }

  ghost predicate StallInv(f: Flow) {
    f.marks == f.clears + if f.inStall then 1 else 0
  }

  ghost predicate FlowInv(clock: nat, f: Flow) {
    ControlInv(f) && AlarmInv(f) && StallInv(f) && StampsInv(clock, f)
  }

  lemma NewFlowInv(clock: nat)
    ensures FlowInv(clock, NEW_FLOW) && PendingAdds(NEW_FLOW) == Broken(NEW_FLOW) == GaveUp(NEW_FLOW) == 0
  {
  }

  lemma ConnectEffects(e: Env, f: Flow, f': Flow, eff: Effect)
    requires ControlInv(f) && AlarmInv(f) && ConnectStep(e, f, f', eff)
    ensures ControlInv(f') && AlarmInv(f') && CountEffect(f, f', eff)
    ensures StampEffect(e.clock, f, f') && StallEffect(f, f') && Grows(f, f')
  {
  }

  lemma ReadEffects(e: Env, f: Flow, f': Flow, eff: Effect)
    requires ControlInv(f) && AlarmInv(f) && ReadStep(e, f, f', eff)
    ensures ControlInv(f') && AlarmInv(f') && CountEffect(f, f', eff)
    ensures StampEffect(e.clock, f, f') && StallEffect(f, f') && Grows(f, f')
  {
  }

  lemma ReaderAlarmEffects(e: Env, f: Flow, f': Flow, eff: Effect)
    requires ControlInv(f) && AlarmInv(f) && ReaderAlarm(e, f, f', eff)
    ensures ControlInv(f') && AlarmInv(f') && CountEffect(f, f', eff)
    ensures StampEffect(e.clock, f, f') && StallEffect(f, f') && Grows(f, f')
  {
  }

  lemma WriterAlarmEffects(e: Env, f: Flow, f': Flow, eff: Effect)
    requires ControlInv(f) && AlarmInv(f) && WriterAlarm(e, f, f', eff)
    ensures ControlInv(f') && AlarmInv(f') && CountEffect(f, f', eff)
    ensures StampEffect(e.clock, f, f') && StallEffect(f, f') && Grows(f, f')
  {
  }

  lemma WriteEffects(e: Env, f: Flow, f': Flow, eff: Effect, frameLen: nat)
    requires ControlInv(f) && AlarmInv(f) && WriteStep(e, f, f', eff, frameLen)
    ensures ControlInv(f') && AlarmInv(f') && CountEffect(f, f', eff)
    ensures StampEffect(e.clock, f, f') && StallEffect(f, f') && Grows(f, f')
  {
  }

  lemma StampsKept(clock: nat, f: Flow, f': Flow)
    requires StampsInv(clock, f) && StampEffect(clock, f, f')
    ensures StampsInv(clock, f')
  {
  }

  /** Every step keeps the flow's invariant, and its effect on the run's two counters matches
      what it does to the flow. */
  lemma FlowKeeps(e: Env, f: Flow, f': Flow, eff: Effect, frameLen: nat)
    requires FlowInv(e.clock, f) && FlowStep(e, f, f', eff, frameLen)
    ensures FlowInv(e.clock, f') && CountEffect(f, f', eff)
    ensures StampEffect(e.clock, f, f') && StallEffect(f, f') && Grows(f, f')
  {
    if ConnectStep(e, f, f', eff) {
      ConnectEffects(e, f, f', eff);
    } else if ReadStep(e, f, f', eff) {
      ReadEffects(e, f, f', eff);
    } else if WriteStep(e, f, f', eff, frameLen) {
      WriteEffects(e, f, f', eff, frameLen);
    } else if ReaderAlarm(e, f, f', eff) {
      ReaderAlarmEffects(e, f, f', eff);
    } else {
      WriterAlarmEffects(e, f, f', eff);
    }
    StampsKept(e.clock, f, f');
  }

  lemma ClockKeeps(clock: nat, clock': nat, f: Flow)
    requires FlowInv(clock, f) && clock <= clock'
    ensures FlowInv(clock', f)
  {
  }
}
