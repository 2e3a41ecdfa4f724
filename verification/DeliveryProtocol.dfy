/** The delivery protocol of one agy session as a state machine: the state file and the
    daemon's cursor, moved by the hook events, by the waiters and by other owners of the
    scope. A waiter reads the file, decides on its copy and commits later; any other
    process may step in between. */
module DeliveryProtocol {
  import opened Common
  import opened Projection
  import opened WakeView
  import opened HookSpec
  import opened FlushSafety
  import opened OwedEvents

  /** How far a waiter's iteration got: it has read the file, polled, checked its
      generation, re-armed, read the file again, or found nothing injectable. */
  datatype Stage = Looked | Polled | Checked | Rearmed | Reread | Empty

  /** What a waiter holds between its steps: its copy of the file and what it re-armed. */
  datatype Memory = Memory(seen: Session, targets: set<int>, stage: Stage)

  datatype System = System(file: Session, cursor: int, memory: map<Waiter, Memory>)

  /** conn is None when the daemon cannot be reached or the registration fails; view is
      None when agent.list fails. */
  datatype Action =
    | PreInvocation(newTurn: bool, conn: Option<Conn>, view: Option<PeerView>, replies: Replies)
    | AbnormalStop
    | Stop(conn: Option<Conn>, transcript: Transcript, flushView: Option<PeerView>, flushReplies: Replies,
           refreshed: Option<Conn>, view: Option<PeerView>, replies: Replies, keepWaiter: bool, pid: Option<int>)
    | Look(waiter: Waiter)
    | Poll(waiter: Waiter, pollConn: Conn, view: Option<PeerView>, replies: Replies)
    | Check(waiter: Waiter)
    | RearmBatch(waiter: Waiter)
    | Clear(waiter: Waiter)
    | RecordWaiterPid(pid: Option<int>)
    | OtherAcks(upTo: int)

  ghost function FlushAt(y: System, a: Action): Flushed
    requires a.Stop? && a.conn.Some?
  {
    FlushAcks(y.file.(awaiting := true), y.cursor, a.conn.value, a.flushView, a.transcript, a.flushReplies, a.refreshed)
  }

  ghost function TakeAt(y: System, a: Action): Taken
    requires (a.PreInvocation? || a.Stop?) && a.conn.Some?
  {
    if a.PreInvocation? then Take(BeginTurn(y.file, a.newTurn), y.cursor, a.conn.value, a.view, {}, a.replies)
    else
      var f := FlushAt(y, a);
      Take(f.session, f.cursor, f.conn, a.view, f.withheld, a.replies)
  }

  ghost function PeekAt(y: System, a: Action): Peeked
    requires a.Poll? && a.waiter in y.memory
  {
    Peek(y.memory[a.waiter].seen, y.file, y.cursor, a.pollConn, a.view, a.waiter, a.replies)
  }

  predicate OfWaiter(a: Action) {
    a.Look? || a.Poll? || a.Check? || a.RearmBatch? || a.Clear?
  }

  /** The terminal of the session owns the scope, as far as the action asks. */
  predicate Owns(a: Action) {
    if a.PreInvocation? || a.Stop? then a.conn.Some? && IsLocalOwner(a.conn.value)
    else a.Poll? && IsLocalOwner(a.pollConn)
  }

  /** The memory of a waiter after its peek: it ends the iteration when it is superseded or
      prompts, and clears what it re-armed when the verification found no outcome. */
  function AfterPeek(m: Memory, seen: Session, result: PeekResult): Option<Memory> {
    if result.superseded || (m.stage.Reread? && result.hasOutcomes) then None
    else Some(Memory(seen, m.targets, if m.stage.Reread? then Empty else Polled))
  }

  function Remember(memory: map<Waiter, Memory>, waiter: Waiter, m: Option<Memory>): map<Waiter, Memory> {
    if m.Some? then memory[waiter := m.value] else memory - {waiter}
  }

  /** The standby loop reads the file when an iteration starts, where it ends if the turn
      moved on, and again after a re-arm. */
  function LookAgain(y: System, waiter: Waiter): Option<Memory> {
    if waiter in y.memory && y.memory[waiter].stage.Rearmed? then Some(Memory(y.file, y.memory[waiter].targets, Reread))
    else if y.file.turnEpoch.Some? && y.file.turnEpoch.value != waiter.epoch then None
    else Some(Memory(y.file, {}, Looked))
  }

  ghost function WaiterStep(y: System, a: Action): System
    requires OfWaiter(a) && (a.Look? || a.waiter in y.memory)
  {
    match a
    case Look(waiter) => y.(memory := Remember(y.memory, waiter, LookAgain(y, waiter)))
    case Poll(waiter, _, _, _) =>
      if !Owns(a) then y.(memory := y.memory - {waiter})
      else
        var p := PeekAt(y, a);
        System(p.file, p.cursor, Remember(y.memory, waiter, AfterPeek(y.memory[waiter], p.seen, p.result)))
    case Check(waiter) =>
      y.(memory := Remember(y.memory, waiter, if Superseded(y.file, waiter) then None else Some(y.memory[waiter].(stage := Checked))))
    case RearmBatch(waiter) =>
      var m := y.memory[waiter];
      System(Rearm(y.file), y.cursor, y.memory[waiter := Memory(m.seen, m.seen.delivered, Rearmed)])
    case Clear(waiter) =>
      System(ClearStale(y.file, waiter, y.memory[waiter].targets), y.cursor, y.memory - {waiter})
  }

  ghost function Step(y: System, a: Action): System {
    match a
    case PreInvocation(newTurn, conn, _, _) =>
      var begun := BeginTurn(y.file, newTurn);
      if conn.None? then y.(file := begun)
      else if !Owns(a) then y.(file := Disown(begun))
      else y.(file := if TakeAt(y, a).wrote then TakeAt(y, a).session else begun, cursor := TakeAt(y, a).cursor)
    case AbnormalStop => y.(file := AbandonTurn(y.file))
    case Stop(conn, _, _, _, _, _, _, keepWaiter, pid) =>
      if conn.None? then y
      else if !Owns(a) then y.(file := y.file.(awaiting := true))
      else y.(file := if keepWaiter then ParkWaiter(TakeAt(y, a).session, pid) else TakeAt(y, a).session, cursor := TakeAt(y, a).cursor)
    case RecordWaiterPid(pid) => y.(file := y.file.(waiterPid := pid))
    case OtherAcks(upTo) => y.(cursor := Max(y.cursor, upTo))
    case Look(_) => WaiterStep(y, a)
    case Poll(waiter, _, _, _) => if waiter in y.memory then WaiterStep(y, a) else y
    case Check(waiter) => if waiter in y.memory then WaiterStep(y, a) else y
    case RearmBatch(waiter) => if waiter in y.memory then WaiterStep(y, a) else y
    case Clear(waiter) => if waiter in y.memory then WaiterStep(y, a) else y
  }

  /** The ids the host is handed in this step. */
  ghost function BatchIds(y: System, a: Action): set<int> {
    if (a.PreInvocation? || a.Stop?) && Owns(a) && TakeAt(y, a).batch.Some? then IdsOf(TakeAt(y, a).batch.value) else {}
  }

  /** A waiter goes through its iteration in order. */
  predicate Enabled(y: System, a: Action) {
    OfWaiter(a) ==>
      || a.Look?
      || (a.waiter in y.memory &&
          match a
          case Poll(waiter, _, _, _) => y.memory[waiter].stage.Looked? || y.memory[waiter].stage.Reread?
          case Check(waiter) => y.memory[waiter].stage.Polled?
          case RearmBatch(waiter) => y.memory[waiter].stage.Checked?
          case Clear(waiter) => y.memory[waiter].stage.Empty?
          case _ => true)
  }

  /** A hook event is told the daemon's own cursor; a waiter works on an answer that others
      may have moved past. */
  ghost predicate Valid(y: System, a: Action) {
    && Enabled(y, a)
    && (Owns(a) ==>
          match a
          case PreInvocation(_, conn, _, _) => AckedId(conn.value) == y.cursor
          case Stop(conn, _, _, _, refreshed, _, _, _, _) =>
            && AckedId(conn.value) == y.cursor
            && (refreshed.Some? ==> AckedId(refreshed.value) == FlushAt(y, a).cursor)
          case Poll(_, conn, _, _) => AckedId(conn) <= y.cursor
          case _ => true)
  }

  ghost predicate IsRun(states: seq<System>, actions: seq<Action>) {
    && |states| == |actions| + 1
    && forall k | 0 <= k < |actions| :: Valid(states[k], actions[k]) && states[k + 1] == Step(states[k], actions[k])
  }

  /** The same as a recursion from a start: every action is valid where it happens. */
  ghost predicate RunFrom(y: System, actions: seq<Action>)
    decreases |actions|
  {
    actions != [] ==> Valid(y, actions[0]) && RunFrom(Step(y, actions[0]), actions[1..])
  }

  ghost function After(y: System, actions: seq<Action>): System
    decreases |actions|
  {
    if actions == [] then y else After(Step(y, actions[0]), actions[1..])
  }

  lemma {:induction false} RunStates(y: System, actions: seq<Action>) returns (states: seq<System>)
    requires RunFrom(y, actions)
    ensures IsRun(states, actions) && states[0] == y && states[|actions|] == After(y, actions)
    decreases |actions|
  {
    if actions == [] {
      states := [y];
    } else {
      var rest := RunStates(Step(y, actions[0]), actions[1..]);
      states := [y] + rest;
      forall k | 0 <= k < |actions| ensures Valid(states[k], actions[k]) && states[k + 1] == Step(states[k], actions[k]) {
        assert k > 0 ==> actions[k] == actions[1..][k - 1] && states[k] == rest[k - 1];
      }
    }
  }

  lemma {:induction false} RunConcat(y: System, first: seq<Action>, second: seq<Action>)
    requires RunFrom(y, first) && RunFrom(After(y, first), second)
    ensures RunFrom(y, first + second) && After(y, first + second) == After(After(y, first), second)
    decreases |first|
  {
    if first == [] {
      assert first + second == second;
    } else {
      RunConcat(Step(y, first[0]), first[1..], second);
      assert (first + second)[1..] == first[1..] + second;
    }
  }

  // ---------------------------------------------------------------------
  // Nothing owed is lost but by a race of a waiter
  // ---------------------------------------------------------------------

  ghost predicate OwedAt(y: System, x: int) {
    Owed(y.file, y.cursor, x)
  }

  /** Why a step may stop owing the event x: another owner has the scope or acknowledged
      past it, the transcript confirms the delivery (or cannot be read), the ack alone was
      parked before, or a view of the step puts x out of reach, suppresses it or crowds it
      out of the snapshot. */
  ghost predicate Excused(y: System, a: Action, x: int) {
    match a
    case PreInvocation(newTurn, conn, view, _) =>
      conn.Some? && (!Owns(a) || Released(BeginTurn(y.file, newTurn), y.file.delivered, conn.value, view, x))
    case Stop(conn, transcript, flushView, _, _, view, _, _, _) =>
      Owns(a) && (
        || Confirmed(y.file, transcript, x)
        || x in y.file.pendingAck - y.file.delivered
        || OutOfReach(y.file, conn.value, flushView, x)
        || JudgedSuppressed(y.file, conn.value, flushView, x)
        || Released(FlushAt(y, a).session, FlushAt(y, a).session.delivered, FlushAt(y, a).conn, view, x))
    case Poll(waiter, conn, view, _) =>
      Owns(a) && waiter in y.memory && Released(y.memory[waiter].seen, y.file.delivered, conn, view, x)
    case OtherAcks(upTo) => x <= upTo
    case _ => false
  }

  /** The acks of a superseded waiter's peek, which it sends before it notices, reach x. */
  ghost predicate AckedPast(y: System, a: Action, x: int)
    requires a.Poll? && a.waiter in y.memory
  {
    x <= PeekAt(y, a).cursor
  }

  /** A waiter commits what it decided on a copy that others have changed since: its peek
      goes by a copy that is behind on x, or it clears x although x was handed over again
      since its re-arm. */
  ghost predicate RaceLoses(y: System, a: Action, x: int) {
    match a
    case Poll(waiter, conn, _, _) =>
      && Owns(a) && waiter in y.memory
      && Stale(y.memory[waiter].seen, y.file, conn, x)
      && (Superseded(y.file, waiter) ==> AckedPast(y, a, x))
    case Clear(waiter) =>
      && waiter in y.memory && !Superseded(y.file, waiter)
      && x in y.memory[waiter].targets && x in y.file.delivered && x in y.file.presented
    case _ => false
  }

  lemma FlushedConnBelowCursor(y: System, a: Action)
    requires a.Stop? && Owns(a) && Valid(y, a)
    ensures y.cursor <= AckedId(FlushAt(y, a).conn) <= FlushAt(y, a).cursor
    ensures FlushAt(y, a).session.retained == y.file.retained
  {
    FlushBounds(y.file.(awaiting := true), y.cursor, a.conn.value, a.flushView, a.transcript, a.flushReplies, a.refreshed);
  }

  lemma OwnedPreInvocation(y: System, a: Action)
    requires a.PreInvocation? && Owns(a)
    ensures var t := Take(BeginTurn(y.file, a.newTurn), y.cursor, a.conn.value, a.view, {}, a.replies);
            && Step(y, a) == System(if t.wrote then t.session else BeginTurn(y.file, a.newTurn), t.cursor, y.memory)
            && BatchIds(y, a) == (if t.batch.Some? then IdsOf(t.batch.value) else {})
  {
  }

  lemma OwnedStop(y: System, a: Action)
    requires a.Stop? && Owns(a)
    ensures var f := FlushAt(y, a);
            var t := Take(f.session, f.cursor, f.conn, a.view, f.withheld, a.replies);
            && Step(y, a) == System(if a.keepWaiter then ParkWaiter(t.session, a.pid) else t.session, t.cursor, y.memory)
            && BatchIds(y, a) == (if t.batch.Some? then IdsOf(t.batch.value) else {})
  {
  }

  lemma UnwrittenTake(s: Session, cursor: int, conn: Conn, view: Option<PeerView>, withheld: set<int>, replies: Replies)
    ensures var t := Take(s, cursor, conn, view, withheld, replies);
            !t.wrote ==> t.batch.None? && t.cursor == cursor && t.session.delivered == s.delivered && t.session.pendingAck == s.pendingAck
  {
    if CandidateMap(s, conn, view) == map[] {
      UnwrittenKeepsDelivered(s, cursor, Eligible(conn, s.retained, view), PresentedAbove(s, conn), withheld);
    }
  }

  lemma UnwrittenKeepsDelivered(s: Session, cursor: int, eligible: Records, presented: set<int>, withheld: set<int>)
    ensures var t := TakeNothing(s, cursor, eligible, presented, withheld);
            !t.wrote ==> t.batch.None? && t.cursor == cursor && t.session.delivered == s.delivered && t.session.pendingAck == s.pendingAck
  {
  }

  lemma PreInvocationKeepsOwed(y: System, a: Action, x: int)
    requires a.PreInvocation? && Owns(a) && Valid(y, a)
    requires OwedAt(y, x) && !Excused(y, a, x)
    ensures OwedAt(Step(y, a), x)
  {
    var s := BeginTurn(y.file, a.newTurn);
    OwnedPreInvocation(y, a);
    TakeKeepsOwed(s, y.cursor, a.conn.value, a.view, {}, a.replies, x);
    UnwrittenTake(s, y.cursor, a.conn.value, a.view, {}, a.replies);
  }

  lemma FlushAtKeepsOwed(y: System, a: Action, x: int)
    requires a.Stop? && Owns(a) && Valid(y, a)
    requires OwedAt(y, x) && !Excused(y, a, x)
    ensures Owed(FlushAt(y, a).session, FlushAt(y, a).cursor, x)
  {
    var s := y.file.(awaiting := true);
    assert PresentedAbove(s, a.conn.value) == PresentedAbove(y.file, a.conn.value);
    FlushKeepsOwed(s, y.cursor, a.conn.value, a.flushView, a.transcript, a.flushReplies, a.refreshed, x);
  }

  lemma StopKeepsOwed(y: System, a: Action, x: int)
    requires a.Stop? && Owns(a) && Valid(y, a)
    requires OwedAt(y, x) && !Excused(y, a, x)
    ensures OwedAt(Step(y, a), x)
  {
    var f := FlushAt(y, a);
    OwnedStop(y, a);
    FlushAtKeepsOwed(y, a, x);
    FlushedConnBelowCursor(y, a);
    TakeKeepsOwed(f.session, f.cursor, f.conn, a.view, f.withheld, a.replies, x);
  }

  lemma PollIsPeek(y: System, a: Action)
    requires a.Poll? && Owns(a) && a.waiter in y.memory
    ensures var p := PeekAt(y, a);
            Step(y, a) == System(p.file, p.cursor, Remember(y.memory, a.waiter, AfterPeek(y.memory[a.waiter], p.seen, p.result)))
  {
  }

  lemma PollKeepsOwedExactly(y: System, a: Action, x: int)
    requires a.Poll? && Owns(a) && Valid(y, a)
    requires OwedAt(y, x) && !Excused(y, a, x)
    ensures OwedAt(Step(y, a), x) <==> !RaceLoses(y, a, x)
  {
    var seen := y.memory[a.waiter].seen;
    PollIsPeek(y, a);
    if !Stale(seen, y.file, a.pollConn, x) {
      PeekKeepsOwed(seen, y.file, y.cursor, a.pollConn, a.view, a.waiter, a.replies, x);
    } else if Superseded(y.file, a.waiter) {
      SupersededPeek(seen, y.file, y.cursor, a.pollConn, a.view, a.waiter, a.replies);
    } else {
      PeekLosesStale(seen, y.file, y.cursor, a.pollConn, a.view, a.waiter, a.replies, x);
    }
  }

  /** One step of any kind that has no reason to let an owed event go keeps it owed, if and
      only if it is not a waiter's commit that lost a race for it. */
  lemma StepKeepsOwedExactly(y: System, a: Action, x: int)
    requires Valid(y, a)
    requires OwedAt(y, x) && !Excused(y, a, x)
    ensures OwedAt(Step(y, a), x) <==> !RaceLoses(y, a, x)
  {
    if a.PreInvocation? && Owns(a) {
      PreInvocationKeepsOwed(y, a, x);
    } else if a.Stop? && Owns(a) {
      StopKeepsOwed(y, a, x);
    } else if a.Poll? && Owns(a) {
      PollKeepsOwedExactly(y, a, x);
    } else if a.Clear? {
      ClearKeepsOwedExactly(y.file, y.cursor, a.waiter, y.memory[a.waiter].targets, x);
    } else {
      PlainStepKeepsOwed(y, a, x);
    }
  }

  lemma PlainStepKeepsOwed(y: System, a: Action, x: int)
    requires !Owns(a) && !a.Clear? && OwedAt(y, x) && !Excused(y, a, x)
    ensures OwedAt(Step(y, a), x)
  {
    if OfWaiter(a) && a.waiter in y.memory {
      assert a.RearmBatch? ==> Owed(Rearm(y.file), y.cursor, x);
    }
  }

  /** Over every run: an event owed at some point is still owed later, unless one of the
      steps in between had a reason to let it go or was a waiter that lost a race for it. */
  lemma {:induction false} NothingOwedIsLost(states: seq<System>, actions: seq<Action>, i: nat, j: nat, x: int)
    requires IsRun(states, actions) && i <= j < |states|
    requires OwedAt(states[i], x)
    ensures OwedAt(states[j], x) || exists k :: i <= k < j && (Excused(states[k], actions[k], x) || RaceLoses(states[k], actions[k], x))
    decreases j - i
  {
    if i < j {
      if Excused(states[i], actions[i], x) || RaceLoses(states[i], actions[i], x) {
      } else {
        StepKeepsOwedExactly(states[i], actions[i], x);
        NothingOwedIsLost(states, actions, i + 1, j, x);
      }
    }
  }
}
