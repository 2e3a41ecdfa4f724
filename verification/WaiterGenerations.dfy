/** Turns, waiters and re-arms: the epochs that decide which waiter process may still act
    on a session, and the re-arm of a parked session after a daemon restart. */
module WaiterGenerations {
  import opened Common
  import opened Projection
  import opened WakeView
  import opened HookSpec
  import opened OwedEvents
  import opened DeliveryProtocol

  function TurnNumber(s: Session): nat {
    if s.turnEpoch.Some? then s.turnEpoch.value else 0
  }

  /** A recorded waiter epoch is the turn's own. */
  predicate EpochsAgree(s: Session) {
    s.waiterEpoch.Some? ==> s.waiterEpoch == s.turnEpoch
  }

  predicate SameGeneration(a: Session, b: Session) {
    a.turnEpoch == b.turnEpoch && a.waiterEpoch == b.waiterEpoch && a.waiterPid == b.waiterPid && a.awaiting == b.awaiting
  }

  // ---------------------------------------------------------------------
  // No operation on the batch touches the generation
  // ---------------------------------------------------------------------

  lemma TakeKeepsGeneration(s: Session, cursor: int, conn: Conn, view: Option<PeerView>, withheld: set<int>, replies: Replies)
    ensures SameGeneration(Take(s, cursor, conn, view, withheld, replies).session, s)
  {
    var presented, eligible, list := PresentedAbove(s, conn), Eligible(conn, s.retained, view), CandidateList(s, conn, view);
    if CandidateMap(s, conn, view) == map[] {
      TakeNothingKeepsGeneration(s, cursor, eligible, presented, withheld);
    } else if OutcomesOf(list, Working(view)) == [] {
      TakeSuppressedKeepsGeneration(s, cursor, eligible, presented, list, Working(view), replies);
    } else {
      TakeBatchKeepsGeneration(s, cursor, eligible, presented, list, Working(view));
    }
  }

  lemma TakeNothingKeepsGeneration(s: Session, cursor: int, eligible: Records, presented: set<int>, withheld: set<int>)
    ensures SameGeneration(TakeNothing(s, cursor, eligible, presented, withheld).session, s)
  {
  }

  lemma TakeSuppressedKeepsGeneration(s: Session, cursor: int, eligible: Records, presented: set<int>, list: seq<Event>, working: set<string>, replies: Replies)
    ensures SameGeneration(TakeSuppressed(s, cursor, eligible, presented, list, working, replies).session, s)
  {
  }

  lemma TakeBatchKeepsGeneration(s: Session, cursor: int, eligible: Records, presented: set<int>, list: seq<Event>, working: set<string>)
    ensures SameGeneration(TakeBatch(s, cursor, eligible, presented, list, working).session, s)
  {
  }

  lemma FlushKeepsGeneration(s: Session, cursor: int, conn: Conn, view: Option<PeerView>, transcript: Transcript, replies: Replies, refreshed: Option<Conn>)
    ensures SameGeneration(FlushAcks(s, cursor, conn, view, transcript, replies, refreshed).session, s)
  {
  }

  lemma PeekKeepsGeneration(seen: Session, file: Session, cursor: int, conn: Conn, view: Option<PeerView>, waiter: Waiter, replies: Replies)
    ensures SameGeneration(Peek(seen, file, cursor, conn, view, waiter, replies).file, file)
  {
    var eligible, list, presented := Eligible(conn, seen.retained, view), CandidateList(seen, conn, view), PresentedAbove(seen, conn);
    if CandidateMap(seen, conn, view) == map[] {
      PeekWithoutCandidates(seen, file, cursor, conn, view, waiter, replies);
      PeekNothingKeepsGeneration(seen, file, cursor, eligible, presented);
    } else {
      PeekWriteKeepsGeneration(seen, file, conn, eligible, DeferredIds(list, Working(view)),
                               PeekSettling(list, Working(view), seen.delivered + file.delivered, presented, cursor, replies),
                               OutcomesOf(list, Working(view)) != [], waiter);
    }
  }

  lemma PeekNothingKeepsGeneration(seen: Session, file: Session, cursor: int, eligible: Records, presented: set<int>)
    ensures SameGeneration(PeekNothing(seen, file, cursor, eligible, presented).file, file)
  {
  }

  lemma PeekWriteKeepsGeneration(seen: Session, file: Session, conn: Conn, eligible: Records, deferred: set<int>, t: Settling, hasOutcomes: bool, waiter: Waiter)
    ensures SameGeneration(PeekWrite(seen, file, conn, eligible, deferred, t, hasOutcomes, waiter).file, file)
  {
  }

  /** A superseded waiter leaves the state file as it is, whatever it does, but for one
      case: a re-arm commits what its earlier check allowed without checking again. Its
      other steps end it. */
  lemma SupersededWaiterWritesNothing(y: System, a: Action)
    requires OfWaiter(a) && Enabled(y, a) && Superseded(y.file, a.waiter)
    ensures Step(y, a).file == if a.RearmBatch? then Rearm(y.file) else y.file
    ensures a.Poll? || a.Check? || a.Clear? ==> a.waiter !in Step(y, a).memory
  {
    if a.Poll? && Owns(a) {
      PollIsPeek(y, a);
      SupersededPeek(y.memory[a.waiter].seen, y.file, y.cursor, a.pollConn, a.view, a.waiter, a.replies);
    }
  }

  // ---------------------------------------------------------------------
  // Epochs over whole runs
  // ---------------------------------------------------------------------

  lemma OwnedTurnGeneration(y: System, a: Action)
    requires (a.PreInvocation? || a.Stop?) && Owns(a)
    ensures a.PreInvocation? ==> SameGeneration(Step(y, a).file, BeginTurn(y.file, a.newTurn))
    ensures a.Stop? && !a.keepWaiter ==> SameGeneration(Step(y, a).file, y.file.(awaiting := true))
    ensures a.Stop? && a.keepWaiter ==>
      SameGeneration(Step(y, a).file, ParkWaiter(y.file.(awaiting := true), a.pid))
  {
    if a.PreInvocation? {
      OwnedPreInvocation(y, a);
      TakeKeepsGeneration(BeginTurn(y.file, a.newTurn), y.cursor, a.conn.value, a.view, {}, a.replies);
    } else {
      var f := FlushAt(y, a);
      OwnedStop(y, a);
      FlushKeepsGeneration(y.file.(awaiting := true), y.cursor, a.conn.value, a.flushView, a.transcript, a.flushReplies, a.refreshed);
      TakeKeepsGeneration(f.session, f.cursor, f.conn, a.view, f.withheld, a.replies);
    }
  }

  /** One step: the epochs go on agreeing, the turn number never falls, and whatever
      changes the waiter's epoch raises it. */
  lemma StepEpochs(y: System, a: Action)
    ensures EpochsAgree(y.file) ==> EpochsAgree(Step(y, a).file)
    ensures TurnNumber(y.file) <= TurnNumber(Step(y, a).file)
    ensures y.file.turnEpoch.Some? ==> Step(y, a).file.turnEpoch.Some?
    ensures Step(y, a).file.waiterEpoch.Some? && Step(y, a).file.waiterEpoch != y.file.waiterEpoch ==>
              TurnNumber(y.file) < TurnNumber(Step(y, a).file)
  {
    if (a.PreInvocation? || a.Stop?) && Owns(a) {
      OwnedTurnGeneration(y, a);
    } else if a.Poll? && Owns(a) && a.waiter in y.memory {
      PollIsPeek(y, a);
      PeekKeepsGeneration(y.memory[a.waiter].seen, y.file, y.cursor, a.pollConn, a.view, a.waiter, a.replies);
    } else if OfWaiter(a) {
      PlainWaiterStep(y, a);
    }
  }

  lemma PlainWaiterStep(y: System, a: Action)
    requires OfWaiter(a) && (a.Poll? ==> !Owns(a) || a.waiter !in y.memory)
    ensures SameGeneration(Step(y, a).file, y.file)
  {
  }

  ghost predicate Follows(states: seq<System>, actions: seq<Action>) {
    |states| == |actions| + 1 && forall k | 0 <= k < |actions| :: states[k + 1] == Step(states[k], actions[k])
  }

  lemma {:induction false} EpochsNeverFall(states: seq<System>, actions: seq<Action>, i: nat, j: nat)
    requires Follows(states, actions) && i <= j < |states|
    ensures TurnNumber(states[i].file) <= TurnNumber(states[j].file)
    ensures states[i].file.turnEpoch.Some? ==> states[j].file.turnEpoch.Some?
    ensures EpochsAgree(states[i].file) ==> EpochsAgree(states[j].file)
    decreases j - i
  {
    if i < j {
      StepEpochs(states[i], actions[i]);
      EpochsNeverFall(states, actions, i + 1, j);
    }
  }

  /** Once a turn moved past its epoch, a waiter is superseded in every later state. */
  lemma OldWaiterStaysSuperseded(states: seq<System>, actions: seq<Action>, i: nat, j: nat, waiter: Waiter)
    requires Follows(states, actions) && i <= j < |states|
    requires states[i].file.turnEpoch.Some? && waiter.epoch < states[i].file.turnEpoch.value
    ensures Superseded(states[j].file, waiter)
  {
    EpochsNeverFall(states, actions, i, j);
  }

  // ---------------------------------------------------------------------
  // Parked generations
  // ---------------------------------------------------------------------

  /** What a re-arm read: a parked session, its effective epoch and waiter pid. */
  datatype Generation = Generation(awaiting: bool, epoch: nat, pid: Option<int>)

  function EffectiveEpoch(s: Session): nat {
    if s.waiterEpoch.Some? then s.waiterEpoch.value else TurnNumber(s)
  }

  /** stateMatchesGeneration */
  predicate Matches(s: Session, g: Generation) {
    g.awaiting && s.awaiting && EffectiveEpoch(s) == g.epoch && s.waiterPid == g.pid
  }

  function Parked(s: Session): Generation {
    Generation(s.awaiting, EffectiveEpoch(s), s.waiterPid)
  }

  /** A parked generation that a later step left behind by a new epoch never matches
      again. */
  lemma LeftGenerationNeverMatches(states: seq<System>, actions: seq<Action>, i: nat, k: nat, j: nat, g: Generation)
    requires Follows(states, actions) && i <= k < j < |states|
    requires EpochsAgree(states[i].file) && Matches(states[i].file, g)
    requires TurnNumber(states[k].file) < TurnNumber(states[k + 1].file)
    ensures !Matches(states[j].file, g)
  {
    EpochsNeverFall(states, actions, i, k);
    EpochsNeverFall(states, actions, k + 1, j);
    EpochsNeverFall(states, actions, i, j);
  }

  /** Every turn that starts on a parked session, and every Stop that keeps a waiter, is
      such a step. */
  lemma NewTurnLeavesGeneration(y: System, a: Action)
    requires (a.PreInvocation? && y.file.awaiting) || (a.Stop? && Owns(a) && a.keepWaiter)
    ensures TurnNumber(y.file) < TurnNumber(Step(y, a).file)
  {
    if Owns(a) {
      OwnedTurnGeneration(y, a);
    }
  }

  // ---------------------------------------------------------------------
  // Re-arming
  // ---------------------------------------------------------------------

  /** What the re-arm of one session meets: whether its recorded waiter still lives,
      whether a launch identity is found, the state file at each conditional commit (None
      when it cannot be read or written), and the spawned pid if the spawn succeeds. */
  datatype Parking = Parking(read: Option<Session>, alive: bool, launchable: bool, atClear: Option<Session>,
                             pid: Option<int>, atRecord: Option<Session>)

  datatype Commit = Written | MovedOn | Failure

  /** The state file of one session as the daemon's conditional commits see it. */
  class StateFile {
    var content: Session

    constructor (content: Session)
      ensures this.content == content
    {
      this.content := content;
    }

    /** updateAgyWaiterPidConditionally: found is the file as it is by now. Only the pid
        changes, and only while the generation still matches. */
    method UpdateWaiterPid(found: Option<Session>, g: Generation, pid: Option<int>) returns (commit: Commit)
      modifies this
      ensures found.None? ==> commit == Failure && content == old(content)
      ensures found.Some? ==> commit == (if Matches(found.value, g) then Written else MovedOn)
      ensures found.Some? ==> content == if Matches(found.value, g) then found.value.(waiterPid := pid) else found.value
    {
      if found.None? {
        return Failure;
      }
      content := found.value;
      if !Matches(content, g) {
        return MovedOn;
      }
      content := content.(waiterPid := pid);
      commit := Written;
    }
  }

  /** What became of the waiters a re-arm spawned. */
  datatype Rearming = Rearming(spawned: bool, recorded: bool, killed: bool)

  /** The session found is still parked as it was read: for the same epoch, that of its waiter
      if it has one, and with this pid recorded. */
  ghost predicate Stands(read: Session, found: Session, pid: Option<int>) {
    && read.awaiting && found.awaiting && found.waiterPid == pid
    && (if found.waiterEpoch.Some? then found.waiterEpoch.value else if found.turnEpoch.Some? then found.turnEpoch.value else 0)
       == (if read.waiterEpoch.Some? then read.waiterEpoch.value else if read.turnEpoch.Some? then read.turnEpoch.value else 0)
  }

  /** The session was read waiting for a turn, without a waiter that lives, and its launch
      identity is known. */
  ghost predicate NeedsWaiter(p: Parking) {
    p.read.Some? && p.read.value.awaiting && (p.alive ==> p.read.value.waiterPid.None? || p.read.value.waiterPid.value <= 0) && p.launchable
  }

  /** A waiter is spawned only on the cleared generation that was read; it is recorded
      exactly if that generation still stands then, and killed otherwise. A session that
      does not wait for a waiter keeps its file. */
  ghost predicate RearmedAs(p: Parking, r: Rearming, before: Session, after: Session) {
    && (r.spawned <==> NeedsWaiter(p) && p.atClear.Some? && Stands(p.read.value, p.atClear.value, p.read.value.waiterPid) && p.pid.Some?)
    && (r.recorded <==> r.spawned && p.atRecord.Some? && Stands(p.read.value, p.atRecord.value, None))
    && (r.killed <==> r.spawned && !r.recorded)
    && (r.recorded ==> after == p.atRecord.value.(waiterPid := p.pid))
    && (r.killed && p.atRecord.Some? ==> after == p.atRecord.value)
    && (!NeedsWaiter(p) || p.atClear.None? ==> after == before)
  }

  /** One session: clear the dead pid, spawn, record. */
  method RearmOne(p: Parking, file: StateFile) returns (r: Rearming)
    modifies file
    ensures RearmedAs(p, r, old(file.content), file.content)
  {
    r := Rearming(false, false, false);
    if p.read.None? {
      return;
    }
    var state := p.read.value;
    if !state.awaiting {
      return;
    }
    if state.waiterPid.Some? && state.waiterPid.value > 0 && p.alive {
      return;
    }
    var epoch := EffectiveEpoch(state);
    if !p.launchable {
      return;
    }
    var commit := file.UpdateWaiterPid(p.atClear, Generation(true, epoch, state.waiterPid), None);
    if commit != Written {
      return;
    }
    if p.pid.None? {
      return;
    }
    commit := file.UpdateWaiterPid(p.atRecord, Generation(true, epoch, None), p.pid);
    r := Rearming(true, commit == Written, commit != Written);
  }

  /** rearmAgyWaiters: each session's file and waiter end as RearmOne leaves them, and the
      count is the number of recorded waiters. */
  method RearmAgyWaiters(parkings: seq<Parking>, files: seq<StateFile>) returns (rearmed: nat, results: seq<Rearming>)
    requires |files| == |parkings| && forall i, j | 0 <= i < j < |files| :: files[i] != files[j]
    modifies set f | f in files
    ensures |results| == |parkings|
    ensures forall i | 0 <= i < |results| :: RearmedAs(parkings[i], results[i], old(files[i].content), files[i].content)
    ensures rearmed == |set i | 0 <= i < |results| && results[i].recorded|
  {
    rearmed, results := 0, [];
    ghost var recorded: set<int> := {};
    for k := 0 to |parkings|
      invariant |results| == k && rearmed == |recorded|
      invariant recorded == set i | 0 <= i < k && results[i].recorded
      invariant forall i | 0 <= i < k :: RearmedAs(parkings[i], results[i], old(files[i].content), files[i].content)
      invariant forall i | k <= i < |files| :: files[i].content == old(files[i].content)
    {
      var r := RearmOne(parkings[k], files[k]);
      ghost var before := results;
      results := results + [r];
      assert forall i | 0 <= i < k :: results[i] == before[i];
      if r.recorded {
        rearmed, recorded := rearmed + 1, recorded + {k};
      }
    }
  }

  /** The waiter a re-arm records is the one its session accepts: it is not superseded,
      and no waiter of another pid or epoch is accepted beside it. */
  lemma RecordedWaiterIsTheOne(found: Session, g: Generation, pid: int, other: Waiter)
    requires EpochsAgree(found) && Matches(found, g)
    ensures var s := found.(waiterPid := Some(pid));
            && !Superseded(s, Waiter(g.epoch, pid))
            && (!Superseded(s, other) && found.turnEpoch.Some? ==> other == Waiter(g.epoch, pid))
  {
  }
}
