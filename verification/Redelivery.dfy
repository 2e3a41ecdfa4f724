/** What a run may hand to the host twice, and where the parked acknowledgements come
    from. */
module Redelivery {
  import opened Common
  import opened Projection
  import opened WakeView
  import opened HookSpec
  import opened FlushSafety
  import opened OwedEvents
  import opened DeliveryProtocol
  import opened WakeAgreement

  /** x is not in the presented list, which is full of higher ids. */
  ghost predicate Evicted(s: Session, x: int) {
    x !in s.presented && |set y | y in s.presented && y > x| >= PRESENTED_LIMIT
  }

  lemma LastNKeeps(s: Session, all: set<int>, x: int)
    requires s.presented == LastN(all, PRESENTED_LIMIT) && x in all
    ensures x in s.presented || Evicted(s, x)
  {
    if x !in s.presented {
      assert x in all - s.presented;
      assert s.presented == set y | y in s.presented && y > x;
    }
  }

  ghost predicate Shut(s: Session, cursor: int, x: int) {
    x in s.presented || x <= cursor
  }

  // ---------------------------------------------------------------------
  // One operation
  // ---------------------------------------------------------------------

  lemma BatchComesFromCandidates(s: Session, cursor: int, conn: Conn, view: Option<PeerView>, withheld: set<int>, replies: Replies, x: int)
    requires var t := Take(s, cursor, conn, view, withheld, replies); t.batch.Some? && x in IdsOf(t.batch.value)
    ensures x !in s.presented && x > AckedId(conn)
    ensures x in PresentedIds(CandidateList(s, conn, view), Working(view)) && x in Eligible(conn, s.retained, view)
  {
    BatchIsTheProjection(s, cursor, conn, view, withheld, replies);
    CandidateListIds(s, conn, view);
    OutcomeIdsArePresented(CandidateList(s, conn, view), Working(view));
    assert x in EventIds(CandidateList(s, conn, view));
    EligibleRecord(conn, s.retained, view, x);
  }

  lemma BatchIsTheProjection(s: Session, cursor: int, conn: Conn, view: Option<PeerView>, withheld: set<int>, replies: Replies)
    ensures var t := Take(s, cursor, conn, view, withheld, replies);
            t.batch.Some? ==> t.batch.value == OutcomesOf(CandidateList(s, conn, view), Working(view))
  {
  }

  lemma TakeShuts(s: Session, cursor: int, conn: Conn, view: Option<PeerView>, withheld: set<int>, replies: Replies, x: int)
    requires AckedId(conn) <= cursor
    ensures var t := Take(s, cursor, conn, view, withheld, replies);
            && cursor <= t.cursor
            && (x in s.presented || (t.batch.Some? && x in IdsOf(t.batch.value)) ==> Shut(t.session, t.cursor, x) || Evicted(t.session, x))
            && (x in t.session.delivered ==> x in s.delivered || (t.batch.Some? && x in IdsOf(t.batch.value)))
  {
    var presented, eligible, list := PresentedAbove(s, conn), Eligible(conn, s.retained, view), CandidateList(s, conn, view);
    if CandidateMap(s, conn, view) == map[] {
    } else if OutcomesOf(list, Working(view)) == [] {
      TakeSuppressedShuts(s, cursor, conn, eligible, list, Working(view), replies, x);
    } else {
      TakeBatchShuts(s, cursor, conn, eligible, list, Working(view), x);
    }
  }

  lemma TakeSuppressedShuts(s: Session, cursor: int, conn: Conn, eligible: Records, list: seq<Event>, working: set<string>,
                            replies: Replies, x: int)
    requires AckedId(conn) <= cursor
    ensures var t := TakeSuppressed(s, cursor, eligible, PresentedAbove(s, conn), list, working, replies);
            && cursor <= t.cursor && t.session.delivered == s.delivered
            && (x in s.presented ==> Shut(t.session, t.cursor, x) || Evicted(t.session, x))
  {
    SettleAllKeeps(list, working, s.delivered, PresentedAbove(s, conn), cursor, replies);
    if x in s.presented && x > cursor {
      LastNKeeps(TakeSuppressed(s, cursor, eligible, PresentedAbove(s, conn), list, working, replies).session,
                 SettleAll(list, working, s.delivered, PresentedAbove(s, conn), cursor, replies).presented, x);
    }
  }

  lemma TakeBatchShuts(s: Session, cursor: int, conn: Conn, eligible: Records, list: seq<Event>, working: set<string>, x: int)
    requires AckedId(conn) <= cursor
    ensures var t := TakeBatch(s, cursor, eligible, PresentedAbove(s, conn), list, working);
            && t.session.delivered == s.delivered + IdsOf(t.batch.value)
            && (x in s.presented || x in IdsOf(t.batch.value) ==> Shut(t.session, t.cursor, x) || Evicted(t.session, x))
  {
    var shown := PresentedAbove(s, conn) + SuppressedIds(list, working) + IdsOf(OutcomesOf(list, working));
    if x in shown {
      LastNKeeps(TakeBatch(s, cursor, eligible, PresentedAbove(s, conn), list, working).session, shown, x);
    }
  }

  lemma SettleAllKeeps(list: seq<Event>, working: set<string>, delivered: set<int>, presented: set<int>, cursor: int, replies: Replies)
    ensures var t := SettleAll(list, working, delivered, presented, cursor, replies);
            && presented <= t.presented && cursor <= t.cursor
            && t.held <= SuppressedIds(list, working)
  {
    var ids := SuppressedIds(list, working);
    SortedIdsList(ids);
    SettleFromStart(Settling(presented, {}, {}, cursor), SortedIds(ids), LowestId(DeferredIds(list, working) + delivered), replies);
  }

  lemma PeekShuts(seen: Session, file: Session, cursor: int, conn: Conn, view: Option<PeerView>, waiter: Waiter, replies: Replies, x: int)
    requires AckedId(conn) <= cursor
    ensures var p := Peek(seen, file, cursor, conn, view, waiter, replies);
            && cursor <= p.cursor
            && (x in file.presented ==> Shut(p.file, p.cursor, x) || Evicted(p.file, x))
            && p.file.delivered <= file.delivered
  {
    if CandidateMap(seen, conn, view) != map[] {
      var list := CandidateList(seen, conn, view);
      var bound := seen.delivered + file.delivered;
      var t := PeekSettling(list, Working(view), bound, PresentedAbove(seen, conn), cursor, replies);
      SettleAllKeeps(list, Working(view), bound, PresentedAbove(seen, conn), cursor, replies);
      PeekWriteShuts(seen, file, conn, Eligible(conn, seen.retained, view), DeferredIds(list, Working(view)), t,
                     OutcomesOf(list, Working(view)) != [], waiter, cursor, x);
    } else {
      PeekWithoutCandidates(seen, file, cursor, conn, view, waiter, replies);
    }
  }

  lemma PeekWriteShuts(seen: Session, file: Session, conn: Conn, eligible: Records, deferred: set<int>, t: Settling, hasOutcomes: bool,
                       waiter: Waiter, cursor: int, x: int)
    requires AckedId(conn) <= cursor <= t.cursor
    ensures var p := PeekWrite(seen, file, conn, eligible, deferred, t, hasOutcomes, waiter);
            && p.cursor == t.cursor && p.file.delivered == file.delivered
            && (x in file.presented ==> Shut(p.file, p.cursor, x) || Evicted(p.file, x))
  {
    if x in file.presented && x > t.cursor && !Superseded(file, waiter) {
      LastNKeeps(PeekWrite(seen, file, conn, eligible, deferred, t, hasOutcomes, waiter).file, PresentedAbove(file, conn) + t.presented, x);
    }
  }

  /** What a flush does to the id x: it never reopens it, and parks its ack only after a
      confirmed delivery. */
  ghost predicate FlushedFrom(s: Session, after: Session, transcript: Transcript, x: int) {
    && (x in after.delivered ==> x in s.delivered)
    && (x in s.presented ==> x in after.presented || Evicted(after, x))
    && (x in after.pendingAck ==> x in s.pendingAck || Confirmed(s, transcript, x))
  }

  lemma FlushShuts(s: Session, cursor: int, conn: Conn, view: Option<PeerView>, transcript: Transcript, replies: Replies,
                   refreshed: Option<Conn>, x: int)
    ensures var f := FlushAcks(s, cursor, conn, view, transcript, replies, refreshed);
            cursor <= f.cursor && FlushedFrom(s, f.session, transcript, x)
  {
    if s.pendingAck + s.delivered != {} {
      FlushRunKeeps(s, cursor, conn, view, transcript, replies);
      FlushedShuts(Gate(s.delivered, transcript, replies), FlushStart(s, cursor, conn, view),
                   FlushRun(s, cursor, conn, view, transcript, replies), s, x);
    }
  }

  lemma FlushedShuts(g: Gate, start: Flush, r: Flush, s: Session, x: int)
    requires FlushGuarantee(g, start, r, s.pendingAck + s.delivered)
    requires g.delivered == s.delivered && start.presented == s.presented
    ensures start.cursor <= r.cursor && FlushedFrom(s, AfterFlush(s, r), g.transcript, x)
  {
    if x in s.presented {
      LastNKeeps(AfterFlush(s, r), r.presented, x);
    }
    if x in r.pending {
      assert x in s.pendingAck + s.delivered && x !in r.remaining;
    }
  }

  // ---------------------------------------------------------------------
  // Handed over twice
  // ---------------------------------------------------------------------

  /** The step makes a delivered event injectable again: an abnormal Stop, or a waiter's
      re-arm, which commits without looking at its generation again. */
  ghost predicate Reopens(y: System, a: Action, x: int) {
    x in y.file.delivered && x in y.file.presented && (a.AbnormalStop? || (a.RearmBatch? && a.waiter in y.memory))
  }

  /** The flush of the step fills the presented list with higher ids. */
  ghost predicate FlushEvicts(y: System, a: Action, x: int) {
    a.Stop? && Owns(a) && x in y.file.presented && Evicted(FlushAt(y, a).session, x)
  }

  /** The step fills the presented list with higher ids and pushes x out of it. */
  ghost predicate Evicts(y: System, a: Action, x: int) {
    || FlushEvicts(y, a, x)
    || (!a.AbnormalStop? && !a.RearmBatch? && (x in y.file.presented || x in BatchIds(y, a)) && Evicted(Step(y, a).file, x))
  }

  ghost predicate ShutAt(y: System, x: int) {
    Shut(y.file, y.cursor, x)
  }

  lemma StopShuts(y: System, a: Action, x: int)
    requires a.Stop? && Owns(a) && Valid(y, a) && !Evicts(y, a, x)
    ensures ShutAt(y, x) ==> x !in BatchIds(y, a)
    ensures ShutAt(y, x) || x in BatchIds(y, a) ==> ShutAt(Step(y, a), x)
    ensures x in Step(y, a).file.delivered ==> x in y.file.delivered || x in BatchIds(y, a)
  {
    var s := y.file.(awaiting := true);
    var f := FlushAt(y, a);
    OwnedStop(y, a);
    FlushShuts(s, y.cursor, a.conn.value, a.flushView, a.transcript, a.flushReplies, a.refreshed, x);
    FlushedConnBelowCursor(y, a);
    TakeShuts(f.session, f.cursor, f.conn, a.view, f.withheld, a.replies, x);
    if x in BatchIds(y, a) {
      BatchComesFromCandidates(f.session, f.cursor, f.conn, a.view, f.withheld, a.replies, x);
    }
  }

  lemma PreInvocationShuts(y: System, a: Action, x: int)
    requires a.PreInvocation? && Owns(a) && Valid(y, a) && !Evicts(y, a, x)
    ensures ShutAt(y, x) ==> x !in BatchIds(y, a)
    ensures ShutAt(y, x) || x in BatchIds(y, a) ==> ShutAt(Step(y, a), x)
    ensures x in Step(y, a).file.delivered ==> x in y.file.delivered || x in BatchIds(y, a)
  {
    var s := BeginTurn(y.file, a.newTurn);
    OwnedPreInvocation(y, a);
    TakeShuts(s, y.cursor, a.conn.value, a.view, {}, a.replies, x);
    UnwrittenTake(s, y.cursor, a.conn.value, a.view, {}, a.replies);
    if x in BatchIds(y, a) {
      BatchComesFromCandidates(s, y.cursor, a.conn.value, a.view, {}, a.replies, x);
    }
  }

  lemma PollShuts(y: System, a: Action, x: int)
    requires a.Poll? && Owns(a) && Valid(y, a) && !Evicts(y, a, x)
    ensures ShutAt(y, x) ==> ShutAt(Step(y, a), x)
    ensures Step(y, a).file.delivered <= y.file.delivered
  {
    PollIsPeek(y, a);
    PeekShuts(y.memory[a.waiter].seen, y.file, y.cursor, a.pollConn, a.view, a.waiter, a.replies, x);
  }

  /** One step: it hands over no shut id and shuts what it hands over, and it leaves a shut
      id shut unless it reopens it. */
  lemma StepShuts(y: System, a: Action, x: int)
    requires Valid(y, a) && !Evicts(y, a, x)
    ensures ShutAt(y, x) ==> x !in BatchIds(y, a)
    ensures (ShutAt(y, x) && !Reopens(y, a, x)) || x in BatchIds(y, a) ==> ShutAt(Step(y, a), x)
    ensures x in Step(y, a).file.delivered ==> x in y.file.delivered || x in BatchIds(y, a)
  {
    if a.PreInvocation? && Owns(a) {
      PreInvocationShuts(y, a, x);
    } else if a.Stop? && Owns(a) {
      StopShuts(y, a, x);
    } else if a.Poll? && Owns(a) {
      PollShuts(y, a, x);
    }
  }

  lemma CursorRises(y: System, a: Action)
    requires Valid(y, a)
    ensures y.cursor <= Step(y, a).cursor
  {
    if a.PreInvocation? && Owns(a) {
      OwnedPreInvocation(y, a);
      TakeShuts(BeginTurn(y.file, a.newTurn), y.cursor, a.conn.value, a.view, {}, a.replies, 0);
    } else if a.Stop? && Owns(a) {
      var f := FlushAt(y, a);
      OwnedStop(y, a);
      FlushedConnBelowCursor(y, a);
      TakeShuts(f.session, f.cursor, f.conn, a.view, f.withheld, a.replies, 0);
    } else if a.Poll? && Owns(a) {
      PollIsPeek(y, a);
      PeekShuts(y.memory[a.waiter].seen, y.file, y.cursor, a.pollConn, a.view, a.waiter, a.replies, 0);
    }
  }

  /** Over every run: an event is handed to the host twice only if in between it was
      delivered and made injectable again by a re-arm or an abnormal stop, or the
      presented list overflowed with higher ids. */
  lemma {:induction false} HandedOverTwiceOnlyIfReopened(states: seq<System>, actions: seq<Action>, i: nat, j: nat, x: int)
    requires IsRun(states, actions) && i < j < |actions|
    requires x in BatchIds(states[i], actions[i]) && x in BatchIds(states[j], actions[j])
    ensures || (exists k :: i < k < j && Reopens(states[k], actions[k], x))
            || (exists k :: i <= k <= j && Evicts(states[k], actions[k], x))
  {
    if !Evicts(states[i], actions[i], x) {
      StepShuts(states[i], actions[i], x);
      ShutStaysShut(states, actions, i + 1, j, x);
    }
  }

  lemma {:induction false} ShutStaysShut(states: seq<System>, actions: seq<Action>, i: nat, j: nat, x: int)
    requires IsRun(states, actions) && i <= j < |actions|
    requires ShutAt(states[i], x)
    ensures || x !in BatchIds(states[j], actions[j])
            || (exists k :: i <= k < j && Reopens(states[k], actions[k], x))
            || (exists k :: i <= k <= j && Evicts(states[k], actions[k], x))
    decreases j - i
  {
    if !Evicts(states[i], actions[i], x) {
      StepShuts(states[i], actions[i], x);
      if i < j && !Reopens(states[i], actions[i], x) {
        ShutStaysShut(states, actions, i + 1, j, x);
      }
    }
  }

  // ---------------------------------------------------------------------
  // Never handed over again
  // ---------------------------------------------------------------------

  /** Behind the cursor, or presented and no longer delivered: whatever its ack does. */
  ghost predicate Retired(y: System, x: int) {
    x <= y.cursor || (x in y.file.presented && x !in y.file.delivered)
  }

  /** These steps, none of which evicts x first, end in handing x over. */
  ghost predicate HandsOver(y: System, actions: seq<Action>, x: int)
    decreases |actions|
  {
    actions != [] && Valid(y, actions[0]) &&
    if |actions| == 1 then x in BatchIds(y, actions[0]) && !FlushEvicts(y, actions[0], x)
    else !Evicts(y, actions[0], x) && HandsOver(Step(y, actions[0]), actions[1..], x)
  }

  lemma StepKeepsRetired(y: System, a: Action, x: int)
    requires Valid(y, a) && !Evicts(y, a, x) && Retired(y, x)
    ensures Retired(Step(y, a), x)
  {
    StepShuts(y, a, x);
    CursorRises(y, a);
  }

  lemma BatchIsOpen(y: System, a: Action, x: int)
    requires Valid(y, a) && x in BatchIds(y, a) && !FlushEvicts(y, a, x)
    ensures !ShutAt(y, x)
  {
    if a.PreInvocation? {
      OwnedPreInvocation(y, a);
      BatchComesFromCandidates(BeginTurn(y.file, a.newTurn), y.cursor, a.conn.value, a.view, {}, a.replies, x);
    } else {
      var f := FlushAt(y, a);
      OwnedStop(y, a);
      FlushShuts(y.file.(awaiting := true), y.cursor, a.conn.value, a.flushView, a.transcript, a.flushReplies, a.refreshed, x);
      FlushedConnBelowCursor(y, a);
      BatchComesFromCandidates(f.session, f.cursor, f.conn, a.view, f.withheld, a.replies, x);
    }
  }

  lemma {:induction false} RetiredIsNeverHandedOver(y: System, actions: seq<Action>, x: int)
    requires Retired(y, x)
    ensures !HandsOver(y, actions, x)
    decreases |actions|
  {
    if HandsOver(y, actions, x) {
      if |actions| == 1 {
        BatchIsOpen(y, actions[0], x);
      } else {
        StepKeepsRetired(y, actions[0], x);
        RetiredIsNeverHandedOver(Step(y, actions[0]), actions[1..], x);
      }
    }
  }

  /** The daemon lists this one record to the owner, in step with the cursor. */
  function Listing(cursor: int, e: Event, presence: Presence): Conn {
    Conn([e], presence, Some(ScopeState(cursor, Some(presence.terminal), presence.session, presence.workspace)))
  }

  /** A record that is an outcome by itself, whatever else is in the list. */
  predicate PlainOutcome(e: Event) {
    OutcomeKindOf(e).Some? && !IsCompletion(e) && !InFlightToolUse(e) && !e.fallback
  }

  lemma PlainVerdict(list: seq<Event>, working: set<string>, e: Event)
    requires PlainOutcome(e)
    ensures VerdictOf(list, working, e).Present?
  {
  }

  lemma ListedIsCandidate(s: Session, e: Event, conn: Conn, view: Option<PeerView>)
    requires conn.listed == [e] && InScope(conn, e) && e.id !in s.presented
    ensures e.id in CandidateMap(s, conn, view) && CandidateMap(s, conn, view)[e.id] == e
  {
    ListedIsMerged(conn, s.retained, e);
    assert Reachable(conn, view, e);
  }

  lemma PlainOutcomeIsPresented(s: Session, e: Event, conn: Conn, view: Option<PeerView>)
    requires PlainOutcome(e) && conn.listed == [e] && InScope(conn, e) && e.id !in s.presented
    ensures e.id in PresentedIds(CandidateList(s, conn, view), Working(view))
  {
    ListedIsCandidate(s, e, conn, view);
    InOrderMember(CandidateMap(s, conn, view), e);
    PresentsMember(CandidateList(s, conn, view), Working(view), e);
  }

  lemma PresentsMember(list: seq<Event>, working: set<string>, e: Event)
    requires PlainOutcome(e) && e in list
    ensures e.id in PresentedIds(list, working)
  {
    PlainVerdict(list, working, e);
  }

  lemma ListedIsMerged(conn: Conn, retained: Records, e: Event)
    requires conn.listed == [e]
    ensures ById(conn.listed) == map[e.id := e]
    ensures e.id in Merged(conn, retained) && Merged(conn, retained)[e.id] == e
  {
    assert conn.listed[..0] == [];
    assert ById([]) == map[];
  }

  lemma TakeHandsOver(s: Session, cursor: int, conn: Conn, view: Option<PeerView>, withheld: set<int>, replies: Replies, x: int)
    requires x in PresentedIds(CandidateList(s, conn, view), Working(view))
    ensures var t := Take(s, cursor, conn, view, withheld, replies);
            t.wrote && t.batch.Some? && x in IdsOf(t.batch.value) && s.pendingAck <= t.session.pendingAck
  {
    CandidateListIds(s, conn, view);
    var list := CandidateList(s, conn, view);
    OutcomeIdsArePresented(list, Working(view));
    assert x in EventIds(list) && x in IdsOf(OutcomesOf(list, Working(view)));
    BatchOf(s, cursor, conn, view, withheld, replies);
  }

  lemma BatchOf(s: Session, cursor: int, conn: Conn, view: Option<PeerView>, withheld: set<int>, replies: Replies)
    requires CandidateMap(s, conn, view) != map[] && OutcomesOf(CandidateList(s, conn, view), Working(view)) != []
    ensures var t := Take(s, cursor, conn, view, withheld, replies);
            t.batch == Some(OutcomesOf(CandidateList(s, conn, view), Working(view))) && s.pendingAck <= t.session.pendingAck && t.wrote
  {
  }

  /** The next invocation, after an abnormal Stop when the host had the event already. */
  ghost function HandOverAgain(y: System, e: Event, presence: Presence): seq<Action> {
    var take := ListedTake(y.cursor, e, presence);
    if e.id in y.file.presented then [AbnormalStop] + [take] else [take]
  }

  ghost function ListedTake(cursor: int, e: Event, presence: Presence): Action {
    PreInvocation(true, Some(Listing(cursor, e, presence)), None, id => Transient)
  }

  /** An invocation hands over what its view presents, and parked acks stay parked. */
  lemma InvocationHandsOver(y: System, a: Action, x: int)
    requires a.PreInvocation? && Owns(a) && AckedId(a.conn.value) == y.cursor
    requires x in PresentedIds(CandidateList(BeginTurn(y.file, a.newTurn), a.conn.value, a.view), Working(a.view))
    ensures Valid(y, a) && x in BatchIds(y, a) && y.file.pendingAck <= Step(y, a).file.pendingAck
  {
    var s := BeginTurn(y.file, a.newTurn);
    TakeHandsOver(s, y.cursor, a.conn.value, a.view, {}, a.replies, x);
    TakenByInvocation(y, a, s, Take(s, y.cursor, a.conn.value, a.view, {}, a.replies));
  }

  lemma TakenByInvocation(y: System, a: Action, s: Session, t: Taken)
    requires a.PreInvocation? && Owns(a) && AckedId(a.conn.value) == y.cursor && s == BeginTurn(y.file, a.newTurn)
    requires t == Take(s, y.cursor, a.conn.value, a.view, {}, a.replies) && t.wrote
    ensures Valid(y, a) && Step(y, a) == System(t.session, t.cursor, y.memory) && s.pendingAck == y.file.pendingAck
    ensures t.batch.Some? ==> BatchIds(y, a) == IdsOf(t.batch.value)
  {
    OwnedPreInvocation(y, a);
  }

  lemma OpenIsHandedOver(y: System, e: Event, presence: Presence)
    requires PlainOutcome(e) && e.terminal != Some(presence.terminal) && e.session == presence.session
    requires e.id > y.cursor && e.id !in y.file.presented
    ensures var a := ListedTake(y.cursor, e, presence); Valid(y, a) && e.id in BatchIds(y, a)
  {
    var conn := Listing(y.cursor, e, presence);
    ListingIsOwned(y.cursor, e, presence);
    PlainOutcomeIsPresented(BeginTurn(y.file, true), e, conn, None);
    InvocationHandsOver(y, ListedTake(y.cursor, e, presence), e.id);
  }

  lemma ListingIsOwned(cursor: int, e: Event, presence: Presence)
    requires e.terminal != Some(presence.terminal) && e.session == presence.session && e.id > cursor
    ensures var conn := Listing(cursor, e, presence);
            IsLocalOwner(conn) && AckedId(conn) == cursor && conn.listed == [e] && InScope(conn, e)
  {
  }

  lemma InvocationEnds(y: System, a: Action, x: int)
    requires a.PreInvocation? && Valid(y, a) && x in BatchIds(y, a)
    ensures HandsOver(y, [a], x)
  {
  }

  lemma AbandonEvictsNothing(y: System, x: int)
    ensures Valid(y, AbnormalStop) && !Evicts(y, AbnormalStop, x)
  {
  }

  lemma OneStepBefore(y: System, a: Action, rest: seq<Action>, x: int)
    requires rest != [] && Valid(y, a) && !Evicts(y, a, x) && HandsOver(Step(y, a), rest, x)
    ensures HandsOver(y, [a] + rest, x)
  {
    assert ([a] + rest)[1..] == rest;
  }

  lemma UnretiredIsHandedOver(y: System, e: Event, presence: Presence)
    requires PlainOutcome(e) && e.terminal != Some(presence.terminal) && e.session == presence.session
    requires !Retired(y, e.id)
    ensures HandsOver(y, HandOverAgain(y, e, presence), e.id)
  {
    var take := ListedTake(y.cursor, e, presence);
    if e.id in y.file.presented {
      var z := y.(file := AbandonTurn(y.file));
      OpenIsHandedOver(z, e, presence);
      InvocationEnds(z, take, e.id);
      AbandonEvictsNothing(y, e.id);
      assert z == Step(y, AbnormalStop);
      OneStepBefore(y, AbnormalStop, [take], e.id);
    } else {
      OpenIsHandedOver(y, e, presence);
      InvocationEnds(y, take, e.id);
    }
  }

  lemma SomePlainOutcome(x: int) returns (e: Event, presence: Presence)
    ensures e.id == x && PlainOutcome(e) && e.terminal != Some(presence.terminal) && e.session == presence.session
  {
    e := Event(x, Blocked, "s", None, Some("peer"), None, None, "", "", "", false, "", "");
    presence := Presence("s", "w", "own");
  }

  lemma UnretiredHasRun(y: System, x: int) returns (actions: seq<Action>)
    requires !Retired(y, x)
    ensures HandsOver(y, actions, x)
  {
    var e, presence := SomePlainOutcome(x);
    UnretiredIsHandedOver(y, e, presence);
    actions := HandOverAgain(y, e, presence);
  }

  ghost predicate CanBeHandedOver(y: System, x: int) {
    exists actions :: HandsOver(y, actions, x)
  }

  /** An id can never be handed over again, while the presented list does not overflow, if
      and only if it is retired: waiting in pendingAck is neither needed nor enough. */
  lemma NeverAgainExactly(y: System, x: int)
    ensures Retired(y, x) <==> !CanBeHandedOver(y, x)
  {
    if CanBeHandedOver(y, x) {
      var actions :| HandsOver(y, actions, x);
      if Retired(y, x) {
        RetiredIsNeverHandedOver(y, actions, x);
        assert false;
      }
    } else if !Retired(y, x) {
      var actions := UnretiredHasRun(y, x);
      assert false;
    }
  }

  // ---------------------------------------------------------------------
  // Where the parked acknowledgements come from
  // ---------------------------------------------------------------------

  /** The step finds a delivery confirmed (or unverifiable), or suppresses the event. */
  ghost predicate Settles(y: System, a: Action, x: int) {
    Owns(a) &&
    match a
    case PreInvocation(newTurn, conn, view, _) => JudgedSuppressed(BeginTurn(y.file, newTurn), conn.value, view, x)
    case Stop(_, transcript, _, _, _, view, _, _, _) =>
      Confirmed(y.file, transcript, x) || JudgedSuppressed(FlushAt(y, a).session, FlushAt(y, a).conn, view, x)
    case Poll(waiter, conn, view, _) => waiter in y.memory && JudgedSuppressed(y.memory[waiter].seen, conn, view, x)
    case _ => false
  }

  lemma TakeParks(s: Session, cursor: int, conn: Conn, view: Option<PeerView>, withheld: set<int>, replies: Replies, x: int)
    requires x in Take(s, cursor, conn, view, withheld, replies).session.pendingAck
    ensures x in s.pendingAck || JudgedSuppressed(s, conn, view, x)
  {
    var presented, eligible, list := PresentedAbove(s, conn), Eligible(conn, s.retained, view), CandidateList(s, conn, view);
    if CandidateMap(s, conn, view) == map[] {
    } else if OutcomesOf(list, Working(view)) == [] {
      TakeSuppressedParks(s, cursor, eligible, presented, list, Working(view), replies);
    } else {
      TakeBatchParks(s, cursor, eligible, presented, list, Working(view));
    }
  }

  lemma TakeSuppressedParks(s: Session, cursor: int, eligible: Records, presented: set<int>, list: seq<Event>, working: set<string>, replies: Replies)
    ensures TakeSuppressed(s, cursor, eligible, presented, list, working, replies).session.pendingAck <= s.pendingAck + SuppressedIds(list, working)
  {
    SettleAllKeeps(list, working, s.delivered, presented, cursor, replies);
  }

  lemma TakeBatchParks(s: Session, cursor: int, eligible: Records, presented: set<int>, list: seq<Event>, working: set<string>)
    ensures TakeBatch(s, cursor, eligible, presented, list, working).session.pendingAck == s.pendingAck + SuppressedIds(list, working)
  {
  }

  lemma PeekParks(seen: Session, file: Session, cursor: int, conn: Conn, view: Option<PeerView>, waiter: Waiter, replies: Replies, x: int)
    requires x in Peek(seen, file, cursor, conn, view, waiter, replies).file.pendingAck
    ensures x in file.pendingAck || JudgedSuppressed(seen, conn, view, x)
  {
    if CandidateMap(seen, conn, view) != map[] {
      var list := CandidateList(seen, conn, view);
      var bound := seen.delivered + file.delivered;
      SettleAllKeeps(list, Working(view), bound, PresentedAbove(seen, conn), cursor, replies);
      PeekWriteParks(seen, file, conn, Eligible(conn, seen.retained, view), DeferredIds(list, Working(view)),
                     PeekSettling(list, Working(view), bound, PresentedAbove(seen, conn), cursor, replies),
                     OutcomesOf(list, Working(view)) != [], waiter);
    } else {
      PeekWithoutCandidates(seen, file, cursor, conn, view, waiter, replies);
    }
  }

  lemma PeekWriteParks(seen: Session, file: Session, conn: Conn, eligible: Records, deferred: set<int>, t: Settling, hasOutcomes: bool, waiter: Waiter)
    ensures PeekWrite(seen, file, conn, eligible, deferred, t, hasOutcomes, waiter).file.pendingAck <= file.pendingAck + t.held
  {
  }

  lemma StopParks(y: System, a: Action, x: int)
    requires a.Stop? && Owns(a) && Valid(y, a) && x in Step(y, a).file.pendingAck
    ensures x in y.file.pendingAck || Settles(y, a, x)
  {
    var f := FlushAt(y, a);
    OwnedStop(y, a);
    FlushShuts(y.file.(awaiting := true), y.cursor, a.conn.value, a.flushView, a.transcript, a.flushReplies, a.refreshed, x);
    TakeParks(f.session, f.cursor, f.conn, a.view, f.withheld, a.replies, x);
  }

  lemma PreInvocationParks(y: System, a: Action, x: int)
    requires a.PreInvocation? && Owns(a) && x in Step(y, a).file.pendingAck
    ensures x in y.file.pendingAck || Settles(y, a, x)
  {
    OwnedPreInvocation(y, a);
    if x !in y.file.pendingAck {
      TakeParks(BeginTurn(y.file, a.newTurn), y.cursor, a.conn.value, a.view, {}, a.replies, x);
    }
  }

  lemma StepParks(y: System, a: Action, x: int)
    requires Valid(y, a) && x in Step(y, a).file.pendingAck
    ensures x in y.file.pendingAck || Settles(y, a, x)
  {
    if a.PreInvocation? && Owns(a) {
      PreInvocationParks(y, a, x);
    } else if a.Stop? && Owns(a) {
      StopParks(y, a, x);
    } else if a.Poll? && Owns(a) {
      PollIsPeek(y, a);
      PeekParks(y.memory[a.waiter].seen, y.file, y.cursor, a.pollConn, a.view, a.waiter, a.replies, x);
    }
  }

  /** Over every run that starts with nothing parked: an id waits for its ack alone only
      after a step k confirmed its delivery or suppressed it. */
  lemma {:induction false} ParkedWasSettledBefore(states: seq<System>, actions: seq<Action>, j: nat, x: int) returns (k: nat)
    requires IsRun(states, actions) && j < |states| && states[0].file.pendingAck == {}
    requires x in states[j].file.pendingAck
    ensures k < j && Settles(states[k], actions[k], x)
  {
    k := j - 1;
    assert Valid(states[k], actions[k]) && states[k + 1] == Step(states[k], actions[k]);
    if x in states[k].file.pendingAck {
      k := ParkedWasSettledBefore(states, actions, k, x);
    } else {
      StepParks(states[k], actions[k], x);
    }
  }

  // ---------------------------------------------------------------------
  // What is handed over, or announced by a poll, is owed from then on
  // ---------------------------------------------------------------------

  /** A handed-over event is owed after the step (unless that step's own flush had its
      ack pass it on an outdated listing, or the snapshot is full of owing records). */
  lemma HandedOverIsOwed(y: System, a: Action, x: int)
    requires Valid(y, a) && x in BatchIds(y, a) && x > Step(y, a).cursor
    requires var s := if a.PreInvocation? then BeginTurn(y.file, a.newTurn) else FlushAt(y, a).session;
             var conn := if a.PreInvocation? then a.conn.value else FlushAt(y, a).conn;
             !Crowded(Owing(Eligible(conn, s.retained, a.view), PresentedAbove(s, conn), s.delivered), x)
    ensures OwedAt(Step(y, a), x) && x in Step(y, a).file.delivered
  {
    if a.PreInvocation? {
      OwnedPreInvocation(y, a);
      TakenIsOwed(BeginTurn(y.file, a.newTurn), y.cursor, a.conn.value, a.view, {}, a.replies, x);
    } else {
      var f := FlushAt(y, a);
      OwnedStop(y, a);
      TakenIsOwed(f.session, f.cursor, f.conn, a.view, f.withheld, a.replies, x);
    }
  }

  lemma TakenIsOwed(s: Session, cursor: int, conn: Conn, view: Option<PeerView>, withheld: set<int>, replies: Replies, x: int)
    requires !Crowded(Owing(Eligible(conn, s.retained, view), PresentedAbove(s, conn), s.delivered), x)
    requires var t := Take(s, cursor, conn, view, withheld, replies); t.batch.Some? && x in IdsOf(t.batch.value)
    ensures var t := Take(s, cursor, conn, view, withheld, replies);
            x in t.session.retained && x in t.session.delivered && t.wrote
  {
    BatchComesFromCandidates(s, cursor, conn, view, withheld, replies, x);
    CandidateListIds(s, conn, view);
    var list, working := CandidateList(s, conn, view), Working(view);
    var presented, eligible := PresentedAbove(s, conn), Eligible(conn, s.retained, view);
    var handed := IdsOf(OutcomesOf(list, working));
    BatchIsTheProjection(s, cursor, conn, view, withheld, replies);
    OutcomeIdsArePresented(list, working);
    SnapshotKeeps(eligible, s.delivered, presented, presented + SuppressedIds(list, working) + handed, handed, x);
    BatchIsTaken(s, cursor, conn, view, withheld, replies);
  }

  lemma BatchIsTaken(s: Session, cursor: int, conn: Conn, view: Option<PeerView>, withheld: set<int>, replies: Replies)
    requires Take(s, cursor, conn, view, withheld, replies).batch.Some?
    ensures Take(s, cursor, conn, view, withheld, replies)
         == TakeBatch(s, cursor, Eligible(conn, s.retained, view), PresentedAbove(s, conn), CandidateList(s, conn, view), Working(view))
  {
  }

  lemma AnnouncedByPeek(seen: Session, conn: Conn, view: Option<PeerView>, x: int)
    requires x in PresentedIds(CandidateList(seen, conn, view), Working(view))
    ensures CandidateMap(seen, conn, view) != map[] && OutcomesOf(CandidateList(seen, conn, view), Working(view)) != []
    ensures x in Eligible(conn, seen.retained, view) && x !in PresentedAbove(seen, conn) && x > AckedId(conn)
  {
    CandidateListIds(seen, conn, view);
    var list := CandidateList(seen, conn, view);
    OutcomeIdsArePresented(list, Working(view));
    assert x in EventIds(list) && x in IdsOf(OutcomesOf(list, Working(view)));
    EligibleRecord(conn, seen.retained, view, x);
  }

  lemma PeekWithOutcomes(seen: Session, file: Session, cursor: int, conn: Conn, view: Option<PeerView>, waiter: Waiter, replies: Replies)
    requires CandidateMap(seen, conn, view) != map[] && OutcomesOf(CandidateList(seen, conn, view), Working(view)) != []
    ensures Peek(seen, file, cursor, conn, view, waiter, replies)
         == PeekWrite(seen, file, conn, Eligible(conn, seen.retained, view), DeferredIds(CandidateList(seen, conn, view), Working(view)),
                      Settling(PresentedAbove(seen, conn), {}, {}, cursor), true, waiter)
  {
  }

  /** An outcome a live waiter's poll announces is owed from then on, if nobody has
      presented it or acknowledged past it since the waiter read the file. */
  lemma PolledOutcomeIsOwed(y: System, a: Action, x: int)
    requires Valid(y, a) && a.Poll? && Owns(a) && !Superseded(y.file, a.waiter)
    requires var seen := y.memory[a.waiter].seen;
             && x in PresentedIds(CandidateList(seen, a.pollConn, a.view), Working(a.view))
             && !Crowded(Owing(Eligible(a.pollConn, seen.retained, a.view), PresentedAbove(seen, a.pollConn), y.file.delivered), x)
    requires x > y.cursor && (x in y.file.delivered || x !in y.file.presented)
    ensures OwedAt(Step(y, a), x)
  {
    var seen, conn := y.memory[a.waiter].seen, a.pollConn;
    var eligible, presented := Eligible(conn, seen.retained, a.view), PresentedAbove(seen, conn);
    AnnouncedByPeek(seen, conn, a.view, x);
    PeekWithOutcomes(seen, y.file, y.cursor, conn, a.view, a.waiter, a.replies);
    PollIsPeek(y, a);
    RetainedExactly(eligible, presented, y.file.delivered, x);
  }
}
