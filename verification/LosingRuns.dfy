/** Runs at which promises of the code fail, step by step: a waiter that loses a race for an
    event, and an id that is handed over while its acknowledgement waits in pendingAck. */
module LosingRuns {
  import opened Common
  import opened Projection
  import opened WakeView
  import opened HookSpec
  import opened FlushSafety
  import opened OwedEvents
  import opened DeliveryProtocol
  import opened Redelivery
  import opened Accounting

  // ---------------------------------------------------------------------
  // A session that knows a single event
  // ---------------------------------------------------------------------

  /** The view of a session whose snapshot holds one reachable event and whose daemon lists
      nothing. */
  ghost predicate KnowsOnly(s: Session, conn: Conn, view: Option<PeerView>, e: Event) {
    s.retained == map[e.id := e] && conn.listed == [] && Reachable(conn, view, e)
  }

  lemma OneEligible(s: Session, conn: Conn, view: Option<PeerView>, e: Event)
    requires KnowsOnly(s, conn, view, e)
    ensures Merged(conn, s.retained) == s.retained && Eligible(conn, s.retained, view) == map[e.id := e]
  {
    assert ById([]) == map[];
    assert Merged(conn, s.retained) == s.retained;
    SameEntries(Eligible(conn, s.retained, view), map[e.id := e]);
  }

  lemma OneRetained(e: Event, presented: set<int>, delivered: set<int>)
    requires e.id in delivered || e.id !in presented
    ensures Retain(map[e.id := e], presented, delivered) == map[e.id := e]
    ensures !Crowded(Owing(map[e.id := e], presented, delivered), e.id)
  {
    var all: Records := map[e.id := e];
    var owing := Owing(all, presented, delivered);
    SameEntries(owing, all);
    assert |all| == 1;
    LowestOfFew(owing, RETAINED_LIMIT);
    assert (set y | y in owing && y < e.id) == {};
  }

  lemma OneCandidate(s: Session, conn: Conn, view: Option<PeerView>, e: Event)
    requires KnowsOnly(s, conn, view, e) && e.id !in s.presented
    ensures CandidateMap(s, conn, view) == map[e.id := e]
    ensures forall c :: c in CandidateList(s, conn, view) <==> c == e
  {
    OneEligible(s, conn, view, e);
    var m := CandidateMap(s, conn, view);
    SameEntries(m, map[e.id := e]);
    forall c ensures c in CandidateList(s, conn, view) <==> c == e {
      InOrderMember(m, c);
    }
  }

  lemma NoCandidate(s: Session, conn: Conn, view: Option<PeerView>, e: Event)
    requires KnowsOnly(s, conn, view, e) && e.id in s.presented
    ensures CandidateMap(s, conn, view) == map[]
  {
    OneEligible(s, conn, view, e);
    assert e.id in PresentedAbove(s, conn);
    SameEntries(CandidateMap(s, conn, view), map[]);
  }

  lemma OneVerdict(list: seq<Event>, working: set<string>, e: Event)
    requires forall c :: c in list <==> c == e
    ensures PresentedIds(list, working) == if VerdictOf(list, working, e).Present? then {e.id} else {}
    ensures DeferredIds(list, working) == if VerdictOf(list, working, e).Defer? then {e.id} else {}
    ensures SuppressedIds(list, working) == if VerdictOf(list, working, e).Suppress? then {e.id} else {}
    ensures IdsOf(OutcomesOf(list, working)) == PresentedIds(list, working)
    ensures OutcomesOf(list, working) == [] <==> !VerdictOf(list, working, e).Present?
  {
    OutcomeIdsArePresented(list, working);
    var outcomes := OutcomesOf(list, working);
    assert outcomes != [] ==> outcomes[0].id in IdsOf(outcomes);
  }

  // ---------------------------------------------------------------------
  // The operations on such a session
  // ---------------------------------------------------------------------

  /** The verdict of e as the only event of the list. */
  ghost predicate Alone(e: Event, working: set<string>, verdict: Verdict) {
    forall list: seq<Event> | (forall c :: c in list <==> c == e) :: VerdictOf(list, working, e) == verdict
  }

  /** A completion that is usable by itself. */
  predicate PlainCompletion(e: Event) {
    IsCompletion(e) && !InFlightToolUse(e) && OutcomeKindOf(e) == Some(CompletedOutcome) && !e.fallback && e.excerpt != ""
  }

  predicate PeerWorks(e: Event, view: Option<PeerView>) {
    e.terminal.Some? && e.terminal.value in Working(view)
  }

  lemma CompletionAlone(e: Event, view: Option<PeerView>)
    requires PlainCompletion(e)
    ensures Alone(e, Working(view), if PeerWorks(e, view) then Defer else Present(CompletedOutcome))
  {
    forall list: seq<Event> | (forall c :: c in list <==> c == e)
      ensures VerdictOf(list, Working(view), e) == if PeerWorks(e, view) then Defer else Present(CompletedOutcome)
    {
      assert !HasNewerUsable(list, e);
    }
  }

  lemma FewIds(ids: set<int>, x: int)
    requires ids <= {x}
    ensures LastN(ids, PRESENTED_LIMIT) == ids
  {
    SubsetIsSmaller(ids, {x});
  }

  lemma TakeOne(s: Session, cursor: int, conn: Conn, view: Option<PeerView>, withheld: set<int>, replies: Replies, e: Event, kind: OutcomeKind)
    requires KnowsOnly(s, conn, view, e) && s.presented == {} && Alone(e, Working(view), Present(kind))
    ensures var t := Take(s, cursor, conn, view, withheld, replies);
            && t.session == s.(presented := {e.id}, delivered := s.delivered + {e.id}, deferred := {})
            && t.batch.Some? && IdsOf(t.batch.value) == {e.id} && t.cursor == cursor && t.wrote
  {
    var list, eligible := CandidateList(s, conn, view), Eligible(conn, s.retained, view);
    OneEligible(s, conn, view, e);
    OneCandidate(s, conn, view, e);
    OneVerdict(list, Working(view), e);
    assert PresentedAbove(s, conn) == {};
    assert CandidateMap(s, conn, view) != map[];
    TakenOne(s, cursor, eligible, list, Working(view), e);
  }

  lemma TakenOne(s: Session, cursor: int, eligible: Records, list: seq<Event>, working: set<string>, e: Event)
    requires s.presented == {} && s.retained == eligible == map[e.id := e]
    requires IdsOf(OutcomesOf(list, working)) == {e.id} && SuppressedIds(list, working) == DeferredIds(list, working) == {}
    ensures TakeBatch(s, cursor, eligible, {}, list, working)
         == Taken(s.(presented := {e.id}, delivered := s.delivered + {e.id}, deferred := {}), Some(OutcomesOf(list, working)), cursor, true)
  {
    OneRetained(e, {e.id}, s.delivered + {e.id});
    FewIds({e.id}, e.id);
    assert {} + {} + {e.id} == {e.id};
  }

  /** A peek that only defers the event, though the file has it presented and delivered. */
  lemma PeekDeferred(seen: Session, file: Session, cursor: int, conn: Conn, view: Option<PeerView>, waiter: Waiter, replies: Replies, e: Event)
    requires KnowsOnly(seen, conn, view, e) && seen.presented == {} && PlainCompletion(e) && PeerWorks(e, view)
    requires !Superseded(file, waiter) && file.delivered == file.presented == {e.id} && file.retained == seen.retained && e.id > AckedId(conn)
    ensures var p := Peek(seen, file, cursor, conn, view, waiter, replies);
            p.file == file.(deferred := {e.id}) && p.cursor == cursor && p.result == PeekResult(true, false, false)
  {
    var list, eligible := CandidateList(seen, conn, view), Eligible(conn, seen.retained, view);
    CompletionAlone(e, view);
    OneEligible(seen, conn, view, e);
    OneCandidate(seen, conn, view, e);
    OneVerdict(list, Working(view), e);
    assert PresentedAbove(seen, conn) == {};
    assert CandidateMap(seen, conn, view) != map[];
    NothingToSettle(list, Working(view), seen.delivered + file.delivered, {}, cursor, replies);
    WriteDeferred(seen, file, conn, eligible, cursor, waiter, e);
  }

  lemma NothingToSettle(list: seq<Event>, working: set<string>, bound: set<int>, presented: set<int>, cursor: int, replies: Replies)
    requires SuppressedIds(list, working) == {}
    ensures PeekSettling(list, working, bound, presented, cursor, replies) == Settling(presented, {}, {}, cursor)
  {
    assert SortedIds({}) == [];
  }

  lemma WriteDeferred(seen: Session, file: Session, conn: Conn, eligible: Records, cursor: int, waiter: Waiter, e: Event)
    requires !Superseded(file, waiter) && file.delivered == file.presented == {e.id} && file.retained == eligible == map[e.id := e]
    requires e.id > AckedId(conn)
    ensures var p := PeekWrite(seen, file, conn, eligible, {e.id}, Settling({}, {}, {}, cursor), false, waiter);
            p.file == file.(deferred := {e.id}) && p.cursor == cursor && p.result == PeekResult(true, false, false)
  {
    OneRetained(e, {}, file.delivered);
    FewIds({e.id}, e.id);
    assert PresentedAbove(file, conn) + {} == {e.id};
    assert file.pendingAck + {} == file.pendingAck;
  }

  /** A peek at a batch that is already presented changes nothing. */
  lemma PeekIdle(s: Session, cursor: int, conn: Conn, view: Option<PeerView>, waiter: Waiter, replies: Replies, e: Event)
    requires KnowsOnly(s, conn, view, e) && s.delivered == s.presented == {e.id} && s.deferred == {} && !Superseded(s, waiter)
    ensures var p := Peek(s, s, cursor, conn, view, waiter, replies);
            && p.file == s && p.seen == s && p.cursor == cursor && p.result == PeekResult(false, false, false)
  {
    OneEligible(s, conn, view, e);
    NoCandidate(s, conn, view, e);
    OneRetained(e, s.presented, s.delivered);
    assert PresentedAbove(s, conn) == s.presented;
    NothingChanges(s, cursor, Eligible(conn, s.retained, view));
  }

  lemma NothingChanges(s: Session, cursor: int, eligible: Records)
    requires s.deferred == {} && s.retained == eligible == Retain(eligible, s.presented, s.delivered) && s.delivered <= eligible.Keys
    ensures PeekNothing(s, s, cursor, eligible, s.presented) == Peeked(s, s, cursor, PeekResult(false, false, false))
  {
  }

  /** A flush whose transcript does not show the one delivered event keeps it. */
  lemma FlushWithheld(s: Session, cursor: int, conn: Conn, view: Option<PeerView>, transcript: Transcript, replies: Replies,
                      refreshed: Option<Conn>, x: int)
    requires s.delivered == {x} && s.pendingAck == {} && s.presented <= {x} && Withheld(s.delivered, transcript, x)
    ensures FlushAcks(s, cursor, conn, view, transcript, replies, refreshed) == Flushed(s, {x}, conn, cursor)
  {
    var g, start := Gate(s.delivered, transcript, replies), FlushStart(s, cursor, conn, view);
    assert s.pendingAck + s.delivered == {x};
    OneSorted(x);
    var f := FlushOne(g, start, x);
    assert [x][1..] == [];
    assert FlushLoop(g, start, [x]) == FlushLoop(g, f, []) == f;
    FewIds(s.presented, x);
    assert f.remaining == {x} && f.pending == {} && f.withheld == {x};
  }

  lemma OneSorted(x: int)
    ensures SortedIds({x}) == [x]
  {
    assert |{x}| == 1;
  }

  lemma NotReleased(s: Session, delivered: set<int>, conn: Conn, view: Option<PeerView>, e: Event)
    requires KnowsOnly(s, conn, view, e) && e.id in delivered && PlainCompletion(e)
    ensures !Released(s, delivered, conn, view, e.id)
  {
    OneEligible(s, conn, view, e);
    OneRetained(e, PresentedAbove(s, conn), delivered);
    if e.id in s.presented {
      PresentedIsNotSuppressed(s, conn, view, e);
    } else {
      OpenIsNotSuppressed(s, conn, view, e);
    }
  }

  lemma PresentedIsNotSuppressed(s: Session, conn: Conn, view: Option<PeerView>, e: Event)
    requires KnowsOnly(s, conn, view, e) && e.id in s.presented
    ensures !JudgedSuppressed(s, conn, view, e.id)
  {
    NoCandidate(s, conn, view, e);
    CandidateListIds(s, conn, view);
    NoneSuppressed(CandidateList(s, conn, view), Working(view));
  }

  lemma OpenIsNotSuppressed(s: Session, conn: Conn, view: Option<PeerView>, e: Event)
    requires KnowsOnly(s, conn, view, e) && e.id !in s.presented && PlainCompletion(e)
    ensures !JudgedSuppressed(s, conn, view, e.id)
  {
    CompletionAlone(e, view);
    OneCandidate(s, conn, view, e);
    OneVerdict(CandidateList(s, conn, view), Working(view), e);
  }

  lemma NoneSuppressed(list: seq<Event>, working: set<string>)
    requires EventIds(list) == {}
    ensures SuppressedIds(list, working) == {}
  {
    assert list == [] || list[0].id in EventIds(list);
  }

  // ---------------------------------------------------------------------
  // A waiter loses a race
  // ---------------------------------------------------------------------

  /** A session s whose one batch, the completion e, was handed over and is not confirmed
      yet; an owner that is told of nothing else; the peer idle in one view and working in
      the other; and a waiter that is not superseded. */
  datatype Race = Race(s: Session, e: Event, cursor: int, conn: Conn, idle: Option<PeerView>, working: Option<PeerView>,
                       waiter: Waiter, transcript: Transcript, replies: Replies)

  ghost predicate Delivered(s: Session, e: Event) {
    s.delivered == s.presented == {e.id} && s.pendingAck == s.deferred == {} && s.retained == map[e.id := e] && s.awaiting
  }

  ghost predicate CanRace(r: Race) {
    && Delivered(r.s, r.e) && !Superseded(r.s, r.waiter)
    && IsLocalOwner(r.conn) && AckedId(r.conn) == r.cursor && r.conn.listed == []
    && Reachable(r.conn, r.idle, r.e) && Reachable(r.conn, r.working, r.e)
    && PlainCompletion(r.e) && !PeerWorks(r.e, r.idle) && PeerWorks(r.e, r.working)
    && r.transcript.checked && r.e.id !in r.transcript.injected
  }

  /** Every step is one the model allows and gives no reason to let x go. */
  ghost predicate Unexcused(y: System, actions: seq<Action>, x: int)
    decreases |actions|
  {
    actions != [] ==> Valid(y, actions[0]) && !Excused(y, actions[0], x) && Unexcused(Step(y, actions[0]), actions[1..], x)
  }

  ghost predicate PollsIdle(y: System, a: Action, e: Event) {
    && a.Poll? && a.waiter in y.memory && y.memory[a.waiter] == Memory(y.file, {}, Looked)
    && Delivered(y.file, e) && !Superseded(y.file, a.waiter)
    && Owns(a) && AckedId(a.pollConn) == y.cursor && a.pollConn.listed == [] && Reachable(a.pollConn, a.view, e)
    && PlainCompletion(e)
  }

  lemma IdlePoll(y: System, a: Action, z: System, e: Event)
    requires PollsIdle(y, a, e)
    requires z.file == y.file && z.cursor == y.cursor && z.memory == y.memory[a.waiter := Memory(y.file, {}, Polled)]
    ensures LeadsBy(y, a, z, e.id)
  {
    PeekIdle(y.file, y.cursor, a.pollConn, a.view, a.waiter, a.replies, e);
    PollIsPeek(y, a);
    NotReleased(y.file, y.file.delivered, a.pollConn, a.view, e);
  }

  ghost predicate KeepsNoWaiter(y: System, a: Action, e: Event) {
    && a.Stop? && Owns(a) && AckedId(a.conn.value) == y.cursor && a.refreshed.None? && !a.keepWaiter && a.flushView == a.view
    && y.file.presented == {} && Delivered(y.file.(presented := {e.id}), e)
    && a.conn.value.listed == [] && Reachable(a.conn.value, a.view, e) && PlainCompletion(e) && !PeerWorks(e, a.view)
    && Withheld(y.file.delivered, a.transcript, e.id)
  }

  lemma FlushBetween(y: System, a: Action, e: Event)
    requires KeepsNoWaiter(y, a, e)
    ensures FlushAt(y, a) == Flushed(y.file, {e.id}, a.conn.value, y.cursor)
  {
    assert y.file.(awaiting := true) == y.file;
    FlushWithheld(y.file, y.cursor, a.conn.value, a.flushView, a.transcript, a.flushReplies, a.refreshed, e.id);
  }

  lemma HandOverUnexcused(y: System, a: Action, e: Event)
    requires KeepsNoWaiter(y, a, e)
    ensures !Excused(y, a, e.id)
  {
    FlushBetween(y, a, e);
    NotReleased(y.file, y.file.delivered, a.conn.value, a.view, e);
    StopUnexcused(y, a, e.id);
  }

  lemma StopUnexcused(y: System, a: Action, x: int)
    requires a.Stop? && Owns(a) && FlushAt(y, a) == Flushed(y.file, {x}, a.conn.value, y.cursor) && a.flushView == a.view
    requires !Confirmed(y.file, a.transcript, x) && x !in y.file.pendingAck
    requires !Released(y.file, y.file.delivered, a.conn.value, a.view, x)
    ensures !Excused(y, a, x)
  {
  }

  lemma TakeAgain(s: Session, cursor: int, conn: Conn, view: Option<PeerView>, withheld: set<int>, replies: Replies, e: Event)
    requires KnowsOnly(s, conn, view, e) && PlainCompletion(e) && !PeerWorks(e, view)
    requires s.presented == {} && s.delivered == {e.id} && s.deferred == {}
    ensures var t := Take(s, cursor, conn, view, withheld, replies);
            t.session == s.(presented := {e.id}) && t.cursor == cursor
  {
    CompletionAlone(e, view);
    TakeOne(s, cursor, conn, view, withheld, replies, e, CompletedOutcome);
    assert s.delivered + {e.id} == s.delivered;
  }

  lemma StopIsValid(y: System, a: Action)
    requires a.Stop? && Owns(a) && a.refreshed.None? && AckedId(a.conn.value) == y.cursor
    ensures Valid(y, a)
  {
  }

  lemma StopLeaves(y: System, a: Action, f: Flushed, t: Taken)
    requires a.Stop? && Owns(a) && !a.keepWaiter
    requires FlushAt(y, a) == f && Take(f.session, f.cursor, f.conn, a.view, f.withheld, a.replies) == t
    ensures Step(y, a) == System(t.session, t.cursor, y.memory)
  {
    OwnedStop(y, a);
  }

  /** The Stop hands the re-armed batch over again and leaves the epochs alone. */
  lemma HandOverBetween(y: System, a: Action, e: Event)
    requires KeepsNoWaiter(y, a, e)
    ensures Valid(y, a)
    ensures Step(y, a) == y.(file := y.file.(presented := {e.id}))
  {
    FlushBetween(y, a, e);
    TakeAgain(y.file, y.cursor, a.conn.value, a.view, {e.id}, a.replies, e);
    StopIsValid(y, a);
    StopLeaves(y, a, FlushAt(y, a), Take(y.file, y.cursor, a.conn.value, a.view, {e.id}, a.replies));
  }

  ghost predicate PollsStale(y: System, a: Action, e: Event) {
    && a.Poll? && a.waiter in y.memory && y.memory[a.waiter].stage.Reread?
    && Delivered(y.file, e) && y.memory[a.waiter].seen == y.file.(presented := {}) && !Superseded(y.file, a.waiter)
    && Owns(a) && AckedId(a.pollConn) == y.cursor && a.pollConn.listed == [] && Reachable(a.pollConn, a.view, e)
    && PlainCompletion(e) && PeerWorks(e, a.view)
  }

  lemma StalePollUnexcused(y: System, a: Action, e: Event)
    requires PollsStale(y, a, e)
    ensures !Excused(y, a, e.id) && !RaceLoses(y, a, e.id)
  {
    var seen := y.memory[a.waiter].seen;
    NotReleased(seen, y.file.delivered, a.pollConn, a.view, e);
    OneEligible(seen, a.pollConn, a.view, e);
    NotStale(seen, y.file, a.pollConn, e.id);
  }

  lemma NotStale(seen: Session, file: Session, conn: Conn, x: int)
    requires x in Merged(conn, seen.retained) && x !in seen.presented
    ensures !Stale(seen, file, conn, x)
  {
  }

  /** The verification goes by the copy from before that hand-over and finds the event
      deferred. */
  lemma StalePoll(y: System, a: Action, e: Event)
    requires PollsStale(y, a, e)
    ensures Valid(y, a)
    ensures Step(y, a).file == y.file.(deferred := {e.id}) && Step(y, a).cursor == y.cursor
    ensures a.waiter in Step(y, a).memory && Step(y, a).memory[a.waiter].stage.Empty?
    ensures Step(y, a).memory[a.waiter].targets == y.memory[a.waiter].targets
  {
    PeekDeferred(y.memory[a.waiter].seen, y.file, y.cursor, a.pollConn, a.view, a.waiter, a.replies, e);
    PollIsPeek(y, a);
  }

  /** The steps lead from y to z, and none gives a reason to let x go. */
  ghost predicate Leads(y: System, actions: seq<Action>, z: System, x: int) {
    Unexcused(y, actions, x) && After(y, actions) == z
  }

  ghost predicate LeadsBy(y: System, a: Action, z: System, x: int) {
    Valid(y, a) && !Excused(y, a, x) && Step(y, a) == z
  }

  lemma Chain(y: System, a: Action, mid: System, rest: seq<Action>, z: System, x: int)
    requires LeadsBy(y, a, mid, x) && Leads(mid, rest, z, x)
    ensures Leads(y, [a] + rest, z, x)
  {
    assert ([a] + rest)[1..] == rest;
  }

  ghost function Holding(r: Race, m: Memory): System {
    System(r.s, r.cursor, map[r.waiter := m])
  }

  ghost function Reopened(r: Race): Session {
    r.s.(presented := {})
  }

  ghost function RearmedSystem(r: Race, m: Memory): System {
    System(Reopened(r), r.cursor, map[r.waiter := m])
  }

  lemma LookFirst(r: Race)
    requires CanRace(r)
    ensures LeadsBy(System(r.s, r.cursor, map[]), Look(r.waiter), Holding(r, Memory(r.s, {}, Looked)), r.e.id)
  {
  }

  lemma PollFirst(r: Race)
    requires CanRace(r)
    ensures LeadsBy(Holding(r, Memory(r.s, {}, Looked)), Poll(r.waiter, r.conn, r.idle, r.replies), Holding(r, Memory(r.s, {}, Polled)), r.e.id)
  {
    var y, z := Holding(r, Memory(r.s, {}, Looked)), Holding(r, Memory(r.s, {}, Polled));
    var a := Poll(r.waiter, r.conn, r.idle, r.replies);
    FirstPollIsIdle(r);
    assert z.memory == y.memory[a.waiter := Memory(y.file, {}, Polled)];
    IdlePoll(y, a, z, r.e);
  }

  lemma FirstPollIsIdle(r: Race)
    requires CanRace(r)
    ensures PollsIdle(Holding(r, Memory(r.s, {}, Looked)), Poll(r.waiter, r.conn, r.idle, r.replies), r.e)
  {
  }

  lemma CheckAndRearm(r: Race)
    requires CanRace(r)
    ensures LeadsBy(Holding(r, Memory(r.s, {}, Polled)), Check(r.waiter), Holding(r, Memory(r.s, {}, Checked)), r.e.id)
    ensures LeadsBy(Holding(r, Memory(r.s, {}, Checked)), RearmBatch(r.waiter), RearmedSystem(r, Memory(r.s, {r.e.id}, Rearmed)), r.e.id)
    ensures LeadsBy(RearmedSystem(r, Memory(r.s, {r.e.id}, Rearmed)), Look(r.waiter),
                    RearmedSystem(r, Memory(Reopened(r), {r.e.id}, Reread)), r.e.id)
  {
    assert r.s.presented - r.s.delivered == {};
  }

  ghost function StopBetween(r: Race): Action {
    Stop(Some(r.conn), r.transcript, r.idle, r.replies, None, r.idle, r.replies, false, None)
  }

  lemma StopNext(r: Race)
    requires CanRace(r)
    ensures LeadsBy(RearmedSystem(r, Memory(Reopened(r), {r.e.id}, Reread)), StopBetween(r),
                    Holding(r, Memory(Reopened(r), {r.e.id}, Reread)), r.e.id)
  {
    var y := RearmedSystem(r, Memory(Reopened(r), {r.e.id}, Reread));
    assert Reopened(r).(presented := {r.e.id}) == r.s;
    HandOverUnexcused(y, StopBetween(r), r.e);
    HandOverBetween(y, StopBetween(r), r.e);
  }

  lemma NextPollIsStale(r: Race)
    requires CanRace(r)
    ensures PollsStale(Holding(r, Memory(Reopened(r), {r.e.id}, Reread)), Poll(r.waiter, r.conn, r.working, r.replies), r.e)
  {
  }

  lemma VerifyStep(y: System, a: Action, e: Event)
    requires PollsStale(y, a, e) && y.memory[a.waiter].targets == {e.id}
    ensures LeadsBy(y, a, Step(y, a), e.id)
    ensures var z := Step(y, a);
            z.file == y.file.(deferred := {e.id}) && z.cursor == y.cursor && ReadyToClear(z, a.waiter, e.id)
  {
    StalePollUnexcused(y, a, e);
    StalePoll(y, a, e);
  }

  ghost predicate ReadyToClear(y: System, waiter: Waiter, x: int) {
    && waiter in y.memory && y.memory[waiter].stage.Empty? && y.memory[waiter].targets == {x}
    && y.file.delivered == {x} && !Superseded(y.file, waiter)
  }

  lemma ClearLast(y: System, waiter: Waiter, x: int) returns (last: System)
    requires ReadyToClear(y, waiter, x)
    ensures Leads(y, [Clear(waiter)], last, x)
    ensures last.file == y.file.(delivered := {}) && last.cursor == y.cursor
  {
    last := System(y.file.(delivered := {}), y.cursor, y.memory - {waiter});
    ClearsAll(y, waiter, x);
    assert Leads(last, [], last, x);
    Chain(y, Clear(waiter), last, [], last, x);
    assert [Clear(waiter)] + [] == [Clear(waiter)];
  }

  lemma VerifyAndClear(y: System, a: Action, e: Event) returns (last: System)
    requires PollsStale(y, a, e) && y.memory[a.waiter].targets == {e.id}
    ensures Leads(y, [a] + [Clear(a.waiter)], last, e.id)
    ensures last.file == y.file.(delivered := {}, deferred := {e.id}) && last.cursor == y.cursor
  {
    var z := Step(y, a);
    VerifyStep(y, a, e);
    last := ClearLast(z, a.waiter, e.id);
    Chain(y, a, z, [Clear(a.waiter)], last, e.id);
  }

  lemma ClearsAll(y: System, waiter: Waiter, x: int)
    requires ReadyToClear(y, waiter, x)
    ensures LeadsBy(y, Clear(waiter), System(y.file.(delivered := {}), y.cursor, y.memory - {waiter}), x)
  {
  }

  ghost function RaceActions(r: Race): seq<Action> {
    [Look(r.waiter)] + ([Poll(r.waiter, r.conn, r.idle, r.replies)] + ([Check(r.waiter)] + ([RearmBatch(r.waiter)] + ([Look(r.waiter)]
      + ([StopBetween(r)] + ([Poll(r.waiter, r.conn, r.working, r.replies)] + [Clear(r.waiter)]))))))
  }

  /** The run: the waiter re-arms the batch and reads the file; a Stop without a new waiter
      hands the batch over again; the peer starts to work; the waiter verifies on its copy,
      finds nothing injectable and clears what it re-armed. No step has a reason to let the
      event go. It was owed, and ends neither delivered nor parked, and out of reach of any
      later hand-over. */
  lemma WaiterLosesRace(r: Race)
    requires CanRace(r)
    ensures var y, last := System(r.s, r.cursor, map[]), After(System(r.s, r.cursor, map[]), RaceActions(r));
            && Unexcused(y, RaceActions(r), r.e.id)
            && OwedAt(y, r.e.id) && !OwedAt(last, r.e.id)
            && !Outstanding(last.file, r.e.id) && Retired(last, r.e.id)
  {
    var w, x := r.waiter, r.e.id;
    NextPollIsStale(r);
    var last := VerifyAndClear(Holding(r, Memory(Reopened(r), {x}, Reread)), Poll(w, r.conn, r.working, r.replies), r.e);
    var verify := [Poll(w, r.conn, r.working, r.replies)] + [Clear(w)];
    LookFirst(r);
    PollFirst(r);
    CheckAndRearm(r);
    StopNext(r);
    Chain(RearmedSystem(r, Memory(Reopened(r), {x}, Reread)), StopBetween(r), Holding(r, Memory(Reopened(r), {x}, Reread)), verify, last, x);
    Chain(RearmedSystem(r, Memory(r.s, {x}, Rearmed)), Look(w), RearmedSystem(r, Memory(Reopened(r), {x}, Reread)), [StopBetween(r)] + verify, last, x);
    var more := [Look(w)] + ([StopBetween(r)] + verify);
    Chain(Holding(r, Memory(r.s, {}, Checked)), RearmBatch(w), RearmedSystem(r, Memory(r.s, {x}, Rearmed)), more, last, x);
    Chain(Holding(r, Memory(r.s, {}, Polled)), Check(w), Holding(r, Memory(r.s, {}, Checked)), [RearmBatch(w)] + more, last, x);
    Chain(Holding(r, Memory(r.s, {}, Looked)), Poll(w, r.conn, r.idle, r.replies), Holding(r, Memory(r.s, {}, Polled)),
          [Check(w)] + ([RearmBatch(w)] + more), last, x);
    Chain(System(r.s, r.cursor, map[]), Look(w), Holding(r, Memory(r.s, {}, Looked)),
          [Poll(w, r.conn, r.idle, r.replies)] + ([Check(w)] + ([RearmBatch(w)] + more)), last, x);
  }

  /** There are such sessions. */
  lemma SomeRace() returns (r: Race)
    ensures CanRace(r)
  {
    var e := Event(1, Done, "s", Some("w"), Some("peer"), None, None, "", "claude", "", false, "done", "");
    var s := Session({1}, {1}, {}, {}, map[1 := e], true, Some(1), Some(1), Some(7));
    var conn := Conn([], Presence("s", "w", "own"), Some(ScopeState(0, Some("own"), "s", "w")));
    r := Race(s, e, 0, conn, None, Some(PeerView({"w"}, {"peer"}, {"peer"})), Waiter(1, 7), Transcript(true, {}), id => Transient);
  }

  // ---------------------------------------------------------------------
  // Handed over while its ack is parked
  // ---------------------------------------------------------------------

  /** f only stands in for the completion c of a lower id in the same pane. */
  ghost predicate Covers(c: Event, f: Event) {
    && IsCompletion(c) && !InFlightToolUse(c) && c.terminal.Some?
    && HasPaneKey(c) && HasPaneKey(f) && PaneKey(c) == PaneKey(f) && c.id < f.id
    && f.fallback && !IsCompletion(f) && !InFlightToolUse(f) && OutcomeKindOf(f).Some?
  }

  /** The session knows both, f was handed over, is not confirmed, and was re-armed; the
      owner is told of nothing else. */
  ghost predicate KnowsBoth(s: Session, conn: Conn, c: Event, f: Event) {
    Covers(c, f) && s.retained == map[c.id := c, f.id := f] && s.presented == {} && conn.listed == []
  }

  /** The terminal of c works, or is gone. */
  ghost predicate PeerBusy(conn: Conn, view: Option<PeerView>, c: Event, f: Event) {
    Reachable(conn, view, c) && Reachable(conn, view, f) && PeerWorks(c, view)
  }

  ghost predicate PeerGone(conn: Conn, view: Option<PeerView>, c: Event, f: Event) {
    !Reachable(conn, view, c) && Reachable(conn, view, f)
  }

  lemma CoveredVerdicts(list: seq<Event>, working: set<string>, c: Event, f: Event)
    requires Covers(c, f) && c.terminal.value in working
    requires forall e :: e in list <==> e == c || e == f
    ensures PresentedIds(list, working) == {} && DeferredIds(list, working) == {c.id} && SuppressedIds(list, working) == {f.id}
  {
    assert PaneCompleted(list, f);
    assert VerdictOf(list, working, c) == Defer;
    assert VerdictOf(list, working, f) == Suppress(FallbackCovered);
  }

  lemma TwoEligible(s: Session, conn: Conn, view: Option<PeerView>, c: Event, f: Event)
    requires c.id != f.id && s.retained == map[c.id := c, f.id := f] && conn.listed == []
    requires Reachable(conn, view, f)
    ensures Eligible(conn, s.retained, view) == if Reachable(conn, view, c) then s.retained else map[f.id := f]
  {
    assert ById([]) == map[];
    assert Merged(conn, s.retained) == s.retained;
    SameEntries(Eligible(conn, s.retained, view), if Reachable(conn, view, c) then s.retained else map[f.id := f]);
  }

  lemma AllCandidates(s: Session, conn: Conn, view: Option<PeerView>)
    requires s.presented == {}
    ensures PresentedAbove(s, conn) == {} && CandidateMap(s, conn, view) == Eligible(conn, s.retained, view)
    ensures forall e :: e in CandidateList(s, conn, view) <==> e.id in Eligible(conn, s.retained, view) && Eligible(conn, s.retained, view)[e.id] == e
  {
    var eligible := Eligible(conn, s.retained, view);
    assert PresentedAbove(s, conn) == {};
    SameEntries(CandidateMap(s, conn, view), eligible);
    forall e ensures e in CandidateList(s, conn, view) <==> e.id in eligible && eligible[e.id] == e {
      InOrderMember(CandidateMap(s, conn, view), e);
    }
  }

  /** The completion waits for its working peer, so the failure it covers is held above it:
      presented, parked, and still delivered. */
  lemma SuppressionParks(s: Session, cursor: int, eligible: Records, list: seq<Event>, working: set<string>, c: Event, f: Event, replies: Replies)
    requires c.id < f.id && s.delivered == {f.id} && eligible == map[c.id := c, f.id := f]
    requires DeferredIds(list, working) == {c.id} && SuppressedIds(list, working) == {f.id}
    ensures var t := TakeSuppressed(s, cursor, eligible, {}, list, working, replies);
            && t.session == s.(presented := {f.id}, deferred := {c.id}, pendingAck := s.pendingAck + {f.id}, retained := eligible)
            && t.cursor == cursor && t.wrote
  {
    OneSorted(f.id);
    var hold := LowestId({c.id} + {f.id});
    assert hold == c.id;
    var start := Settling({}, {}, {}, cursor);
    assert SettleSuppressed([f.id], hold, replies, start) == SettleSuppressed([f.id][1..], hold, replies, Settling({f.id}, {f.id}, {}, cursor));
    assert [f.id][1..] == [];
    assert {} + {f.id} == {f.id};
    FewIds({f.id}, f.id);
    SameEntries(Owing(eligible, {f.id}, {f.id}), eligible);
    assert eligible.Keys == {c.id, f.id};
    LowestOfFew(Owing(eligible, {f.id}, {f.id}), RETAINED_LIMIT);
  }

  lemma NoOutcomes(list: seq<Event>, working: set<string>)
    requires PresentedIds(list, working) == {}
    ensures OutcomesOf(list, working) == []
  {
    OutcomeIdsArePresented(list, working);
    var outcomes := OutcomesOf(list, working);
    assert outcomes == [] || outcomes[0].id in IdsOf(outcomes);
  }

  /** The invocation while the peer works parks the failure. */
  lemma ParkingTake(s: Session, cursor: int, conn: Conn, view: Option<PeerView>, replies: Replies, c: Event, f: Event)
    requires KnowsBoth(s, conn, c, f) && PeerBusy(conn, view, c, f) && s.delivered == {f.id}
    ensures var t := Take(s, cursor, conn, view, {}, replies);
            && t.session == s.(presented := {f.id}, deferred := {c.id}, pendingAck := s.pendingAck + {f.id})
            && t.cursor == cursor && t.wrote
  {
    var list, working := CandidateList(s, conn, view), Working(view);
    TwoJudged(s, conn, view, c, f);
    NoOutcomes(list, working);
    SuppressionParks(s, cursor, s.retained, list, working, c, f, replies);
    TakeIsSuppressed(s, cursor, conn, view, replies);
  }

  lemma TwoJudged(s: Session, conn: Conn, view: Option<PeerView>, c: Event, f: Event)
    requires KnowsBoth(s, conn, c, f) && PeerBusy(conn, view, c, f)
    ensures var list, working := CandidateList(s, conn, view), Working(view);
            && PresentedIds(list, working) == {} && DeferredIds(list, working) == {c.id} && SuppressedIds(list, working) == {f.id}
    ensures Eligible(conn, s.retained, view) == s.retained && PresentedAbove(s, conn) == {} && CandidateMap(s, conn, view) != map[]
  {
    TwoEligible(s, conn, view, c, f);
    AllCandidates(s, conn, view);
    TwoRecords(CandidateList(s, conn, view), s.retained, c, f);
    CoveredVerdicts(CandidateList(s, conn, view), Working(view), c, f);
    assert f.id in CandidateMap(s, conn, view);
  }

  lemma TwoRecords(list: seq<Event>, records: Records, c: Event, f: Event)
    requires c.id != f.id && records == map[c.id := c, f.id := f]
    requires forall e :: e in list <==> e.id in records && records[e.id] == e
    ensures forall e :: e in list <==> e == c || e == f
  {
    forall e ensures e in list <==> e == c || e == f {
      assert e in list <==> e.id in records && records[e.id] == e;
    }
  }

  lemma TakeIsSuppressed(s: Session, cursor: int, conn: Conn, view: Option<PeerView>, replies: Replies)
    requires CandidateMap(s, conn, view) != map[] && OutcomesOf(CandidateList(s, conn, view), Working(view)) == []
    ensures Take(s, cursor, conn, view, {}, replies)
         == TakeSuppressed(s, cursor, Eligible(conn, s.retained, view), PresentedAbove(s, conn), CandidateList(s, conn, view), Working(view), replies)
  {
  }

  /** Once the completion is out of reach the failure stands alone, and is an outcome. */
  lemma StandInIsPresented(s: Session, conn: Conn, view: Option<PeerView>, c: Event, f: Event)
    requires KnowsBoth(s, conn, c, f) && PeerGone(conn, view, c, f)
    ensures f.id in PresentedIds(CandidateList(s, conn, view), Working(view))
  {
    TwoEligible(s, conn, view, c, f);
    AllCandidates(s, conn, view);
    AloneIsPresented(CandidateList(s, conn, view), Working(view), c, f);
  }

  lemma AloneIsPresented(list: seq<Event>, working: set<string>, c: Event, f: Event)
    requires Covers(c, f) && forall e :: e in list <==> e == f
    ensures f.id in PresentedIds(list, working)
  {
    assert !PaneCompleted(list, f);
    assert VerdictOf(list, working, f).Present?;
  }

  lemma ParkStep(y: System, a: Action, c: Event, f: Event)
    requires a.PreInvocation? && Owns(a) && AckedId(a.conn.value) == y.cursor && y.file.delivered == {f.id}
    requires KnowsBoth(y.file, a.conn.value, c, f) && PeerBusy(a.conn.value, a.view, c, f)
    ensures Valid(y, a) && Step(y, a).cursor == y.cursor && Step(y, a).memory == y.memory
    ensures Step(y, a).file == BeginTurn(y.file, a.newTurn).(presented := {f.id}, deferred := {c.id}, pendingAck := y.file.pendingAck + {f.id})
  {
    var s := BeginTurn(y.file, a.newTurn);
    BegunKnowsBoth(y.file, a.newTurn, a.conn.value, c, f);
    ParkingTake(s, y.cursor, a.conn.value, a.view, a.replies, c, f);
    TakenByInvocation(y, a, s, Take(s, y.cursor, a.conn.value, a.view, {}, a.replies));
  }

  lemma BegunKnowsBoth(file: Session, newTurn: bool, conn: Conn, c: Event, f: Event)
    requires KnowsBoth(file, conn, c, f)
    ensures KnowsBoth(BeginTurn(file, newTurn), conn, c, f) && BeginTurn(file, newTurn).delivered == file.delivered
  {
  }

  lemma RearmStep(y: System, waiter: Waiter, x: int)
    requires waiter in y.memory && y.memory[waiter].stage.Checked? && y.file.delivered == y.file.presented == {x}
    ensures Valid(y, RearmBatch(waiter)) && Step(y, RearmBatch(waiter)).file == y.file.(presented := {})
    ensures Step(y, RearmBatch(waiter)).cursor == y.cursor
  {
    assert {x} - {x} == {};
  }

  ghost predicate CanPark(y: System, waiter: Waiter, a: Action, c: Event, f: Event) {
    && waiter in y.memory && y.memory[waiter].stage.Checked? && y.file.delivered == y.file.presented == {f.id}
    && a.PreInvocation? && Owns(a) && AckedId(a.conn.value) == y.cursor
    && KnowsBoth(y.file.(presented := {}), a.conn.value, c, f) && PeerBusy(a.conn.value, a.view, c, f)
  }

  ghost predicate IsParked(s: Session, conn: Conn, c: Event, f: Event) {
    s.presented == s.delivered == {f.id} && f.id in s.pendingAck && KnowsBoth(s.(presented := {}), conn, c, f)
  }

  lemma ParkAfterRearm(y: System, waiter: Waiter, a: Action, c: Event, f: Event)
    requires CanPark(y, waiter, a, c, f)
    ensures var rearmed := Step(y, RearmBatch(waiter));
            && Valid(y, RearmBatch(waiter)) && Valid(rearmed, a)
            && Step(rearmed, a).cursor == y.cursor && IsParked(Step(rearmed, a).file, a.conn.value, c, f)
  {
    RearmStep(y, waiter, f.id);
    ParkStep(Step(y, RearmBatch(waiter)), a, c, f);
  }

  lemma StandInAfterAbandon(ended: System, a: Action, c: Event, f: Event)
    requires a.PreInvocation? && Owns(a) && AckedId(a.conn.value) == ended.cursor && PeerGone(a.conn.value, a.view, c, f)
    requires KnowsBoth(ended.file, a.conn.value, c, f) && f.id in ended.file.pendingAck
    ensures HandsOverParked(ended, a, f.id)
  {
    BegunKnowsBoth(ended.file, a.newTurn, a.conn.value, c, f);
    StandInIsPresented(BeginTurn(ended.file, a.newTurn), a.conn.value, a.view, c, f);
    InvocationHandsOver(ended, a, f.id);
  }

  lemma AbandonStep(parked: System)
    ensures Valid(parked, AbnormalStop) && Step(parked, AbnormalStop) == parked.(file := AbandonTurn(parked.file))
  {
  }

  /** The step hands x over while its ack is parked, before and after. */
  ghost predicate HandsOverParked(y: System, a: Action, x: int) {
    Valid(y, a) && x in BatchIds(y, a) && x in y.file.pendingAck && x in Step(y, a).file.pendingAck
  }

  /** The run: a waiter re-arms the delivered failure f; the next invocation parks its ack,
      since the completion c of its pane waits below it, and leaves it delivered; the turn
      ends abnormally; the invocation after that, the terminal of c being gone, hands f over
      while its ack is parked. */
  lemma ParkedIsHandedOver(y: System, waiter: Waiter, first: Action, second: Action, c: Event, f: Event)
    requires CanPark(y, waiter, first, c, f)
    requires second.PreInvocation? && second.conn == first.conn && PeerGone(second.conn.value, second.view, c, f)
    ensures var rearmed := Step(y, RearmBatch(waiter));
            var parked := Step(rearmed, first);
            && Valid(y, RearmBatch(waiter)) && Valid(rearmed, first) && Valid(parked, AbnormalStop)
            && HandsOverParked(Step(parked, AbnormalStop), second, f.id)
  {
    ParkAfterRearm(y, waiter, first, c, f);
    var parked := Step(Step(y, RearmBatch(waiter)), first);
    assert IsParked(parked.file, second.conn.value, c, f) && AckedId(second.conn.value) == parked.cursor;
    AbandonReopens(parked.file, second.conn.value, c, f);
    AbandonStep(parked);
    StandInAfterAbandon(Step(parked, AbnormalStop), second, c, f);
  }

  lemma AbandonReopens(file: Session, conn: Conn, c: Event, f: Event)
    requires IsParked(file, conn, c, f)
    ensures KnowsBoth(AbandonTurn(file), conn, c, f) && f.id in AbandonTurn(file).pendingAck
  {
    assert {f.id} - {f.id} == {};
  }

  /** There are such sessions. */
  lemma SomeStandIn() returns (y: System, waiter: Waiter, first: Action, second: Action, c: Event, f: Event)
    ensures CanPark(y, waiter, first, c, f)
    ensures second.PreInvocation? && second.conn == first.conn && PeerGone(second.conn.value, second.view, c, f)
  {
    c := Event(1, Done, "s", Some("w"), Some("peer"), Some("p"), Some("g"), "", "claude", "", false, "done", "");
    f := Event(2, Failed, "s", Some("w"), Some("next"), Some("p"), Some("g"), "", "claude", "", true, "", "");
    var s := Session({2}, {2}, {}, {}, map[1 := c, 2 := f], true, Some(1), Some(1), Some(7));
    var conn := Conn([], Presence("s", "w", "own"), Some(ScopeState(0, Some("own"), "s", "w")));
    waiter := Waiter(1, 7);
    y := System(s, 0, map[waiter := Memory(s, {}, Checked)]);
    first := PreInvocation(true, Some(conn), Some(PeerView({"w"}, {"peer", "next"}, {"peer"})), id => Transient);
    second := PreInvocation(true, Some(conn), Some(PeerView({"w"}, {"next"}, {})), id => Transient);
  }
}
