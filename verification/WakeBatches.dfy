/** What a take, a peek and a turn do to the session, read off the stored session, the
    daemon's answers and the live peers. */
module WakeBatches {
  import opened Common
  import opened Projection
  import opened WakeView
  import opened HookSpec
  import opened FlushSafety
  import opened OwedEvents
  import opened DeliveryProtocol

  // ---------------------------------------------------------------------
  // Which events are up for delivery
  // ---------------------------------------------------------------------

  ghost predicate Lists(listed: seq<Event>, id: int) {
    exists i :: 0 <= i < |listed| && listed[i].id == id
  }

  /** The list has e at i and nothing of its id behind it. */
  ghost predicate LastAt(listed: seq<Event>, e: Event, i: nat) {
    i < |listed| && listed[i] == e && forall j | i < j < |listed| :: listed[j].id != e.id
  }

  /** The record the hook goes by: the daemon's last one of that id, or else the one it kept. */
  ghost predicate KnownAs(conn: Conn, retained: Records, e: Event) {
    || (exists i: nat :: LastAt(conn.listed, e, i))
    || (e.id in retained && retained[e.id] == e && !Lists(conn.listed, e.id))
  }

  /** Above the cursor, from another terminal and of this session; and, unless the daemon still
      lists it or the peers are not known, in a live workspace or its own one, and from a live
      terminal if from any. */
  ghost predicate UpForDelivery(conn: Conn, view: Option<PeerView>, e: Event) {
    && (conn.state.Some? ==> e.id > conn.state.value.acked) && (conn.state.None? ==> e.id > 0)
    && (e.terminal.Some? ==> e.terminal.value != conn.presence.terminal) && (e.session != "" ==> e.session == conn.presence.session)
    && (view.Some? && !Lists(conn.listed, e.id) ==>
          && (e.workspace.Some? && e.workspace.value != "" && e.workspace.value != conn.presence.workspace ==> e.workspace.value in view.value.workspaces)
          && (e.terminal.Some? ==> e.terminal.value in view.value.terminals))
  }

  ghost predicate IsEligible(s: Session, conn: Conn, view: Option<PeerView>, e: Event) {
    KnownAs(conn, s.retained, e) && UpForDelivery(conn, view, e)
  }

  lemma {:induction false} ListedIds(listed: seq<Event>, id: int)
    ensures id in ById(listed) <==> Lists(listed, id)
    ensures id in ById(listed) ==> ById(listed)[id].id == id
    decreases |listed|
  {
    if listed != [] {
      var n := |listed| - 1;
      ListedIds(listed[..n], id);
      if Lists(listed[..n], id) {
        var i :| 0 <= i < n && listed[..n][i].id == id;
        assert listed[i].id == id;
      }
      if Lists(listed, id) && listed[n].id != id {
        var i :| 0 <= i < |listed| && listed[i].id == id;
        assert listed[..n][i].id == id;
      }
    }
  }

  lemma {:induction false} ListedLast(listed: seq<Event>, e: Event)
    ensures (exists i: nat :: LastAt(listed, e, i)) <==> e.id in ById(listed) && ById(listed)[e.id] == e
    decreases |listed|
  {
    if listed != [] {
      var n := |listed| - 1;
      if listed[n].id == e.id {
        if listed[n] == e {
          assert LastAt(listed, e, n);
        }
        assert forall i: nat | LastAt(listed, e, i) :: i == n;
      } else {
        ListedLast(listed[..n], e);
        forall i: nat ensures LastAt(listed, e, i) <==> LastAt(listed[..n], e, i) {
          assert i < n ==> listed[i] == listed[..n][i];
          assert forall j | i < j < n :: listed[j] == listed[..n][j];
        }
      }
    }
  }

  lemma EligibleExactly(s: Session, conn: Conn, view: Option<PeerView>, e: Event)
    ensures IsEligible(s, conn, view, e) <==> e.id in Eligible(conn, s.retained, view) && Eligible(conn, s.retained, view)[e.id] == e
    ensures e.id in Eligible(conn, s.retained, view) ==> Eligible(conn, s.retained, view)[e.id].id == e.id
  {
    ListedLast(conn.listed, e);
    ListedIds(conn.listed, e.id);
  }

  /** The candidates, in the order of their ids: what is eligible and was not presented yet. */
  lemma CandidatesExactly(s: Session, conn: Conn, view: Option<PeerView>)
    ensures var list := CandidateList(s, conn, view);
            && (forall e :: e in list <==> IsEligible(s, conn, view, e) && e.id !in s.presented)
            && (forall i, j | 0 <= i < j < |list| :: list[i].id < list[j].id)
  {
    var m, list := CandidateMap(s, conn, view), CandidateList(s, conn, view);
    forall e ensures e in list <==> IsEligible(s, conn, view, e) && e.id !in s.presented {
      InOrderMember(m, e);
      EligibleExactly(s, conn, view, e);
      if e.id in Eligible(conn, s.retained, view) {
        EligibleRecord(conn, s.retained, view, e.id);
      }
    }
    InOrderAscends(m);
  }

  lemma InOrderAscends(m: Records)
    ensures forall i, j | 0 <= i < j < |InOrder(m)| :: InOrder(m)[i].id < InOrder(m)[j].id
  {
    InOrderIsDistinct(m);
  }

  // ---------------------------------------------------------------------
  // The acks of a projection without outcomes
  // ---------------------------------------------------------------------

  /** The ack of a suppressed id may go out: nothing deferred or delivered is below it. (With
      nothing to wait for the bound is the greatest 64-bit value.) */
  ghost predicate MayGo(deferred: set<int>, delivered: set<int>, id: int) {
    (forall x | x in deferred + delivered :: id <= x) && (deferred + delivered == {} ==> id <= MAX_INT64)
  }

  /** Some lower ack went out and was answered as a failure that may pass: it ends the acks. */
  ghost predicate Blocked(ids: set<int>, deferred: set<int>, delivered: set<int>, replies: Replies, id: int) {
    exists y :: y in ids && y < id && MayGo(deferred, delivered, y) && (replies(y).OutOfOrder? || replies(y).Transient?)
  }

  lemma MayGoExactly(deferred: set<int>, delivered: set<int>, id: int)
    ensures MayGo(deferred, delivered, id) <==> id <= LowestId(deferred + delivered)
  {
  }

  ghost predicate Stuck(todo: seq<int>, hold: int, replies: Replies, id: int) {
    exists y :: y in todo && y < id && y <= hold && !Lands(replies(y))
  }

  /** From t to after: unless it is stuck, an id above the bound was held, and any other sent. */
  ghost predicate TodoSettled(todo: seq<int>, hold: int, replies: Replies, t: Settling, after: Settling) {
    && (forall x :: x in after.held <==> x in t.held || (x in todo && x > hold && !Stuck(todo, hold, replies, x)))
    && (forall x :: x in after.tried <==> x in t.tried || (x in todo && x <= hold && !Stuck(todo, hold, replies, x)))
  }

  lemma HeadSettled(todo: seq<int>, hold: int, replies: Replies, t: Settling, next: Settling, after: Settling)
    requires todo != [] && Ascending(todo) && (todo[0] > hold || Lands(replies(todo[0])))
    requires next.held == (if todo[0] > hold then t.held + {todo[0]} else t.held)
    requires next.tried == (if todo[0] > hold then t.tried else t.tried + {todo[0]})
    requires TodoSettled(todo[1..], hold, replies, next, after)
    ensures TodoSettled(todo, hold, replies, t, after)
  {
    StuckBehind(todo, hold, replies);
    HeadIsNotStuck(todo, hold, replies);
  }

  lemma HeadIsNotStuck(todo: seq<int>, hold: int, replies: Replies)
    requires todo != [] && Ascending(todo)
    ensures !Stuck(todo, hold, replies, todo[0])
    ensures forall x :: x in todo <==> x == todo[0] || x in todo[1..]
    ensures forall x | x in todo[1..] :: todo[0] < x
  {
    assert todo == [todo[0]] + todo[1..];
  }

  lemma HeadRefused(todo: seq<int>, hold: int, replies: Replies, t: Settling)
    requires todo != [] && Ascending(todo) && todo[0] <= hold && !Lands(replies(todo[0]))
    ensures TodoSettled(todo, hold, replies, t, t.(tried := t.tried + {todo[0]}, cursor := CursorAfter(t.cursor, todo[0], replies(todo[0]))))
  {
    HeadIsNotStuck(todo, hold, replies);
    assert todo[0] in todo;
    assert forall x | x in todo[1..] :: Stuck(todo, hold, replies, x);
  }

  lemma {:induction false} SettlesTodo(todo: seq<int>, hold: int, replies: Replies, t: Settling)
    requires Ascending(todo)
    ensures TodoSettled(todo, hold, replies, t, SettleSuppressed(todo, hold, replies, t))
    decreases |todo|
  {
    if todo != [] {
      var id, rest := todo[0], todo[1..];
      if id > hold {
        var held := t.(presented := t.presented + {id}, held := t.held + {id});
        SettlesTodo(rest, hold, replies, held);
        HeadSettled(todo, hold, replies, t, held, SettleSuppressed(rest, hold, replies, held));
      } else if Lands(replies(id)) {
        var sent := t.(tried := t.tried + {id}, cursor := CursorAfter(t.cursor, id, replies(id)), presented := t.presented + {id});
        SettlesTodo(rest, hold, replies, sent);
        HeadSettled(todo, hold, replies, t, sent, SettleSuppressed(rest, hold, replies, sent));
      } else {
        HeadRefused(todo, hold, replies, t);
      }
    }
  }

  lemma StuckBehind(todo: seq<int>, hold: int, replies: Replies)
    requires todo != [] && (todo[0] > hold || Lands(replies(todo[0])))
    ensures forall x :: Stuck(todo, hold, replies, x) <==> Stuck(todo[1..], hold, replies, x)
  {
    assert forall x :: x in todo <==> x == todo[0] || x in todo[1..];
  }

  lemma StuckIsBlocked(todo: seq<int>, ids: set<int>, deferred: set<int>, delivered: set<int>, replies: Replies)
    requires forall x :: x in todo <==> x in ids
    ensures forall x :: Stuck(todo, LowestId(deferred + delivered), replies, x) <==> Blocked(ids, deferred, delivered, replies, x)
  {
    forall y ensures MayGo(deferred, delivered, y) <==> y <= LowestId(deferred + delivered) {
      MayGoExactly(deferred, delivered, y);
    }
  }

  /** Exactly what becomes of the suppressed ids: behind an ack that was refused for now
      nothing happens; before it, an id that may go is sent and one that may not is held. The
      held ones are presented, and the sent ones unless refused; the cursor reaches every id
      whose ack advanced. */
  ghost predicate Settles(ids: set<int>, deferred: set<int>, delivered: set<int>, replies: Replies, start: Settling, t: Settling) {
    && (forall x :: x in t.held <==> x in ids && !Blocked(ids, deferred, delivered, replies, x) && !MayGo(deferred, delivered, x))
    && (forall x :: x in t.tried <==> x in ids && !Blocked(ids, deferred, delivered, replies, x) && MayGo(deferred, delivered, x))
    && (forall x :: x in t.presented <==> x in start.presented || x in t.held || (x in t.tried && !replies(x).OutOfOrder? && !replies(x).Transient?))
    && start.cursor <= t.cursor && (forall x | x in t.tried && replies(x).Advanced? :: x <= t.cursor)
    && (t.cursor == start.cursor || (t.cursor in t.tried && replies(t.cursor).Advanced?))
  }

  lemma TodoSettles(todo: seq<int>, ids: set<int>, deferred: set<int>, delivered: set<int>, replies: Replies, start: Settling)
    requires IdsIn(todo) == ids && Ascending(todo) && start.held == start.tried == {}
    ensures Settles(ids, deferred, delivered, replies, start, SettleSuppressed(todo, LowestId(deferred + delivered), replies, start))
  {
    var hold := LowestId(deferred + delivered);
    SettlesTodo(todo, hold, replies, start);
    SettleFromStart(start, todo, hold, replies);
    assert forall x :: x in todo <==> x in IdsIn(todo);
    StuckIsBlocked(todo, ids, deferred, delivered, replies);
    forall x ensures MayGo(deferred, delivered, x) <==> x <= hold {
      MayGoExactly(deferred, delivered, x);
    }
  }

  lemma SettleExactly(list: seq<Event>, working: set<string>, delivered: set<int>, presented: set<int>, cursor: int, replies: Replies)
    ensures Settles(SuppressedIds(list, working), DeferredIds(list, working), delivered, replies, Settling(presented, {}, {}, cursor),
                    SettleAll(list, working, delivered, presented, cursor, replies))
  {
    SortedIdsList(SuppressedIds(list, working));
    TodoSettles(SortedIds(SuppressedIds(list, working)), SuppressedIds(list, working), DeferredIds(list, working), delivered, replies,
                Settling(presented, {}, {}, cursor));
  }

  // ---------------------------------------------------------------------
  // What a take leaves
  // ---------------------------------------------------------------------

  ghost predicate IsCandidate(s: Session, conn: Conn, view: Option<PeerView>, e: Event) {
    IsEligible(s, conn, view, e) && e.id !in s.presented
  }

  function Acked(conn: Conn): int {
    if conn.state.Some? then conn.state.value.acked else 0
  }

  /** What was presented, without what is acknowledged. */
  function StillPresented(s: Session, conn: Conn): set<int> {
    set x | x in s.presented && Acked(conn) < x
  }

  ghost predicate AnyCandidate(s: Session, conn: Conn, view: Option<PeerView>) {
    exists e :: IsCandidate(s, conn, view, e)
  }

  /** The record is eligible, still waits to be presented or confirmed, and is among the hundred
      lowest that do. */
  ghost predicate WorthKeeping(s: Session, conn: Conn, view: Option<PeerView>, shown: set<int>, delivered: set<int>, e: Event) {
    && IsEligible(s, conn, view, e) && (e.id !in shown || e.id in delivered)
    && |set y | y in Eligible(conn, s.retained, view) && y < e.id && (y !in shown || y in delivered)| < 100
  }

  /** The snapshot holds exactly the records worth keeping. */
  ghost predicate Snapshots(kept: Records, s: Session, conn: Conn, view: Option<PeerView>, shown: set<int>, delivered: set<int>) {
    forall e: Event :: e.id in kept && kept[e.id] == e <==> WorthKeeping(s, conn, view, shown, delivered, e)
  }

  lemma SnapshotHas(s: Session, conn: Conn, view: Option<PeerView>, shown: set<int>, delivered: set<int>, e: Event)
    ensures var kept := Retain(Eligible(conn, s.retained, view), shown, delivered);
            e.id in kept && kept[e.id] == e <==> WorthKeeping(s, conn, view, shown, delivered, e)
  {
    EligibleExactly(s, conn, view, e);
    KeptHas(Eligible(conn, s.retained, view), shown, delivered, e);
  }

  lemma KeptHas(eligible: Records, shown: set<int>, delivered: set<int>, e: Event)
    ensures var kept := Retain(eligible, shown, delivered);
            e.id in kept && kept[e.id] == e <==>
            && e.id in eligible && eligible[e.id] == e && (e.id !in shown || e.id in delivered)
            && |set y | y in eligible && y < e.id && (y !in shown || y in delivered)| < 100
  {
    var owing := Owing(eligible, shown, delivered);
    RetainedExactly(eligible, shown, delivered, e.id);
    assert (set y | y in eligible && y < e.id && (y !in shown || y in delivered)) == (set y | y in owing && y < e.id);
  }

  lemma RetainSnapshots(s: Session, conn: Conn, view: Option<PeerView>, shown: set<int>, delivered: set<int>)
    ensures Snapshots(Retain(Eligible(conn, s.retained, view), shown, delivered), s, conn, view, shown, delivered)
  {
    var kept := Retain(Eligible(conn, s.retained, view), shown, delivered);
    forall e: Event ensures e.id in kept && kept[e.id] == e <==> WorthKeeping(s, conn, view, shown, delivered, e) {
      SnapshotHas(s, conn, view, shown, delivered, e);
    }
  }

  lemma CandidateIsOne(s: Session, conn: Conn, view: Option<PeerView>, e: Event)
    ensures IsCandidate(s, conn, view, e) <==> e.id in CandidateMap(s, conn, view) && CandidateMap(s, conn, view)[e.id] == e
  {
    EligibleExactly(s, conn, view, e);
    if e.id in Eligible(conn, s.retained, view) {
      EligibleRecord(conn, s.retained, view, e.id);
    }
  }

  lemma AnyCandidateExactly(s: Session, conn: Conn, view: Option<PeerView>)
    ensures AnyCandidate(s, conn, view) <==> CandidateMap(s, conn, view) != map[]
  {
    var m := CandidateMap(s, conn, view);
    if m != map[] {
      var id := SomeMember(m.Keys);
      assert m[id].id == id;
      CandidateIsOne(s, conn, view, m[id]);
    }
    if AnyCandidate(s, conn, view) {
      var e :| IsCandidate(s, conn, view, e);
      CandidateIsOne(s, conn, view, e);
    }
  }

  lemma TakeBranches(s: Session, cursor: int, conn: Conn, view: Option<PeerView>, withheld: set<int>, replies: Replies)
    ensures var list, eligible := CandidateList(s, conn, view), Eligible(conn, s.retained, view);
            Take(s, cursor, conn, view, withheld, replies) ==
            if CandidateMap(s, conn, view) == map[] then TakeNothing(s, cursor, eligible, StillPresented(s, conn), withheld)
            else if OutcomesOf(list, Working(view)) == [] then
              TakeSuppressed(s, cursor, eligible, StillPresented(s, conn), list, Working(view), replies)
            else TakeBatch(s, cursor, eligible, StillPresented(s, conn), list, Working(view))
  {
    assert PresentedAbove(s, conn) == StillPresented(s, conn);
  }

  /** Nothing but the batch lists differs. */
  ghost predicate OnlyLists(before: Session, after: Session) {
    && after.awaiting == before.awaiting && after.turnEpoch == before.turnEpoch
    && after.waiterEpoch == before.waiterEpoch && after.waiterPid == before.waiterPid
  }

  /** Without a candidate a take hands over nothing and acknowledges nothing. It drops every
      delivered id that is no longer eligible, unless the flush before withheld it, and
      freshens the snapshot; it writes exactly if one of the two changed something. */
  lemma TakeOfNothing(s: Session, cursor: int, conn: Conn, view: Option<PeerView>, withheld: set<int>, replies: Replies)
    requires !AnyCandidate(s, conn, view)
    ensures var t := Take(s, cursor, conn, view, withheld, replies);
            && t.batch.None? && t.cursor == cursor && OnlyLists(s, t.session)
            && (forall x :: x in t.session.delivered <==> x in s.delivered && (x in Eligible(conn, s.retained, view) || x in withheld))
            && t.session.presented == StillPresented(s, conn) && t.session.pendingAck == s.pendingAck && t.session.deferred == {}
            && (t.session.retained == s.retained || Snapshots(t.session.retained, s, conn, view, StillPresented(s, conn), s.delivered))
            && t.session.retained.Keys == Retain(Eligible(conn, s.retained, view), StillPresented(s, conn), s.delivered).Keys
            && (t.wrote <==> t.session.delivered != s.delivered || s.deferred != {} || t.session.retained.Keys != s.retained.Keys)
  {
    AnyCandidateExactly(s, conn, view);
    TakeBranches(s, cursor, conn, view, withheld, replies);
    RetainSnapshots(s, conn, view, StillPresented(s, conn), s.delivered);
    TookNothing(s, cursor, Eligible(conn, s.retained, view), StillPresented(s, conn), withheld);
  }

  lemma TookNothing(s: Session, cursor: int, eligible: Records, presented: set<int>, withheld: set<int>)
    ensures var t := TakeNothing(s, cursor, eligible, presented, withheld);
            && t.batch.None? && t.cursor == cursor && OnlyLists(s, t.session)
            && (forall x :: x in t.session.delivered <==> x in s.delivered && (x in eligible || x in withheld))
            && t.session.presented == presented && t.session.pendingAck == s.pendingAck && t.session.deferred == {}
            && (t.session.retained == s.retained || t.session.retained == Retain(eligible, presented, s.delivered))
            && t.session.retained.Keys == Retain(eligible, presented, s.delivered).Keys
            && (t.wrote <==> t.session.delivered != s.delivered || s.deferred != {} || t.session.retained.Keys != s.retained.Keys)
  {
  }

  /** With candidates of which none is an outcome, a take hands over nothing. It acknowledges
      the suppressed ones as far as nothing deferred or delivered is below, parks the others,
      and notes which are deferred. */
  lemma TakeOfSuppressed(s: Session, cursor: int, conn: Conn, view: Option<PeerView>, withheld: set<int>, replies: Replies) returns (st: Settling)
    requires AnyCandidate(s, conn, view) && PresentedIds(CandidateList(s, conn, view), Working(view)) == {}
    ensures var t, list := Take(s, cursor, conn, view, withheld, replies), CandidateList(s, conn, view);
            && t.wrote && t.batch.None? && t.cursor == st.cursor && OnlyLists(s, t.session)
            && Settles(SuppressedIds(list, Working(view)), DeferredIds(list, Working(view)), s.delivered, replies,
                       Settling(StillPresented(s, conn), {}, {}, cursor), st)
            && t.session.delivered == s.delivered && t.session.presented == LastN(st.presented, 500)
            && t.session.pendingAck == s.pendingAck + st.held && t.session.deferred == DeferredIds(list, Working(view))
            && Snapshots(t.session.retained, s, conn, view, st.presented, s.delivered)
  {
    var list := CandidateList(s, conn, view);
    AnyCandidateExactly(s, conn, view);
    NoneIsOutcome(list, Working(view));
    TakeBranches(s, cursor, conn, view, withheld, replies);
    st := SettleAll(list, Working(view), s.delivered, StillPresented(s, conn), cursor, replies);
    SettleExactly(list, Working(view), s.delivered, StillPresented(s, conn), cursor, replies);
    RetainSnapshots(s, conn, view, st.presented, s.delivered);
    TookSuppressed(s, cursor, Eligible(conn, s.retained, view), StillPresented(s, conn), list, Working(view), replies);
  }

  lemma TookSuppressed(s: Session, cursor: int, eligible: Records, presented: set<int>, list: seq<Event>, working: set<string>, replies: Replies)
    ensures var t, st := TakeSuppressed(s, cursor, eligible, presented, list, working, replies), SettleAll(list, working, s.delivered, presented, cursor, replies);
            && t.wrote && t.batch.None? && t.cursor == st.cursor && OnlyLists(s, t.session)
            && t.session.delivered == s.delivered && t.session.presented == LastN(st.presented, 500)
            && t.session.pendingAck == s.pendingAck + st.held && t.session.deferred == DeferredIds(list, working)
            && t.session.retained == Retain(eligible, st.presented, s.delivered)
  {
  }

  lemma NoneIsOutcome(list: seq<Event>, working: set<string>)
    ensures OutcomesOf(list, working) == [] <==> PresentedIds(list, working) == {}
  {
    OutcomeIdsArePresented(list, working);
    var outcomes := OutcomesOf(list, working);
    assert outcomes == [] || outcomes[0].id in IdsOf(outcomes);
  }

  /** With an outcome a take hands over all of them and acknowledges nothing: the outcomes are
      delivered and wait for their confirmation, the suppressed ones are parked. */
  lemma TakeOfOutcomes(s: Session, cursor: int, conn: Conn, view: Option<PeerView>, withheld: set<int>, replies: Replies)
    requires PresentedIds(CandidateList(s, conn, view), Working(view)) != {}
    ensures var t, list := Take(s, cursor, conn, view, withheld, replies), CandidateList(s, conn, view);
            var outcomes, suppressed := PresentedIds(list, Working(view)), SuppressedIds(list, Working(view));
            var shown := StillPresented(s, conn) + suppressed + outcomes;
            && t.wrote && t.batch == Some(OutcomesOf(list, Working(view))) && t.cursor == cursor && OnlyLists(s, t.session)
            && t.session.delivered == s.delivered + outcomes && t.session.presented == LastN(shown, 500)
            && t.session.pendingAck == s.pendingAck + suppressed && t.session.deferred == DeferredIds(list, Working(view))
            && Snapshots(t.session.retained, s, conn, view, shown, s.delivered + outcomes)
  {
    var list := CandidateList(s, conn, view);
    NoneIsOutcome(list, Working(view));
    OutcomeIdsArePresented(list, Working(view));
    SomeCandidate(s, conn, view);
    TakeBranches(s, cursor, conn, view, withheld, replies);
    RetainSnapshots(s, conn, view, StillPresented(s, conn) + SuppressedIds(list, Working(view)) + PresentedIds(list, Working(view)),
                    s.delivered + PresentedIds(list, Working(view)));
    TookBatch(s, cursor, Eligible(conn, s.retained, view), StillPresented(s, conn), list, Working(view));
  }

  lemma TookBatch(s: Session, cursor: int, eligible: Records, presented: set<int>, list: seq<Event>, working: set<string>)
    ensures var t, outcomes, suppressed := TakeBatch(s, cursor, eligible, presented, list, working), IdsOf(OutcomesOf(list, working)), SuppressedIds(list, working);
            var shown := presented + suppressed + outcomes;
            && t.wrote && t.batch == Some(OutcomesOf(list, working)) && t.cursor == cursor && OnlyLists(s, t.session)
            && t.session.delivered == s.delivered + outcomes && t.session.presented == LastN(shown, 500)
            && t.session.pendingAck == s.pendingAck + suppressed && t.session.deferred == DeferredIds(list, working)
            && t.session.retained == Retain(eligible, shown, s.delivered + outcomes)
  {
  }

  lemma SomeCandidate(s: Session, conn: Conn, view: Option<PeerView>)
    requires PresentedIds(CandidateList(s, conn, view), Working(view)) != {}
    ensures CandidateMap(s, conn, view) != map[]
  {
    var x := SomeMember(PresentedIds(CandidateList(s, conn, view), Working(view)));
    CandidateListIds(s, conn, view);
    assert x in EventIds(CandidateList(s, conn, view));
  }

  /** An event is handed over exactly if it is a candidate that its own fields and the rest of
      the candidates make an outcome. */
  lemma HandedOverExactly(s: Session, cursor: int, conn: Conn, view: Option<PeerView>, withheld: set<int>, replies: Replies, x: int)
    ensures var t := Take(s, cursor, conn, view, withheld, replies);
            t.batch.Some? && x in IdsOf(t.batch.value) <==>
            exists e: Event :: e.id == x && IsCandidate(s, conn, view, e) && VerdictOf(CandidateList(s, conn, view), Working(view), e).Present?
  {
    var list := CandidateList(s, conn, view);
    CandidatesExactly(s, conn, view);
    NoneIsOutcome(list, Working(view));
    if PresentedIds(list, Working(view)) != {} {
      TakeOfOutcomes(s, cursor, conn, view, withheld, replies);
      OutcomeIdsArePresented(list, Working(view));
    } else {
      NoBatchWithoutOutcome(s, cursor, conn, view, withheld, replies);
      assert forall e | e in list && VerdictOf(list, Working(view), e).Present? :: e.id in PresentedIds(list, Working(view));
    }
  }

  lemma NoBatchWithoutOutcome(s: Session, cursor: int, conn: Conn, view: Option<PeerView>, withheld: set<int>, replies: Replies)
    requires OutcomesOf(CandidateList(s, conn, view), Working(view)) == []
    ensures Take(s, cursor, conn, view, withheld, replies).batch.None?
  {
  }

  // ---------------------------------------------------------------------
  // What a peek finds and leaves
  // ---------------------------------------------------------------------

  /** The waiter is not the one the session expects: the turn, the recorded waiter epoch or the
      recorded pid is another's. */
  ghost predicate NotExpected(s: Session, waiter: Waiter) {
    || (s.turnEpoch.Some? && s.turnEpoch.value != waiter.epoch)
    || (s.waiterEpoch.Some? && s.waiterEpoch.value != waiter.epoch)
    || (s.waiterPid.Some? && s.waiterPid.value != waiter.pid)
  }

  /** A peek of a waiter that is not expected reports that and writes nothing. Any other reports
      outcomes exactly if its copy has a candidate that is one, and deferrals exactly if it has
      one whose peer works. */
  lemma PeekFindsExactly(seen: Session, file: Session, cursor: int, conn: Conn, view: Option<PeerView>, waiter: Waiter, replies: Replies)
    ensures var p, list := Peek(seen, file, cursor, conn, view, waiter, replies), CandidateList(seen, conn, view);
            && (p.result.superseded <==> NotExpected(file, waiter)) && (NotExpected(file, waiter) ==> p.file == file)
            && (p.result.hasOutcomes <==> !NotExpected(file, waiter) && PresentedIds(list, Working(view)) != {})
            && (p.result.hasDeferred <==> !NotExpected(file, waiter) && DeferredIds(list, Working(view)) != {})
  {
    var list := CandidateList(seen, conn, view);
    NoneIsOutcome(list, Working(view));
    PeekBranches(seen, file, cursor, conn, view, waiter, replies);
    if CandidateMap(seen, conn, view) == map[] {
      CandidateListIds(seen, conn, view);
      NothingJudged(list, Working(view));
    }
  }

  lemma NothingJudged(list: seq<Event>, working: set<string>)
    requires EventIds(list) == {}
    ensures PresentedIds(list, working) == {} && DeferredIds(list, working) == {}
  {
    assert list == [] || list[0].id in EventIds(list);
  }

  lemma PeekBranches(seen: Session, file: Session, cursor: int, conn: Conn, view: Option<PeerView>, waiter: Waiter, replies: Replies)
    ensures var list, p := CandidateList(seen, conn, view), Peek(seen, file, cursor, conn, view, waiter, replies);
            && (CandidateMap(seen, conn, view) == map[] ==>
                  && p.cursor == cursor && p.result == PeekResult(false, false, NotExpected(file, waiter))
                  && p.file == if NotExpected(file, waiter) then file
                               else PeekNothing(seen, file, cursor, Eligible(conn, seen.retained, view), StillPresented(seen, conn)).file)
            && (CandidateMap(seen, conn, view) != map[] ==>
                  p == PeekWrite(seen, file, conn, Eligible(conn, seen.retained, view), DeferredIds(list, Working(view)),
                                 PeekSettling(list, Working(view), seen.delivered + file.delivered, StillPresented(seen, conn), cursor, replies),
                                 OutcomesOf(list, Working(view)) != [], waiter))
  {
    assert PresentedAbove(seen, conn) == StillPresented(seen, conn);
  }

  /** Without a candidate the peek of an expected waiter acknowledges nothing; it drops from the
      file every delivered id that is not eligible to its copy, and freshens the snapshot. */
  lemma PeekOfNothing(seen: Session, file: Session, cursor: int, conn: Conn, view: Option<PeerView>, waiter: Waiter, replies: Replies)
    requires !AnyCandidate(seen, conn, view) && !NotExpected(file, waiter)
    ensures var p := Peek(seen, file, cursor, conn, view, waiter, replies);
            && p.cursor == cursor && OnlyLists(file, p.file)
            && (forall x :: x in p.file.delivered <==> x in file.delivered && x in Eligible(conn, seen.retained, view))
            && p.file.presented == file.presented && p.file.pendingAck == file.pendingAck && p.file.deferred == {}
            && (p.file.retained == file.retained || Snapshots(p.file.retained, seen, conn, view, StillPresented(seen, conn), file.delivered))
            && p.file.retained.Keys == Retain(Eligible(conn, seen.retained, view), StillPresented(seen, conn), file.delivered).Keys
  {
    AnyCandidateExactly(seen, conn, view);
    PeekBranches(seen, file, cursor, conn, view, waiter, replies);
    RetainSnapshots(seen, conn, view, StillPresented(seen, conn), file.delivered);
    PeekedNothing(seen, file, cursor, Eligible(conn, seen.retained, view), StillPresented(seen, conn));
  }

  lemma PeekedNothing(seen: Session, file: Session, cursor: int, eligible: Records, presented: set<int>)
    ensures var p := PeekNothing(seen, file, cursor, eligible, presented);
            && OnlyLists(file, p.file) && (forall x :: x in p.file.delivered <==> x in file.delivered && x in eligible)
            && p.file.presented == file.presented && p.file.pendingAck == file.pendingAck && p.file.deferred == {}
            && (p.file.retained == file.retained || p.file.retained == Retain(eligible, presented, file.delivered))
            && p.file.retained.Keys == Retain(eligible, presented, file.delivered).Keys
  {
  }

  /** With candidates it acknowledges, only if none is an outcome, the suppressed ones as far as
      nothing deferred, or delivered in its copy or in the file, is below; it presents and parks
      accordingly beside what the file has, notes the deferred ones, and presents no outcome. */
  lemma PeekOfCandidates(seen: Session, file: Session, cursor: int, conn: Conn, view: Option<PeerView>, waiter: Waiter, replies: Replies)
    returns (st: Settling)
    requires AnyCandidate(seen, conn, view)
    ensures var p, list := Peek(seen, file, cursor, conn, view, waiter, replies), CandidateList(seen, conn, view);
            var start := Settling(StillPresented(seen, conn), {}, {}, cursor);
            && p.cursor == st.cursor
            && (if PresentedIds(list, Working(view)) != {} then st == start
                else Settles(SuppressedIds(list, Working(view)), DeferredIds(list, Working(view)), seen.delivered + file.delivered, replies, start, st))
            && (!NotExpected(file, waiter) ==>
                  && OnlyLists(file, p.file) && p.file.delivered == file.delivered
                  && p.file.presented == LastN(StillPresented(file, conn) + st.presented, 500)
                  && p.file.pendingAck == file.pendingAck + st.held && p.file.deferred == DeferredIds(list, Working(view))
                  && Snapshots(p.file.retained, seen, conn, view, st.presented, file.delivered))
  {
    var list, bound := CandidateList(seen, conn, view), seen.delivered + file.delivered;
    AnyCandidateExactly(seen, conn, view);
    NoneIsOutcome(list, Working(view));
    PeekBranches(seen, file, cursor, conn, view, waiter, replies);
    st := PeekSettling(list, Working(view), bound, StillPresented(seen, conn), cursor, replies);
    SettleExactly(list, Working(view), bound, StillPresented(seen, conn), cursor, replies);
    RetainSnapshots(seen, conn, view, st.presented, file.delivered);
    PeekWrote(seen, file, conn, Eligible(conn, seen.retained, view), DeferredIds(list, Working(view)), st, OutcomesOf(list, Working(view)) != [], waiter);
  }

  lemma PeekWrote(seen: Session, file: Session, conn: Conn, eligible: Records, deferred: set<int>, t: Settling, hasOutcomes: bool, waiter: Waiter)
    ensures var p := PeekWrite(seen, file, conn, eligible, deferred, t, hasOutcomes, waiter);
            && p.cursor == t.cursor
            && (!NotExpected(file, waiter) ==>
                  && OnlyLists(file, p.file) && p.file.delivered == file.delivered
                  && p.file.presented == LastN(StillPresented(file, conn) + t.presented, 500)
                  && p.file.pendingAck == file.pendingAck + t.held && p.file.deferred == deferred
                  && p.file.retained == Retain(eligible, t.presented, file.delivered))
  {
    assert PresentedAbove(file, conn) == StillPresented(file, conn);
  }

  // ---------------------------------------------------------------------
  // What the hook events do to the turn
  // ---------------------------------------------------------------------

  /** A turn begins when the last one ended, a waiter is recorded, no turn was counted yet, or
      the host says so. It gets the next number, and the waiter of the last one is forgotten. */
  ghost predicate Begins(s: Session, newTurn: bool, after: Session) {
    if s.awaiting || s.waiterPid.Some? || s.turnEpoch.None? || newTurn then
      && !after.awaiting && after.turnEpoch == Some(if s.turnEpoch.Some? then s.turnEpoch.value + 1 else 1)
      && after.waiterEpoch.None? && after.waiterPid.None?
    else OnlyLists(s, after)
  }

  ghost predicate SameLists(s: Session, after: Session) {
    && after.presented == s.presented && after.delivered == s.delivered && after.pendingAck == s.pendingAck
    && after.deferred == s.deferred && after.retained == s.retained
  }

  lemma InvocationBegins(y: System, a: Action)
    requires a.PreInvocation?
    ensures Begins(y.file, a.newTurn, Step(y, a).file)
  {
    if Owns(a) {
      OwnedPreInvocation(y, a);
      var s := BeginTurn(y.file, a.newTurn);
      TakeKeepsTurn(s, y.cursor, a.conn.value, a.view, {}, a.replies);
      BegunStays(y.file, a.newTurn, Step(y, a).file);
    } else {
      BegunStays(y.file, a.newTurn, Step(y, a).file);
    }
  }

  lemma BegunStays(s: Session, newTurn: bool, after: Session)
    requires OnlyLists(BeginTurn(s, newTurn), after)
    ensures Begins(s, newTurn, after)
  {
  }

  lemma TakeKeepsTurn(s: Session, cursor: int, conn: Conn, view: Option<PeerView>, withheld: set<int>, replies: Replies)
    ensures OnlyLists(s, Take(s, cursor, conn, view, withheld, replies).session)
  {
    var list, eligible := CandidateList(s, conn, view), Eligible(conn, s.retained, view);
    TakeBranches(s, cursor, conn, view, withheld, replies);
    TookNothing(s, cursor, eligible, StillPresented(s, conn), withheld);
    TookSuppressed(s, cursor, eligible, StillPresented(s, conn), list, Working(view), replies);
    TookBatch(s, cursor, eligible, StillPresented(s, conn), list, Working(view));
  }

  /** Without the daemon an invocation leaves the lists alone. With it, but without the scope,
      it drops everything the session owed or kept, and leaves what was presented. */
  lemma InvocationWithoutScope(y: System, a: Action)
    requires a.PreInvocation? && !Owns(a)
    ensures var after := Step(y, a).file;
            && Step(y, a).cursor == y.cursor && BatchIds(y, a) == {}
            && if a.conn.None? then SameLists(y.file, after)
               else after.delivered == after.pendingAck == after.deferred == {} && after.retained == map[] && after.presented == y.file.presented
  {
  }

  /** The Stop of a turn that broke off makes what it was handed injectable again. */
  lemma AbnormalStopReopens(y: System)
    ensures var after := Step(y, AbnormalStop);
            && after.cursor == y.cursor && after.file.awaiting && after.file.delivered == {}
            && (forall x :: x in after.file.presented <==> x in y.file.presented && x !in y.file.delivered)
            && after.file.pendingAck == y.file.pendingAck && after.file.deferred == y.file.deferred && after.file.retained == y.file.retained
            && after.file.turnEpoch == y.file.turnEpoch && after.file.waiterEpoch == y.file.waiterEpoch && after.file.waiterPid == y.file.waiterPid
  {
  }

  /** A Stop ends the turn. The owner's that keeps a waiter starts one of the next number, the
      only one the session then expects; without the daemon nothing happens, and without the
      scope nothing else does. */
  lemma StopEnds(y: System, a: Action)
    requires a.Stop?
    ensures var after := Step(y, a).file;
            if a.conn.None? then Step(y, a) == y
            else if !Owns(a) then Step(y, a).cursor == y.cursor && SameLists(y.file, after) && OnlyLists(y.file.(awaiting := true), after)
            else if a.keepWaiter then
              && after.awaiting && after.turnEpoch == Some(if y.file.turnEpoch.Some? then y.file.turnEpoch.value + 1 else 1)
              && after.waiterEpoch == after.turnEpoch && after.waiterPid == a.pid
            else OnlyLists(y.file.(awaiting := true), after)
  {
    if Owns(a) {
      var f := FlushAt(y, a);
      OwnedStop(y, a);
      FlushKeepsTurn(y.file.(awaiting := true), y.cursor, a.conn.value, a.flushView, a.transcript, a.flushReplies, a.refreshed);
      TakeKeepsTurn(f.session, f.cursor, f.conn, a.view, f.withheld, a.replies);
    }
  }

  lemma FlushKeepsTurn(s: Session, cursor: int, conn: Conn, view: Option<PeerView>, transcript: Transcript, replies: Replies, refreshed: Option<Conn>)
    ensures OnlyLists(s, FlushAcks(s, cursor, conn, view, transcript, replies, refreshed).session)
  {
    FlushEndsExactly(s, cursor, conn, view, transcript, replies, refreshed, 0);
  }

  /** A Stop of the owner hands over what the take finds after its own flush, on the state the
      flush goes on with; an invocation what the take finds at once. */
  lemma HandsOverTake(y: System, a: Action)
    requires (a.PreInvocation? || a.Stop?) && Owns(a)
    ensures var t := if a.PreInvocation? then Take(BeginTurn(y.file, a.newTurn), y.cursor, a.conn.value, a.view, {}, a.replies)
                     else var f := FlushAcks(y.file.(awaiting := true), y.cursor, a.conn.value, a.flushView, a.transcript, a.flushReplies, a.refreshed);
                          Take(f.session, f.cursor, f.conn, a.view, f.withheld, a.replies);
            && BatchIds(y, a) == (if t.batch.Some? then IdsOf(t.batch.value) else {}) && Step(y, a).cursor == t.cursor
            && (t.wrote || a.Stop? ==> SameLists(t.session, Step(y, a).file))
            && (!t.wrote && a.PreInvocation? ==> SameLists(y.file, Step(y, a).file))
  {
    if a.PreInvocation? {
      OwnedPreInvocation(y, a);
    } else {
      OwnedStop(y, a);
    }
  }
}
