/** What one flush, one take and one peek keep: nothing is lost between the groups,
    and no acknowledgement is sent at or above an event that is still owed. */
module FlushSafety {
  import opened Common
  import opened Projection
  import opened WakeView
  import opened HookSpec

  // ---------------------------------------------------------------------
  // The flush loop
  // ---------------------------------------------------------------------

  ghost predicate Split(f: Flush, ids: set<int>) {
    && f.settled + f.dropped + f.remaining + f.pending == ids
    && f.settled !! f.dropped !! f.remaining !! f.pending
  }

  /** The acks sent so far: for handed-in ids the transcript does not withhold, below the
      bound, each with the outcome its reply gave. */
  ghost predicate Sent(g: Gate, start: Flush, f: Flush, ids: set<int>) {
    && (forall t | t in f.tried :: t in ids && t < start.hold && !Withheld(g.delivered, g.transcript, t))
    && (forall t :: t in f.settled <==> t in f.tried && (g.replies(t).Advanced? || g.replies(t).RowSettled?))
    && (forall t :: t in f.dropped <==> t in f.tried && g.replies(t).Permanent?)
    && start.cursor <= f.cursor
    && (f.cursor == start.cursor || (f.cursor in f.tried && g.replies(f.cursor).Advanced?))
    && (forall t | t in f.tried && g.replies(t).Advanced? :: t <= f.cursor)
  }

  /** The state of the loop once the ids of done are behind it and todo is ahead. */
  ghost predicate Progress(g: Gate, start: Flush, f: Flush, done: set<int>, todo: seq<int>) {
    && Ascending(todo)
    && Split(f, done)
    && Sent(g, start, f, done)
    && f.remaining <= g.delivered
    && f.hold <= start.hold
    && f.presented == start.presented + (done - f.remaining)
    && (forall t | t in f.tried :: t < f.hold && forall x | x in todo :: t < x)
    && (forall u | u in done && Withheld(g.delivered, g.transcript, u) :: u in f.remaining && f.hold <= u)
    && (forall u | u in f.withheld :: u in done && Withheld(g.delivered, g.transcript, u))
  }

  /** What a finished flush loop guarantees over all the ids it was handed. */
  ghost predicate FlushGuarantee(g: Gate, start: Flush, r: Flush, ids: set<int>) {
    && Split(r, ids)
    && Sent(g, start, r, ids)
    && r.remaining <= g.delivered
    && r.presented == start.presented + (ids - r.remaining)
    && (forall u | u in ids && Withheld(g.delivered, g.transcript, u) :: u in r.remaining && forall t | t in r.tried :: t < u)
    && (forall u | u in r.withheld :: Withheld(g.delivered, g.transcript, u))
  }

  lemma FlushOneProgress(g: Gate, start: Flush, f: Flush, done: set<int>, todo: seq<int>)
    requires todo != [] && Progress(g, start, f, done, todo) && todo[0] !in done && !Breaks(g, f, todo[0])
    ensures Progress(g, start, FlushOne(g, f, todo[0]), done + {todo[0]}, todo[1..])
  {
    var id := todo[0];
    var f' := FlushOne(g, f, id);
    assert forall x | x in todo[1..] :: x in todo && id < x;
    assert id in todo;
    if f.cursor != start.cursor { assert f.cursor < id; }
  }

  lemma FlushBreakDone(g: Gate, start: Flush, f: Flush, done: set<int>, todo: seq<int>)
    requires todo != [] && Progress(g, start, f, done, todo) && Breaks(g, f, todo[0])
    requires IdsIn(todo) !! done
    ensures FlushGuarantee(g, start, FlushBreak(g, f, todo), done + IdsIn(todo))
    ensures forall x | x in todo :: x in (if x in g.delivered then FlushBreak(g, f, todo).remaining else FlushBreak(g, f, todo).pending)
  {
    assert todo[0] in todo;
  }

  lemma {:induction false} FlushLoopKeeps(g: Gate, start: Flush, f: Flush, done: set<int>, todo: seq<int>)
    requires Progress(g, start, f, done, todo)
    requires IdsIn(todo) !! done
    ensures FlushGuarantee(g, start, FlushLoop(g, f, todo), done + IdsIn(todo))
    decreases |todo|
  {
    var all := done + IdsIn(todo);
    if todo == [] {
      assert all == done;
    } else if Breaks(g, f, todo[0]) {
      FlushBreakDone(g, start, f, done, todo);
    } else {
      FlushOneProgress(g, start, f, done, todo);
      IdsInHead(todo);
      assert all == (done + {todo[0]}) + IdsIn(todo[1..]);
      assert todo[0] !in todo[1..];
      FlushLoopKeeps(g, start, FlushOne(g, f, todo[0]), done + {todo[0]}, todo[1..]);
    }
  }

  ghost function IdsIn(ids: seq<int>): set<int> {
    set x | x in ids
  }

  lemma IdsInHead(ids: seq<int>)
    requires ids != []
    ensures IdsIn(ids) == {ids[0]} + IdsIn(ids[1..])
  {
    assert ids == [ids[0]] + ids[1..];
  }

  /** Everything one flush promises: its ids are split into settled, permanently failed,
      still delivered and still pending; every ack it sends is strictly below each
      unconfirmed delivered id and each candidate that is deferred or an outcome. */
  lemma FlushNeverAcksAboveOwed(s: Session, cursor: int, conn: Conn, view: Option<PeerView>, transcript: Transcript, replies: Replies)
    ensures var r := FlushRun(s, cursor, conn, view, transcript, replies);
            var list := CandidateList(s, conn, view);
            && FlushGuarantee(Gate(s.delivered, transcript, replies), FlushStart(s, cursor, conn, view), r, s.pendingAck + s.delivered)
            && (forall t, x | t in r.tried && x in DeferredIds(list, Working(view)) + PresentedIds(list, Working(view)) :: t < x)
            && (forall t, x | t in r.tried && x in s.delivered && Withheld(s.delivered, transcript, x) :: t < x)
  {
    FlushRunKeeps(s, cursor, conn, view, transcript, replies);
  }

  lemma FlushRunKeeps(s: Session, cursor: int, conn: Conn, view: Option<PeerView>, transcript: Transcript, replies: Replies)
    ensures FlushGuarantee(Gate(s.delivered, transcript, replies), FlushStart(s, cursor, conn, view),
                           FlushRun(s, cursor, conn, view, transcript, replies), s.pendingAck + s.delivered)
  {
    SortedIdsList(s.pendingAck + s.delivered);
    FlushFromStart(Gate(s.delivered, transcript, replies), FlushStart(s, cursor, conn, view), SortedIds(s.pendingAck + s.delivered));
  }

  lemma FlushFromStart(g: Gate, start: Flush, todo: seq<int>)
    requires Ascending(todo)
    requires start.remaining == start.pending == start.withheld == start.tried == start.settled == start.dropped == {}
    ensures FlushGuarantee(g, start, FlushLoop(g, start, todo), IdsIn(todo))
  {
    assert Progress(g, start, start, {}, todo);
    FlushLoopKeeps(g, start, start, {}, todo);
    assert {} + IdsIn(todo) == IdsIn(todo);
  }

  lemma SortedIdsList(ids: set<int>)
    ensures IdsIn(SortedIds(ids)) == ids && Ascending(SortedIds(ids))
  {
    var list := SortedIds(ids);
    forall x ensures x in IdsIn(list) <==> x in ids {}
  }

  // ---------------------------------------------------------------------
  // When an acknowledgement is sent, and where every id ends
  // ---------------------------------------------------------------------

  /** The transcript could be read and does not show the delivered id. */
  predicate Unconfirmed(g: Gate, id: int) {
    id in g.delivered && g.transcript.checked && id !in g.transcript.injected
  }

  /** Nothing below the id, nor the id itself, has to wait: it is below the bound the flush
      starts from and below every unconfirmed one of these ids. */
  ghost predicate Ackable(g: Gate, bound: int, ids: set<int>, t: int) {
    !Unconfirmed(g, t) && t < bound && forall u | u in ids && Unconfirmed(g, u) :: t < u
  }

  /** The loop so far: exactly the ackable ids were sent, none was answered as a transient
      failure, and each id went where its standing and its answer say. */
  ghost predicate Sends(g: Gate, start: Flush, f: Flush, done: set<int>) {
    && f.hold <= start.hold && (f.hold == start.hold || (f.hold in done && Unconfirmed(g, f.hold)))
    && (forall u | u in done && Unconfirmed(g, u) :: f.hold <= u)
    && (forall t :: t in f.tried <==> t in done && Ackable(g, start.hold, done, t))
    && (forall t | t in f.tried :: !g.replies(t).Transient?)
    && (forall t :: t in f.remaining <==> t in done && Unconfirmed(g, t))
    && (forall t :: t in f.withheld <==> t in done && Unconfirmed(g, t))
    && (forall t :: t in f.pending <==>
          t in done && !Unconfirmed(g, t) && (!Ackable(g, start.hold, done, t) || g.replies(t).OutOfOrder?))
  }

  lemma AckableStays(g: Gate, bound: int, done: set<int>, id: int)
    requires forall d | d in done :: d < id
    ensures forall t | t in done :: Ackable(g, bound, done + {id}, t) <==> Ackable(g, bound, done, t)
    ensures Ackable(g, bound, done + {id}, id) <==>
            !Unconfirmed(g, id) && id < bound && forall u | u in done && Unconfirmed(g, u) :: id < u
  {
  }

  lemma FlushOneSends(g: Gate, start: Flush, f: Flush, done: set<int>, id: int)
    requires Sends(g, start, f, done) && (forall d | d in done :: d < id) && !Breaks(g, f, id)
    ensures Sends(g, start, FlushOne(g, f, id), done + {id})
  {
    AckableStays(g, start.hold, done, id);
    assert Withheld(g.delivered, g.transcript, id) <==> Unconfirmed(g, id);
    assert id !in done;
    assert !Unconfirmed(g, id) ==> (id < f.hold <==> Ackable(g, start.hold, done + {id}, id));
  }

  /** The first ackable id that was answered as a transient failure, or anything after it. */
  ghost predicate Cut(g: Gate, bound: int, ids: set<int>, t: int) {
    exists u :: u in ids && u <= t && Ackable(g, bound, ids, u) && g.replies(u).Transient?
  }

  /** What a finished flush did with each of its ids. */
  ghost predicate Finished(g: Gate, start: Flush, r: Flush, ids: set<int>) {
    && (forall t :: t in r.tried <==>
          t in ids && Ackable(g, start.hold, ids, t) && forall u | u in ids && u < t && Ackable(g, start.hold, ids, u) :: !g.replies(u).Transient?)
    && (forall t :: t in r.remaining <==> t in ids && (Unconfirmed(g, t) || (t in g.delivered && Cut(g, start.hold, ids, t))))
    && (forall t :: t in r.pending <==>
          && t in ids && !Unconfirmed(g, t)
          && if Cut(g, start.hold, ids, t) then t !in g.delivered else !Ackable(g, start.hold, ids, t) || g.replies(t).OutOfOrder?)
    && (forall t | t in ids && Unconfirmed(g, t) && !Cut(g, start.hold, ids, t) :: t in r.withheld)
    && (forall t | t in r.withheld :: t in ids && Unconfirmed(g, t))
  }

  lemma SentAll(g: Gate, start: Flush, f: Flush, ids: set<int>)
    requires Sends(g, start, f, ids)
    ensures Finished(g, start, f, ids)
  {
    forall u | u in ids && Ackable(g, start.hold, ids, u) ensures !g.replies(u).Transient? {
      assert u in f.tried;
    }
  }

  lemma FlushBreakSends(g: Gate, start: Flush, f: Flush, done: set<int>, todo: seq<int>)
    requires todo != [] && Ascending(todo) && Sends(g, start, f, done) && Breaks(g, f, todo[0])
    requires forall d, x | d in done && x in todo :: d < x
    ensures Finished(g, start, FlushBreak(g, f, todo), done + IdsIn(todo))
  {
    var ids, id := done + IdsIn(todo), todo[0];
    assert id in todo;
    assert forall x | x in todo :: id <= x;
    assert !Unconfirmed(g, id);
    assert Ackable(g, start.hold, ids, id);
    forall u | u in done ensures Ackable(g, start.hold, ids, u) <==> u in f.tried {
      assert Ackable(g, start.hold, ids, u) <==> Ackable(g, start.hold, done, u);
    }
    forall t ensures Cut(g, start.hold, ids, t) <==> id <= t {
      assert id <= t ==> id in ids && Ackable(g, start.hold, ids, id) && g.replies(id).Transient?;
      assert forall u | u in ids && u < id && Ackable(g, start.hold, ids, u) :: u in done && u in f.tried;
    }
  }

  lemma {:induction false} FlushLoopSends(g: Gate, start: Flush, f: Flush, done: set<int>, todo: seq<int>)
    requires Sends(g, start, f, done) && Ascending(todo)
    requires forall d, x | d in done && x in todo :: d < x
    ensures Finished(g, start, FlushLoop(g, f, todo), done + IdsIn(todo))
    decreases |todo|
  {
    if todo == [] {
      assert done + IdsIn(todo) == done;
      SentAll(g, start, f, done);
    } else if Breaks(g, f, todo[0]) {
      FlushBreakSends(g, start, f, done, todo);
    } else {
      assert todo[0] in todo;
      FlushOneSends(g, start, f, done, todo[0]);
      IdsInHead(todo);
      assert done + IdsIn(todo) == (done + {todo[0]}) + IdsIn(todo[1..]);
      FlushLoopSends(g, start, FlushOne(g, f, todo[0]), done + {todo[0]}, todo[1..]);
    }
  }

  lemma FlushRunSends(s: Session, cursor: int, conn: Conn, view: Option<PeerView>, transcript: Transcript, replies: Replies)
    ensures Finished(Gate(s.delivered, transcript, replies), FlushStart(s, cursor, conn, view),
                     FlushRun(s, cursor, conn, view, transcript, replies), s.pendingAck + s.delivered)
  {
    var ids := s.pendingAck + s.delivered;
    SortedIdsList(ids);
    var g, start := Gate(s.delivered, transcript, replies), FlushStart(s, cursor, conn, view);
    FreshSends(g, start, SortedIds(ids));
  }

  lemma FreshSends(g: Gate, start: Flush, todo: seq<int>)
    requires Ascending(todo)
    requires start.remaining == start.pending == start.withheld == start.tried == {}
    ensures Finished(g, start, FlushLoop(g, start, todo), IdsIn(todo))
  {
    assert Sends(g, start, start, {});
    FlushLoopSends(g, start, start, {}, todo);
    assert {} + IdsIn(todo) == IdsIn(todo);
  }

  /** The ack of t may go out: the delivery is confirmed or cannot be checked, and every
      candidate that is deferred or an outcome, and every unconfirmed delivered id, is above
      it. (Without a candidate the bound is the greatest 64-bit value, which is no id.) */
  ghost predicate Free(s: Session, conn: Conn, view: Option<PeerView>, transcript: Transcript, t: int) {
    var list := CandidateList(s, conn, view);
    var owed := DeferredIds(list, Working(view)) + PresentedIds(list, Working(view));
    && t in s.pendingAck + s.delivered
    && !(t in s.delivered && transcript.checked && t !in transcript.injected)
    && (forall x | x in owed :: t < x) && (owed == {} ==> t < MAX_INT64)
    && (forall x | x in s.delivered && transcript.checked && x !in transcript.injected :: t < x)
  }

  lemma FreeIsAckable(s: Session, cursor: int, conn: Conn, view: Option<PeerView>, transcript: Transcript, replies: Replies, t: int)
    ensures Free(s, conn, view, transcript, t) <==>
            t in s.pendingAck + s.delivered
            && Ackable(Gate(s.delivered, transcript, replies), FlushStart(s, cursor, conn, view).hold, s.pendingAck + s.delivered, t)
  {
    BelowLowest(DeferredIds(CandidateList(s, conn, view), Working(view)) + PresentedIds(CandidateList(s, conn, view), Working(view)), t);
  }

  lemma BelowLowest(ids: set<int>, t: int)
    ensures t < LowestId(ids) <==> (forall x | x in ids :: t < x) && (ids == {} ==> t < MAX_INT64)
  {
  }

  /** The id is at or behind the first ack that may go out and is answered as a transient
      failure, which ends the flush. */
  ghost predicate CutOff(s: Session, conn: Conn, view: Option<PeerView>, transcript: Transcript, replies: Replies, t: int) {
    exists u :: u <= t && Free(s, conn, view, transcript, u) && replies(u).Transient?
  }

  lemma CutOffIsCut(s: Session, cursor: int, conn: Conn, view: Option<PeerView>, transcript: Transcript, replies: Replies, t: int)
    ensures CutOff(s, conn, view, transcript, replies, t) <==>
            Cut(Gate(s.delivered, transcript, replies), FlushStart(s, cursor, conn, view).hold, s.pendingAck + s.delivered, t)
  {
    forall u ensures Free(s, conn, view, transcript, u) <==>
                     u in s.pendingAck + s.delivered
                     && Ackable(Gate(s.delivered, transcript, replies), FlushStart(s, cursor, conn, view).hold, s.pendingAck + s.delivered, u)
    {
      FreeIsAckable(s, cursor, conn, view, transcript, replies, u);
    }
  }

  /** The ack goes out: nothing before it was answered as a transient failure. */
  ghost predicate GoesOut(s: Session, conn: Conn, view: Option<PeerView>, transcript: Transcript, replies: Replies, t: int) {
    Free(s, conn, view, transcript, t) && forall u | u < t && Free(s, conn, view, transcript, u) :: !replies(u).Transient?
  }

  /** Exactly which acks a flush sends: those that may go out, up to and including the first
      that is answered as a transient failure. */
  lemma FlushSendsExactly(s: Session, cursor: int, conn: Conn, view: Option<PeerView>, transcript: Transcript, replies: Replies, t: int)
    ensures t in FlushRun(s, cursor, conn, view, transcript, replies).tried <==> GoesOut(s, conn, view, transcript, replies, t)
  {
    FlushRunSends(s, cursor, conn, view, transcript, replies);
    FreeIsAckable(s, cursor, conn, view, transcript, replies, t);
    forall u ensures Free(s, conn, view, transcript, u) <==>
                     u in s.pendingAck + s.delivered
                     && Ackable(Gate(s.delivered, transcript, replies), FlushStart(s, cursor, conn, view).hold, s.pendingAck + s.delivered, u)
    {
      FreeIsAckable(s, cursor, conn, view, transcript, replies, u);
    }
  }

  /** Where each id of a flush ends. It stays delivered exactly if it is unconfirmed, or was
      delivered and is cut off. It is pending exactly if it is not unconfirmed, and: cut off
      and not delivered, or not cut off and either not free to go or answered as out of order.
      So a landed ack is on neither list. */
  lemma FlushEndsExactly(s: Session, cursor: int, conn: Conn, view: Option<PeerView>, transcript: Transcript, replies: Replies,
                         refreshed: Option<Conn>, t: int)
    ensures var after := FlushAcks(s, cursor, conn, view, transcript, replies, refreshed).session;
            var unconfirmed := t in s.delivered && transcript.checked && t !in transcript.injected;
            var cut := CutOff(s, conn, view, transcript, replies, t);
            && (t in after.delivered <==> unconfirmed || (t in s.delivered && cut))
            && (t in after.pendingAck <==>
                  && t in s.pendingAck + s.delivered && !unconfirmed
                  && if cut then t !in s.delivered else !Free(s, conn, view, transcript, t) || replies(t).OutOfOrder?)
            && after == s.(presented := after.presented, delivered := after.delivered, pendingAck := after.pendingAck,
                           deferred := if s.pendingAck + s.delivered == {} then {} else s.deferred)
  {
    if s.pendingAck + s.delivered != {} {
      FlushRunSends(s, cursor, conn, view, transcript, replies);
      FreeIsAckable(s, cursor, conn, view, transcript, replies, t);
      CutOffIsCut(s, cursor, conn, view, transcript, replies, t);
    } else {
      NothingIsFree(s, conn, view, transcript);
    }
  }

  lemma NothingIsFree(s: Session, conn: Conn, view: Option<PeerView>, transcript: Transcript)
    requires s.pendingAck + s.delivered == {}
    ensures forall u :: !Free(s, conn, view, transcript, u)
  {
  }

  /** The cursor after a flush: it reaches every id whose ack advanced, and is otherwise the
      old one. A flush goes on with the refreshed state exactly if some ack landed and there is
      one. */
  lemma FlushCursorExactly(s: Session, cursor: int, conn: Conn, view: Option<PeerView>, transcript: Transcript, replies: Replies,
                           refreshed: Option<Conn>)
    ensures var after := FlushAcks(s, cursor, conn, view, transcript, replies, refreshed);
            && cursor <= after.cursor
            && (forall t | GoesOut(s, conn, view, transcript, replies, t) && replies(t).Advanced? :: t <= after.cursor)
            && (after.cursor == cursor || (GoesOut(s, conn, view, transcript, replies, after.cursor) && replies(after.cursor).Advanced?))
            && (after.conn == if refreshed.Some? && SomeLanded(s, conn, view, transcript, replies) then refreshed.value else conn)
  {
    if s.pendingAck + s.delivered != {} {
      var r := FlushRun(s, cursor, conn, view, transcript, replies);
      FlushRunKeeps(s, cursor, conn, view, transcript, replies);
      forall t ensures t in r.tried <==> GoesOut(s, conn, view, transcript, replies, t) {
        FlushSendsExactly(s, cursor, conn, view, transcript, replies, t);
      }
      LandedSome(Gate(s.delivered, transcript, replies), FlushStart(s, cursor, conn, view), r, s.pendingAck + s.delivered, s, conn, view);
    } else {
      NothingIsFree(s, conn, view, transcript);
    }
  }

  ghost predicate SomeLanded(s: Session, conn: Conn, view: Option<PeerView>, transcript: Transcript, replies: Replies) {
    exists t :: GoesOut(s, conn, view, transcript, replies, t) && (replies(t).Advanced? || replies(t).RowSettled?)
  }

  lemma LandedSome(g: Gate, start: Flush, r: Flush, ids: set<int>, s: Session, conn: Conn, view: Option<PeerView>)
    requires Sent(g, start, r, ids)
    requires forall t :: t in r.tried <==> GoesOut(s, conn, view, g.transcript, g.replies, t)
    ensures r.settled != {} <==> SomeLanded(s, conn, view, g.transcript, g.replies)
  {
    if r.settled != {} {
      var t := SomeMember(r.settled);
      assert t in r.tried;
    }
  }

  // ---------------------------------------------------------------------
  // The acknowledgements of suppressed ids
  // ---------------------------------------------------------------------

  /** The reply leaves nothing more to do for the id. */
  predicate Lands(reply: Reply) {
    !reply.OutOfOrder? && !reply.Transient?
  }

  ghost function Landed(tried: set<int>, replies: Replies): set<int> {
    set a | a in tried && Lands(replies(a))
  }

  /** Every id is held above the bound or sent at or below it; exactly the held ids and
      those whose ack landed are presented, and an id is left alone only behind an ack
      that did not land. */
  ghost predicate SettlingKeeps(start: Settling, t: Settling, ids: set<int>, hold: int, replies: Replies) {
    && t.held <= ids && (forall h | h in t.held :: h > hold)
    && t.tried <= ids && (forall a | a in t.tried :: a <= hold)
    && t.presented == start.presented + t.held + Landed(t.tried, replies)
    && (forall x | x in ids :: x in t.held || x in t.tried || exists a :: a in t.tried && !Lands(replies(a)) && a < x)
    && start.cursor <= t.cursor
    && (t.cursor == start.cursor || (t.cursor in t.tried && replies(t.cursor).Advanced?))
    && (forall a | a in t.tried && replies(a).Advanced? :: a <= t.cursor)
  }

  lemma {:induction false} SettleSuppressedKeeps(start: Settling, t: Settling, done: set<int>, todo: seq<int>, hold: int, replies: Replies)
    requires SettlingKeeps(start, t, done, hold, replies) && Ascending(todo)
    ensures SettlingKeeps(start, SettleSuppressed(todo, hold, replies, t), done + IdsIn(todo), hold, replies)
    decreases |todo|
  {
    if todo == [] {
      assert done + IdsIn(todo) == done;
    } else {
      var id := todo[0];
      var rest := todo[1..];
      IdsInHead(todo);
      assert done + IdsIn(todo) == (done + {id}) + IdsIn(rest);
      if id > hold {
        var held := t.(presented := t.presented + {id}, held := t.held + {id});
        HeldKeeps(start, t, done, id, hold, replies);
        SettleSuppressedKeeps(start, held, done + {id}, rest, hold, replies);
      } else {
        var sent := t.(tried := t.tried + {id}, cursor := CursorAfter(t.cursor, id, replies(id)));
        if Lands(replies(id)) {
          LandedKeeps(start, t, done, id, hold, replies);
          SettleSuppressedKeeps(start, sent.(presented := t.presented + {id}), done + {id}, rest, hold, replies);
        } else {
          StoppedKeeps(start, t, done, todo, hold, replies);
        }
      }
    }
  }

  lemma HeldKeeps(start: Settling, t: Settling, done: set<int>, id: int, hold: int, replies: Replies)
    requires SettlingKeeps(start, t, done, hold, replies) && id > hold
    ensures SettlingKeeps(start, t.(presented := t.presented + {id}, held := t.held + {id}), done + {id}, hold, replies)
  {
  }

  lemma LandedKeeps(start: Settling, t: Settling, done: set<int>, id: int, hold: int, replies: Replies)
    requires SettlingKeeps(start, t, done, hold, replies) && id <= hold && Lands(replies(id))
    ensures SettlingKeeps(start, t.(tried := t.tried + {id}, cursor := CursorAfter(t.cursor, id, replies(id)), presented := t.presented + {id}),
                          done + {id}, hold, replies)
  {
    assert Landed(t.tried + {id}, replies) == Landed(t.tried, replies) + {id};
  }

  lemma StoppedKeeps(start: Settling, t: Settling, done: set<int>, todo: seq<int>, hold: int, replies: Replies)
    requires SettlingKeeps(start, t, done, hold, replies)
    requires todo != [] && Ascending(todo) && todo[0] <= hold && !Lands(replies(todo[0]))
    ensures SettlingKeeps(start, t.(tried := t.tried + {todo[0]}), done + IdsIn(todo), hold, replies)
  {
    var id := todo[0];
    assert Landed(t.tried + {id}, replies) == Landed(t.tried, replies);
    forall x | x in IdsIn(todo) && x != id ensures id < x {
      assert x in todo;
    }
    assert id in todo;
  }

  lemma SettleFromStart(start: Settling, todo: seq<int>, hold: int, replies: Replies)
    requires start.held == start.tried == {} && Ascending(todo)
    ensures SettlingKeeps(start, SettleSuppressed(todo, hold, replies, start), IdsIn(todo), hold, replies)
  {
    assert Landed({}, replies) == {};
    SettleSuppressedKeeps(start, start, {}, todo, hold, replies);
    assert {} + IdsIn(todo) == IdsIn(todo);
  }

  /** Acking what a projection without outcomes suppressed never settles a deferred or
      a delivered id other than the acked one. */
  lemma SuppressedAcksStayBelowOwed(list: seq<Event>, working: set<string>, delivered: set<int>, presented: set<int>, cursor: int, replies: Replies)
    requires DistinctIds(list)
    ensures var t := SettleAll(list, working, delivered, presented, cursor, replies);
            && SettlingKeeps(Settling(presented, {}, {}, cursor), t, SuppressedIds(list, working),
                             LowestId(DeferredIds(list, working) + delivered), replies)
            && (forall a, x | a in t.tried && x in DeferredIds(list, working) :: a < x)
            && (forall a, x | a in t.tried && x in delivered :: a <= x)
  {
    var ids := SuppressedIds(list, working);
    var hold := LowestId(DeferredIds(list, working) + delivered);
    var start := Settling(presented, {}, {}, cursor);
    ProjectionPartitions(list, working);
    SortedIdsList(ids);
    SettleFromStart(start, SortedIds(ids), hold, replies);
    TriedBelow(SettleSuppressed(SortedIds(ids), hold, replies, start).tried, ids, DeferredIds(list, working), delivered);
  }

  lemma TriedBelow(tried: set<int>, ids: set<int>, deferred: set<int>, delivered: set<int>)
    requires tried <= ids && ids !! deferred
    requires forall a | a in tried :: a <= LowestId(deferred + delivered)
    ensures forall a, x | a in tried && x in deferred :: a < x
    ensures forall a, x | a in tried && x in delivered :: a <= x
  {
    var low := LowestId(deferred + delivered);
    forall a, x | a in tried && x in deferred + delivered ensures a <= x {
      assert low <= x;
    }
  }

  // ---------------------------------------------------------------------
  // The retained snapshot
  // ---------------------------------------------------------------------

  /** As many owing records of lower id as the snapshot holds. */
  ghost predicate Crowded(owing: Records, x: int) {
    |set y | y in owing && y < x| >= RETAINED_LIMIT
  }

  /** Exactly the owing records that no hundred lower owing ones crowd out are kept. */
  lemma RetainedExactly(eligible: Records, presented: set<int>, delivered: set<int>, x: int)
    ensures x in Retain(eligible, presented, delivered) <==>
            x in Owing(eligible, presented, delivered) && !Crowded(Owing(eligible, presented, delivered), x)
  {
    var owing := Owing(eligible, presented, delivered);
    var low := FirstN(owing.Keys, RETAINED_LIMIT);
    var lower := set y | y in owing && y < x;
    if x in owing && x !in low {
      assert x in owing.Keys - low;
      assert low <= lower;
      SubsetIsSmaller(low, lower);
    }
    if x in low {
      forall y | y in lower ensures y in low {
        assert y in low || y in owing.Keys - low;
      }
      assert x !in lower && lower + {x} <= low;
      SubsetIsSmaller(lower + {x}, low);
    }
  }

  lemma CrowdedByFewer(fewer: Records, owing: Records, x: int)
    requires Crowded(fewer, x) && forall y | y in fewer :: y in owing
    ensures Crowded(owing, x)
  {
    SubsetIsSmaller(set y | y in fewer && y < x, set y | y in owing && y < x);
  }
}
