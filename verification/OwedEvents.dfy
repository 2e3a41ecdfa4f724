/** An event the hook still owes to the host, and why one operation may stop owing it. */
module OwedEvents {
  import opened Common
  import opened Projection
  import opened WakeView
  import opened HookSpec
  import opened FlushSafety

  /** The record is in the snapshot above the cursor, and the event either waits to be
      presented or was handed to the host without a confirmation yet. */
  ghost predicate Owed(s: Session, cursor: int, x: int) {
    x > cursor && x in s.retained && (x in s.delivered || x !in s.presented)
  }

  /** The view of one call cannot reach the event any more: it is this terminal's own,
      another session's, or its workspace or terminal left the live peers. */
  ghost predicate OutOfReach(s: Session, conn: Conn, view: Option<PeerView>, x: int) {
    x in Merged(conn, s.retained) && !Reachable(conn, view, Merged(conn, s.retained)[x])
  }

  ghost predicate JudgedSuppressed(s: Session, conn: Conn, view: Option<PeerView>, x: int) {
    x in SuppressedIds(CandidateList(s, conn, view), Working(view))
  }

  /** What an operation that goes by the copy s, on a file with these delivered ids, may
      release an event for. */
  ghost predicate Released(s: Session, delivered: set<int>, conn: Conn, view: Option<PeerView>, x: int) {
    || OutOfReach(s, conn, view, x)
    || JudgedSuppressed(s, conn, view, x)
    || Crowded(Owing(Eligible(conn, s.retained, view), PresentedAbove(s, conn), delivered), x)
  }

  // ---------------------------------------------------------------------
  // The facts about one view that every operation starts from
  // ---------------------------------------------------------------------

  lemma CandidateListIds(s: Session, conn: Conn, view: Option<PeerView>)
    ensures var list := CandidateList(s, conn, view);
            && DistinctIds(list)
            && EventIds(list) == CandidateMap(s, conn, view).Keys
            && EventIds(list) == Eligible(conn, s.retained, view).Keys - PresentedAbove(s, conn)
  {
    var m := CandidateMap(s, conn, view);
    InOrderIsDistinct(m);
    InOrderIds(m);
    CandidateKeys(Eligible(conn, s.retained, view), PresentedAbove(s, conn));
  }

  lemma CandidateKeys(eligible: Records, presented: set<int>)
    ensures Candidates(eligible, presented).Keys == eligible.Keys - presented
  {
  }

  lemma KnownIsEligible(s: Session, conn: Conn, view: Option<PeerView>, x: int)
    requires x in Merged(conn, s.retained) && !OutOfReach(s, conn, view, x)
    ensures x in Eligible(conn, s.retained, view)
  {
  }

  // ---------------------------------------------------------------------
  // Take
  // ---------------------------------------------------------------------

  ghost predicate OwedIn(eligible: Records, delivered: set<int>, cursor: int, presented: set<int>, x: int) {
    && x > cursor && x in eligible && !Crowded(Owing(eligible, presented, delivered), x)
    && (x in delivered || x !in presented)
  }

  /** An owing record stays in the snapshot when the operation only presents more, and
      delivers only what was owing before. */
  lemma SnapshotKeeps(eligible: Records, delivered: set<int>, presented: set<int>, shown: set<int>, handed: set<int>, x: int)
    requires x in eligible && !Crowded(Owing(eligible, presented, delivered), x)
    requires presented <= shown && handed !! presented && (x in delivered || x in handed || x !in shown)
    ensures x in Retain(eligible, shown, delivered + handed)
  {
    var after := Owing(eligible, shown, delivered + handed);
    if Crowded(after, x) {
      CrowdedByFewer(after, Owing(eligible, presented, delivered), x);
    }
    RetainedExactly(eligible, shown, delivered + handed, x);
  }

  lemma TakeNothingKeepsOwed(s: Session, cursor: int, eligible: Records, presented: set<int>, withheld: set<int>, x: int)
    requires OwedIn(eligible, s.delivered, cursor, presented, x) && x in s.retained
    ensures var t := TakeNothing(s, cursor, eligible, presented, withheld); Owed(t.session, t.cursor, x)
  {
    RetainedExactly(eligible, presented, s.delivered, x);
  }

  lemma TakeSuppressedKeepsOwed(s: Session, cursor: int, eligible: Records, presented: set<int>, list: seq<Event>,
                                working: set<string>, replies: Replies, x: int)
    requires OwedIn(eligible, s.delivered, cursor, presented, x)
    requires DistinctIds(list) && EventIds(list) == eligible.Keys - presented
    requires OutcomesOf(list, working) == [] && x !in SuppressedIds(list, working)
    ensures var t := TakeSuppressed(s, cursor, eligible, presented, list, working, replies); Owed(t.session, t.cursor, x)
  {
    SettlingKeepsOwed(cursor, eligible, presented, list, working, s.delivered, s.delivered, replies, x);
  }

  /** The acks of a projection without outcomes pass no owed event they do not judge. */
  lemma SettlingKeepsOwed(cursor: int, eligible: Records, presented: set<int>, list: seq<Event>, working: set<string>,
                          bound: set<int>, delivered: set<int>, replies: Replies, x: int)
    requires OwedIn(eligible, delivered, cursor, presented, x) && delivered <= bound
    requires DistinctIds(list) && EventIds(list) == eligible.Keys - presented
    requires OutcomesOf(list, working) == [] && x !in SuppressedIds(list, working)
    ensures var t := SettleAll(list, working, bound, presented, cursor, replies);
            && x > t.cursor && (x in delivered || x !in t.presented) && (x !in presented ==> x !in t.presented)
            && x in Retain(eligible, t.presented, delivered)
  {
    SuppressedAcksStayBelowOwed(list, working, bound, presented, cursor, replies);
    ProjectionPartitions(list, working);
    OutcomeIdsArePresented(list, working);
    if x !in presented {
      assert x in EventIds(list);
      assert x in DeferredIds(list, working);
    }
    SettledStillOwes(Settling(presented, {}, {}, cursor), SettleAll(list, working, bound, presented, cursor, replies),
                     SuppressedIds(list, working), delivered, eligible, x);
  }

  lemma SettledStillOwes(start: Settling, t: Settling, ids: set<int>, delivered: set<int>, eligible: Records, x: int)
    requires OwedIn(eligible, delivered, start.cursor, start.presented, x) && x !in ids
    requires start.presented <= t.presented <= start.presented + ids && t.tried <= ids
    requires t.cursor == start.cursor || t.cursor in t.tried
    requires forall a | a in t.tried :: a <= x
    ensures x > t.cursor && (x in delivered || x !in t.presented) && (x !in start.presented ==> x !in t.presented)
    ensures x in Retain(eligible, t.presented, delivered)
  {
    SnapshotKeeps(eligible, delivered, start.presented, t.presented, {}, x);
    assert delivered + {} == delivered;
  }

  lemma TakeBatchKeepsOwed(s: Session, cursor: int, eligible: Records, presented: set<int>, list: seq<Event>,
                           working: set<string>, x: int)
    requires OwedIn(eligible, s.delivered, cursor, presented, x)
    requires DistinctIds(list) && EventIds(list) == eligible.Keys - presented
    requires x !in SuppressedIds(list, working)
    ensures var t := TakeBatch(s, cursor, eligible, presented, list, working); Owed(t.session, t.cursor, x)
  {
    ProjectionPartitions(list, working);
    OutcomeIdsArePresented(list, working);
    var handed := IdsOf(OutcomesOf(list, working));
    assert handed <= EventIds(list);
    SnapshotKeeps(eligible, s.delivered, presented, presented + SuppressedIds(list, working) + handed, handed, x);
  }

  /** A take keeps every owed event unless this very view releases it. */
  lemma TakeKeepsOwed(s: Session, cursor: int, conn: Conn, view: Option<PeerView>, withheld: set<int>, replies: Replies, x: int)
    requires Owed(s, cursor, x) && AckedId(conn) <= cursor
    requires !Released(s, s.delivered, conn, view, x)
    ensures var t := Take(s, cursor, conn, view, withheld, replies); Owed(t.session, t.cursor, x)
  {
    KnownIsEligible(s, conn, view, x);
    CandidateListIds(s, conn, view);
    var presented, eligible, list := PresentedAbove(s, conn), Eligible(conn, s.retained, view), CandidateList(s, conn, view);
    if CandidateMap(s, conn, view) == map[] {
      TakeNothingKeepsOwed(s, cursor, eligible, presented, withheld, x);
    } else if OutcomesOf(list, Working(view)) == [] {
      TakeSuppressedKeepsOwed(s, cursor, eligible, presented, list, Working(view), replies, x);
    } else {
      TakeBatchKeepsOwed(s, cursor, eligible, presented, list, Working(view), x);
    }
  }

  // ---------------------------------------------------------------------
  // Peek, with a copy that may be older than the file
  // ---------------------------------------------------------------------

  /** The waiter's copy is behind the file on the event: it does not know the record and
      the daemon does not list it, or it holds the event presented although the file made
      it injectable again. */
  ghost predicate Stale(seen: Session, file: Session, conn: Conn, x: int) {
    || x !in Merged(conn, seen.retained)
    || (x in PresentedAbove(seen, conn) && x !in file.delivered)
  }

  lemma PeekNothingKeepsOwed(seen: Session, file: Session, cursor: int, eligible: Records, presented: set<int>, x: int)
    requires OwedIn(eligible, file.delivered, cursor, presented, x) && x in file.delivered && x in file.retained
    ensures var p := PeekNothing(seen, file, cursor, eligible, presented); Owed(p.file, p.cursor, x)
  {
    RetainedExactly(eligible, presented, file.delivered, x);
  }

  lemma PeekSettlingKeepsOwed(cursor: int, eligible: Records, presented: set<int>, list: seq<Event>, working: set<string>,
                              bound: set<int>, delivered: set<int>, replies: Replies, x: int)
    requires OwedIn(eligible, delivered, cursor, presented, x) && delivered <= bound
    requires DistinctIds(list) && EventIds(list) == eligible.Keys - presented
    requires x !in SuppressedIds(list, working)
    ensures var t := PeekSettling(list, working, bound, presented, cursor, replies);
            && x > t.cursor && x in Retain(eligible, t.presented, delivered)
            && (x !in presented ==> x !in t.presented)
  {
    if OutcomesOf(list, working) == [] {
      SettlingKeepsOwed(cursor, eligible, presented, list, working, bound, delivered, replies, x);
    } else {
      RetainedExactly(eligible, presented, delivered, x);
    }
  }

  lemma PeekWriteKeepsOwed(seen: Session, file: Session, conn: Conn, eligible: Records, deferred: set<int>, t: Settling,
                           hasOutcomes: bool, waiter: Waiter, x: int)
    requires x > t.cursor && x in file.retained && x in Retain(eligible, t.presented, file.delivered)
    requires x in file.delivered || (x !in file.presented && x !in t.presented)
    ensures var p := PeekWrite(seen, file, conn, eligible, deferred, t, hasOutcomes, waiter); Owed(p.file, p.cursor, x)
  {
  }

  lemma OwedToPeek(seen: Session, file: Session, cursor: int, conn: Conn, view: Option<PeerView>, x: int)
    requires Owed(file, cursor, x) && AckedId(conn) <= cursor
    requires !Stale(seen, file, conn, x) && !Released(seen, file.delivered, conn, view, x)
    ensures OwedIn(Eligible(conn, seen.retained, view), file.delivered, cursor, PresentedAbove(seen, conn), x)
    ensures CandidateMap(seen, conn, view) == map[] ==> x in file.delivered
    ensures x !in SuppressedIds(CandidateList(seen, conn, view), Working(view))
  {
    KnownIsEligible(seen, conn, view, x);
    CandidateKeys(Eligible(conn, seen.retained, view), PresentedAbove(seen, conn));
    assert x in PresentedAbove(seen, conn) || x in CandidateMap(seen, conn, view).Keys;
  }

  lemma PeekWithoutCandidates(seen: Session, file: Session, cursor: int, conn: Conn, view: Option<PeerView>, waiter: Waiter, replies: Replies)
    requires CandidateMap(seen, conn, view) == map[]
    ensures var p := Peek(seen, file, cursor, conn, view, waiter, replies);
            && p.cursor == cursor
            && p.file == if Superseded(file, waiter) then file
                         else PeekNothing(seen, file, cursor, Eligible(conn, seen.retained, view), PresentedAbove(seen, conn)).file
  {
  }

  /** A peek keeps every owed event that its copy is not behind on, unless this very view
      releases it. */
  lemma PeekKeepsOwed(seen: Session, file: Session, cursor: int, conn: Conn, view: Option<PeerView>, waiter: Waiter, replies: Replies, x: int)
    requires Owed(file, cursor, x) && AckedId(conn) <= cursor
    requires !Stale(seen, file, conn, x) && !Released(seen, file.delivered, conn, view, x)
    ensures var p := Peek(seen, file, cursor, conn, view, waiter, replies); Owed(p.file, p.cursor, x)
  {
    var eligible, presented := Eligible(conn, seen.retained, view), PresentedAbove(seen, conn);
    OwedToPeek(seen, file, cursor, conn, view, x);
    if CandidateMap(seen, conn, view) != map[] {
      CandidateListIds(seen, conn, view);
      PeekSomethingKeepsOwed(seen, file, cursor, conn, view, waiter, replies, x);
    } else {
      PeekWithoutCandidates(seen, file, cursor, conn, view, waiter, replies);
      if !Superseded(file, waiter) {
        PeekNothingKeepsOwed(seen, file, cursor, eligible, presented, x);
        assert Owed(PeekNothing(seen, file, cursor, eligible, presented).file, cursor, x);
      }
    }
  }

  lemma PeekSomethingKeepsOwed(seen: Session, file: Session, cursor: int, conn: Conn, view: Option<PeerView>, waiter: Waiter,
                               replies: Replies, x: int)
    requires var list, eligible, presented := CandidateList(seen, conn, view), Eligible(conn, seen.retained, view), PresentedAbove(seen, conn);
             && CandidateMap(seen, conn, view) != map[]
             && OwedIn(eligible, file.delivered, cursor, presented, x) && Owed(file, cursor, x)
             && DistinctIds(list) && EventIds(list) == eligible.Keys - presented
             && x !in SuppressedIds(list, Working(view))
    ensures var p := Peek(seen, file, cursor, conn, view, waiter, replies); Owed(p.file, p.cursor, x)
  {
    var list, bound := CandidateList(seen, conn, view), seen.delivered + file.delivered;
    var presented, eligible := PresentedAbove(seen, conn), Eligible(conn, seen.retained, view);
    PeekSettlingKeepsOwed(cursor, eligible, presented, list, Working(view), bound, file.delivered, replies, x);
    PeekWriteKeepsOwed(seen, file, conn, eligible, DeferredIds(list, Working(view)),
                       PeekSettling(list, Working(view), bound, presented, cursor, replies),
                       OutcomesOf(list, Working(view)) != [], waiter, x);
  }

  /** A superseded waiter writes nothing; its acks may have moved the cursor. */
  lemma SupersededPeek(seen: Session, file: Session, cursor: int, conn: Conn, view: Option<PeerView>, waiter: Waiter, replies: Replies)
    requires Superseded(file, waiter)
    ensures var p := Peek(seen, file, cursor, conn, view, waiter, replies);
            p.file == file && p.result == PeekResult(false, false, true)
  {
    if CandidateMap(seen, conn, view) == map[] {
      PeekWithoutCandidates(seen, file, cursor, conn, view, waiter, replies);
    }
  }

  lemma NotInSnapshot(eligible: Records, presented: set<int>, delivered: set<int>, x: int)
    requires x !in eligible || (x in presented && x !in delivered)
    ensures x !in Retain(eligible, presented, delivered)
  {
    RetainedExactly(eligible, presented, delivered, x);
  }

  lemma PeekNothingLosesStale(seen: Session, file: Session, cursor: int, eligible: Records, presented: set<int>, x: int)
    requires x !in eligible || (x in presented && x !in file.delivered)
    ensures x !in PeekNothing(seen, file, cursor, eligible, presented).file.retained
  {
    NotInSnapshot(eligible, presented, file.delivered, x);
  }

  lemma PeekWriteLosesStale(seen: Session, file: Session, conn: Conn, eligible: Records, deferred: set<int>, t: Settling,
                            hasOutcomes: bool, waiter: Waiter, x: int)
    requires !Superseded(file, waiter) && (x !in eligible || (x in t.presented && x !in file.delivered))
    ensures x !in PeekWrite(seen, file, conn, eligible, deferred, t, hasOutcomes, waiter).file.retained
  {
    NotInSnapshot(eligible, t.presented, file.delivered, x);
  }

  /** And it loses every event that its copy is behind on, when it writes at all. */
  lemma PeekLosesStale(seen: Session, file: Session, cursor: int, conn: Conn, view: Option<PeerView>, waiter: Waiter, replies: Replies, x: int)
    requires Stale(seen, file, conn, x) && !Superseded(file, waiter)
    ensures x !in Peek(seen, file, cursor, conn, view, waiter, replies).file.retained
  {
    var list, bound := CandidateList(seen, conn, view), seen.delivered + file.delivered;
    var presented, eligible := PresentedAbove(seen, conn), Eligible(conn, seen.retained, view);
    if CandidateMap(seen, conn, view) == map[] {
      PeekNothingLosesStale(seen, file, cursor, eligible, presented, x);
    } else {
      var t := PeekSettling(list, Working(view), bound, presented, cursor, replies);
      SettlingPresents(list, Working(view), bound, presented, cursor, replies);
      PeekWriteLosesStale(seen, file, conn, eligible, DeferredIds(list, Working(view)), t, OutcomesOf(list, Working(view)) != [], waiter, x);
    }
  }

  lemma SettlingPresents(list: seq<Event>, working: set<string>, bound: set<int>, presented: set<int>, cursor: int, replies: Replies)
    ensures presented <= PeekSettling(list, working, bound, presented, cursor, replies).presented
  {
    if OutcomesOf(list, working) == [] {
      SortedIdsList(SuppressedIds(list, working));
      SettleFromStart(Settling(presented, {}, {}, cursor), SortedIds(SuppressedIds(list, working)),
                      LowestId(DeferredIds(list, working) + bound), replies);
    }
  }

  // ---------------------------------------------------------------------
  // Clearing what was re-armed
  // ---------------------------------------------------------------------

  /** Clearing the re-armed ids keeps an owed event exactly if it is not the waiter's to
      clear any more, or is not presented again. */
  lemma ClearKeepsOwedExactly(s: Session, cursor: int, waiter: Waiter, targets: set<int>, x: int)
    requires Owed(s, cursor, x)
    ensures Owed(ClearStale(s, waiter, targets), cursor, x) <==>
            Superseded(s, waiter) || !(x in targets && x in s.delivered && x in s.presented)
  {
  }

  // ---------------------------------------------------------------------
  // Flush
  // ---------------------------------------------------------------------

  /** The transcript confirms the delivery, or cannot say. */
  ghost predicate Confirmed(s: Session, transcript: Transcript, x: int) {
    x in s.delivered && (!transcript.checked || x in transcript.injected)
  }

  /** A flush keeps every owed event that it does not find confirmed, parked in
      pendingAck already, or released by its own view. */
  lemma FlushKeepsOwed(s: Session, cursor: int, conn: Conn, view: Option<PeerView>, transcript: Transcript, replies: Replies,
                       refreshed: Option<Conn>, x: int)
    requires Owed(s, cursor, x) && AckedId(conn) <= cursor
    requires !Confirmed(s, transcript, x) && x !in s.pendingAck - s.delivered
    requires !OutOfReach(s, conn, view, x) && !JudgedSuppressed(s, conn, view, x)
    ensures var f := FlushAcks(s, cursor, conn, view, transcript, replies, refreshed); Owed(f.session, f.cursor, x)
  {
    if s.pendingAck + s.delivered != {} {
      OwedHoldsBack(s, cursor, conn, view, x);
      FlushRunKeeps(s, cursor, conn, view, transcript, replies);
      FlushedStillOwes(Gate(s.delivered, transcript, replies), FlushStart(s, cursor, conn, view),
                       FlushRun(s, cursor, conn, view, transcript, replies), s.pendingAck + s.delivered, x);
    }
  }

  lemma OwedHoldsBack(s: Session, cursor: int, conn: Conn, view: Option<PeerView>, x: int)
    requires Owed(s, cursor, x) && AckedId(conn) <= cursor
    requires !OutOfReach(s, conn, view, x) && !JudgedSuppressed(s, conn, view, x)
    ensures x !in s.presented ==> MinHoldback(s, conn, view) <= x
  {
    KnownIsEligible(s, conn, view, x);
    CandidateListIds(s, conn, view);
    if x !in s.presented {
      HoldsBack(CandidateList(s, conn, view), Working(view), x);
    }
  }

  lemma HoldsBack(list: seq<Event>, working: set<string>, x: int)
    requires DistinctIds(list) && x in EventIds(list) && x !in SuppressedIds(list, working)
    ensures LowestId(DeferredIds(list, working) + PresentedIds(list, working)) <= x
  {
    ProjectionPartitions(list, working);
    assert x in DeferredIds(list, working) + PresentedIds(list, working);
  }

  lemma FlushedStillOwes(g: Gate, start: Flush, r: Flush, ids: set<int>, x: int)
    requires FlushGuarantee(g, start, r, ids) && g.delivered <= ids
    requires start.cursor < x && (x in ids ==> x in g.delivered)
    requires x in g.delivered ==> Withheld(g.delivered, g.transcript, x)
    requires x !in g.delivered ==> x !in start.presented && start.hold <= x
    ensures r.cursor < x && (x in r.remaining || x !in r.presented)
  {
  }

  /** The state to go on with after a flush never reports a cursor beyond the real one. */
  lemma FlushBounds(s: Session, cursor: int, conn: Conn, view: Option<PeerView>, transcript: Transcript, replies: Replies,
                    refreshed: Option<Conn>)
    ensures var f := FlushAcks(s, cursor, conn, view, transcript, replies, refreshed);
            && f.session.retained == s.retained && cursor <= f.cursor
            && (f.conn == conn || Some(f.conn) == refreshed)
  {
    if s.pendingAck + s.delivered != {} {
      FlushRunKeeps(s, cursor, conn, view, transcript, replies);
    }
  }
}
