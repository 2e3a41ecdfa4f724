/** What a waiter announces, the next turn is handed: a peek that reports outcomes
    leaves a state from which the take rebuilds the very same batch. */
module WakeAgreement {
  import opened Common
  import opened Projection
  import opened WakeView
  import opened HookSpec
  import opened OwedEvents
  import opened DeliveryProtocol

  /** Every candidate is still listed by the daemon or made it into the snapshot: always
      so while at most RETAINED_LIMIT records are owed. */
  ghost predicate CandidatesSurvive(s: Session, conn: Conn, view: Option<PeerView>) {
    var kept := Retain(Eligible(conn, s.retained, view), PresentedAbove(s, conn), s.delivered);
    forall id | id in CandidateMap(s, conn, view) :: id in ById(conn.listed) || id in kept
  }

  lemma FewOwedSurvive(s: Session, conn: Conn, view: Option<PeerView>)
    requires |Owing(Eligible(conn, s.retained, view), PresentedAbove(s, conn), s.delivered)| <= RETAINED_LIMIT
    ensures CandidatesSurvive(s, conn, view)
  {
    LowestOfFew(Owing(Eligible(conn, s.retained, view), PresentedAbove(s, conn), s.delivered), RETAINED_LIMIT);
  }

  /** Re-merging a snapshot of the eligible records gives the same candidates. */
  lemma SnapshotRebuildsCandidates(conn: Conn, retained: Records, kept: Records, view: Option<PeerView>, presented: set<int>)
    requires var eligible := Eligible(conn, retained, view);
             && (forall id | id in kept :: id in eligible && kept[id] == eligible[id])
             && (forall id | id in Candidates(eligible, presented) :: id in ById(conn.listed) || id in kept)
    ensures Candidates(Eligible(conn, kept, view), presented) == Candidates(Eligible(conn, retained, view), presented)
  {
    var now, before := Candidates(Eligible(conn, kept, view), presented), Candidates(Eligible(conn, retained, view), presented);
    forall id | id in before ensures id in now && now[id] == before[id] {
      SameRecord(conn, retained, kept, view, id);
    }
    forall id | id in now ensures id in before {
      SameRecord(conn, retained, kept, view, id);
    }
    SameEntries(now, before);
  }

  lemma SameRecord(conn: Conn, retained: Records, kept: Records, view: Option<PeerView>, id: int)
    requires var eligible := Eligible(conn, retained, view);
             forall x | x in kept :: x in eligible && kept[x] == eligible[x]
    requires id in ById(conn.listed) || id in kept
    ensures id in Merged(conn, kept) && id in Merged(conn, retained)
    ensures Merged(conn, kept)[id] == Merged(conn, retained)[id]
  {
  }

  lemma KeptIsEligible(eligible: Records, presented: set<int>, delivered: set<int>)
    ensures var kept := Retain(eligible, presented, delivered);
            forall id | id in kept :: id in eligible && kept[id] == eligible[id]
  {
  }

  lemma PeekWithOutcomesWrites(s: Session, cursor: int, conn: Conn, view: Option<PeerView>, waiter: Waiter, replies: Replies)
    requires Peek(s, s, cursor, conn, view, waiter, replies).result.hasOutcomes
    ensures var p := Peek(s, s, cursor, conn, view, waiter, replies);
            && CandidateMap(s, conn, view) != map[] && OutcomesOf(CandidateList(s, conn, view), Working(view)) != []
            && p.cursor == cursor && p.file.delivered == s.delivered
            && p.file.presented == LastN(PresentedAbove(s, conn) + PresentedAbove(s, conn), PRESENTED_LIMIT)
            && p.file.retained == Retain(Eligible(conn, s.retained, view), PresentedAbove(s, conn), s.delivered)
  {
    var list := CandidateList(s, conn, view);
    if CandidateMap(s, conn, view) != map[] {
      WriteWithOutcomes(s, conn, Eligible(conn, s.retained, view), DeferredIds(list, Working(view)),
                        PeekSettling(list, Working(view), s.delivered + s.delivered, PresentedAbove(s, conn), cursor, replies),
                        OutcomesOf(list, Working(view)) != [], waiter);
    }
  }

  lemma WriteWithOutcomes(s: Session, conn: Conn, eligible: Records, deferred: set<int>, t: Settling, hasOutcomes: bool, waiter: Waiter)
    ensures var p := PeekWrite(s, s, conn, eligible, deferred, t, hasOutcomes, waiter);
            p.result.hasOutcomes ==>
              && hasOutcomes && p.cursor == t.cursor && p.file.delivered == s.delivered
              && p.file.presented == LastN(PresentedAbove(s, conn) + t.presented, PRESENTED_LIMIT)
              && p.file.retained == Retain(eligible, t.presented, s.delivered)
  {
  }

  lemma TakeFindsOutcomes(s: Session, cursor: int, conn: Conn, view: Option<PeerView>, withheld: set<int>, replies: Replies)
    requires CandidateMap(s, conn, view) != map[] && OutcomesOf(CandidateList(s, conn, view), Working(view)) != []
    ensures Take(s, cursor, conn, view, withheld, replies).batch == Some(OutcomesOf(CandidateList(s, conn, view), Working(view)))
  {
  }

  /** The state a peek with outcomes wrote has the candidates the peek judged. */
  lemma PeekKeepsCandidates(s: Session, cursor: int, conn: Conn, view: Option<PeerView>, waiter: Waiter, replies: Replies, next: Session)
    requires var p := Peek(s, s, cursor, conn, view, waiter, replies);
             p.result.hasOutcomes && next.presented == p.file.presented && next.retained == p.file.retained
    requires |PresentedAbove(s, conn)| <= PRESENTED_LIMIT && CandidatesSurvive(s, conn, view)
    ensures CandidateMap(next, conn, view) == CandidateMap(s, conn, view)
  {
    PeekWithOutcomesWrites(s, cursor, conn, view, waiter, replies);
    WrittenKeepsCandidates(s, conn, view, next);
  }

  lemma WrittenKeepsCandidates(s: Session, conn: Conn, view: Option<PeerView>, next: Session)
    requires next.presented == LastN(PresentedAbove(s, conn) + PresentedAbove(s, conn), PRESENTED_LIMIT)
    requires next.retained == Retain(Eligible(conn, s.retained, view), PresentedAbove(s, conn), s.delivered)
    requires |PresentedAbove(s, conn)| <= PRESENTED_LIMIT && CandidatesSurvive(s, conn, view)
    ensures CandidateMap(next, conn, view) == CandidateMap(s, conn, view)
  {
    var presented, eligible := PresentedAbove(s, conn), Eligible(conn, s.retained, view);
    assert presented + presented == presented;
    assert PresentedAbove(next, conn) == presented;
    KeptIsEligible(eligible, presented, s.delivered);
    SnapshotRebuildsCandidates(conn, s.retained, next.retained, view, presented);
  }

  /** A take run from the state a peek with outcomes wrote, against the same daemon and
      the same peers, returns exactly the batch the peek saw. */
  lemma PeekPredictsTake(s: Session, cursor: int, conn: Conn, view: Option<PeerView>, waiter: Waiter, replies: Replies,
                         newTurn: bool, withheld: set<int>, takeReplies: Replies)
    requires |PresentedAbove(s, conn)| <= PRESENTED_LIMIT && CandidatesSurvive(s, conn, view)
    requires Peek(s, s, cursor, conn, view, waiter, replies).result.hasOutcomes
    ensures var p := Peek(s, s, cursor, conn, view, waiter, replies);
            var t := Take(BeginTurn(p.file, newTurn), p.cursor, conn, view, withheld, takeReplies);
            && p.cursor == cursor
            && t.batch == Some(OutcomesOf(CandidateList(s, conn, view), Working(view)))
            && t.batch.value != []
  {
    var p := Peek(s, s, cursor, conn, view, waiter, replies);
    PeekWithOutcomesWrites(s, cursor, conn, view, waiter, replies);
    PeekKeepsCandidates(s, cursor, conn, view, waiter, replies, BeginTurn(p.file, newTurn));
    TakeFindsOutcomes(BeginTurn(p.file, newTurn), p.cursor, conn, view, withheld, takeReplies);
  }

  // ---------------------------------------------------------------------
  // Over runs
  // ---------------------------------------------------------------------

  ghost predicate Few(s: Session) {
    |s.presented| <= PRESENTED_LIMIT
  }

  /** No session, stored or held by a waiter, presents more than the limit. */
  ghost predicate FewPresented(y: System) {
    Few(y.file) && forall w | w in y.memory :: Few(y.memory[w].seen)
  }

  lemma FewerIsFew(s: Session, fewer: Session)
    requires Few(s) && fewer.presented <= s.presented
    ensures Few(fewer)
  {
    SubsetIsSmaller(fewer.presented, s.presented);
  }

  lemma FewAbove(s: Session, conn: Conn)
    requires Few(s)
    ensures |PresentedAbove(s, conn)| <= PRESENTED_LIMIT
  {
    SubsetIsSmaller(PresentedAbove(s, conn), s.presented);
  }

  lemma TakeKeepsFew(s: Session, cursor: int, conn: Conn, view: Option<PeerView>, withheld: set<int>, replies: Replies)
    requires Few(s)
    ensures Few(Take(s, cursor, conn, view, withheld, replies).session)
  {
    var presented, eligible, list := PresentedAbove(s, conn), Eligible(conn, s.retained, view), CandidateList(s, conn, view);
    FewAbove(s, conn);
    if CandidateMap(s, conn, view) == map[] {
      TakeNothingKeepsFew(s, cursor, eligible, presented, withheld);
    } else if OutcomesOf(list, Working(view)) == [] {
      TakeSuppressedKeepsFew(s, cursor, eligible, presented, list, Working(view), replies);
    } else {
      TakeBatchKeepsFew(s, cursor, eligible, presented, list, Working(view));
    }
  }

  lemma TakeNothingKeepsFew(s: Session, cursor: int, eligible: Records, presented: set<int>, withheld: set<int>)
    requires |presented| <= PRESENTED_LIMIT
    ensures Few(TakeNothing(s, cursor, eligible, presented, withheld).session)
  {
  }

  lemma TakeSuppressedKeepsFew(s: Session, cursor: int, eligible: Records, presented: set<int>, list: seq<Event>, working: set<string>, replies: Replies)
    ensures Few(TakeSuppressed(s, cursor, eligible, presented, list, working, replies).session)
  {
  }

  lemma TakeBatchKeepsFew(s: Session, cursor: int, eligible: Records, presented: set<int>, list: seq<Event>, working: set<string>)
    ensures Few(TakeBatch(s, cursor, eligible, presented, list, working).session)
  {
  }

  lemma PeekKeepsFew(seen: Session, file: Session, cursor: int, conn: Conn, view: Option<PeerView>, waiter: Waiter, replies: Replies)
    requires Few(seen) && Few(file)
    ensures var p := Peek(seen, file, cursor, conn, view, waiter, replies); Few(p.seen) && Few(p.file)
  {
    var presented, eligible, list := PresentedAbove(seen, conn), Eligible(conn, seen.retained, view), CandidateList(seen, conn, view);
    FewAbove(seen, conn);
    if CandidateMap(seen, conn, view) == map[] {
      PeekNothingKeepsFew(seen, file, cursor, eligible, presented);
    } else {
      var t := PeekSettling(list, Working(view), seen.delivered + file.delivered, presented, cursor, replies);
      PeekWriteKeepsFew(seen, file, conn, eligible, DeferredIds(list, Working(view)), t, OutcomesOf(list, Working(view)) != [], waiter);
    }
  }

  lemma PeekNothingKeepsFew(seen: Session, file: Session, cursor: int, eligible: Records, presented: set<int>)
    requires |presented| <= PRESENTED_LIMIT && Few(file)
    ensures var p := PeekNothing(seen, file, cursor, eligible, presented); Few(p.seen) && Few(p.file)
  {
  }

  lemma PeekWriteKeepsFew(seen: Session, file: Session, conn: Conn, eligible: Records, deferred: set<int>, t: Settling, hasOutcomes: bool, waiter: Waiter)
    requires |PresentedAbove(seen, conn)| <= PRESENTED_LIMIT && Few(file)
    ensures var p := PeekWrite(seen, file, conn, eligible, deferred, t, hasOutcomes, waiter); Few(p.seen) && Few(p.file)
  {
  }

  lemma FlushAtKeepsFew(y: System, a: Action)
    requires a.Stop? && a.conn.Some? && Few(y.file)
    ensures Few(FlushAt(y, a).session)
  {
  }

  lemma StepKeepsFew(y: System, a: Action)
    requires Valid(y, a) && FewPresented(y)
    ensures FewPresented(Step(y, a))
  {
    if a.PreInvocation? && Owns(a) {
      OwnedPreInvocation(y, a);
      TakeKeepsFew(BeginTurn(y.file, a.newTurn), y.cursor, a.conn.value, a.view, {}, a.replies);
    } else if a.Stop? && Owns(a) {
      var f := FlushAt(y, a);
      OwnedStop(y, a);
      FlushAtKeepsFew(y, a);
      TakeKeepsFew(f.session, f.cursor, f.conn, a.view, f.withheld, a.replies);
    } else if a.Poll? && Owns(a) {
      PeekKeepsFew(y.memory[a.waiter].seen, y.file, y.cursor, a.pollConn, a.view, a.waiter, a.replies);
      PollKeepsFew(y, a);
    } else {
      PlainStepKeepsFew(y, a);
    }
  }

  lemma PollKeepsFew(y: System, a: Action)
    requires a.Poll? && Owns(a) && a.waiter in y.memory && FewPresented(y)
    requires Few(PeekAt(y, a).seen) && Few(PeekAt(y, a).file)
    ensures FewPresented(Step(y, a))
  {
  }

  lemma PlainStepKeepsFew(y: System, a: Action)
    requires !Owns(a) && FewPresented(y)
    ensures FewPresented(Step(y, a))
  {
    FewerIsFew(y.file, AbandonTurn(y.file));
    FewerIsFew(y.file, Rearm(y.file));
  }

  lemma {:induction false} FewOverRuns(states: seq<System>, actions: seq<Action>, k: nat)
    requires IsRun(states, actions) && FewPresented(states[0]) && k < |states|
    ensures FewPresented(states[k])
  {
    if k > 0 {
      FewOverRuns(states, actions, k - 1);
      assert states[(k - 1) + 1] == Step(states[k - 1], actions[k - 1]);
      StepKeepsFew(states[k - 1], actions[k - 1]);
    }
  }

  /** Over every run: when a poll on an up-to-date copy announces outcomes, the invocation
      that follows on the same daemon and peers hands over exactly those. */
  lemma AnnouncedIsHandedOver(states: seq<System>, actions: seq<Action>, k: nat)
    requires IsRun(states, actions) && FewPresented(states[0]) && k + 1 < |actions|
    requires actions[k].Poll? && Owns(actions[k]) && states[k].memory[actions[k].waiter].seen == states[k].file
    requires CandidatesSurvive(states[k].file, actions[k].pollConn, actions[k].view)
    requires PeekAt(states[k], actions[k]).result.hasOutcomes
    requires var next := actions[k + 1];
             next.PreInvocation? && next.conn == Some(actions[k].pollConn) && next.view == actions[k].view
    ensures var announced := IdsOf(OutcomesOf(CandidateList(states[k].file, actions[k].pollConn, actions[k].view), Working(actions[k].view)));
            BatchIds(states[k + 1], actions[k + 1]) == announced && announced != {}
  {
    var y, a, next := states[k], actions[k], actions[k + 1];
    assert Valid(y, a) && states[k + 1] == Step(y, a);
    FewOverRuns(states, actions, k);
    FewAbove(y.file, a.pollConn);
    PollIsPeek(y, a);
    PeekPredictsTake(y.file, y.cursor, a.pollConn, a.view, a.waiter, a.replies, next.newTurn, {}, next.replies);
    OwnedPreInvocation(states[k + 1], next);
    var outcomes := OutcomesOf(CandidateList(y.file, a.pollConn, a.view), Working(a.view));
    assert outcomes[0].id in IdsOf(outcomes);
  }
}
