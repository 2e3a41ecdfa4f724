/** Nothing is forgotten: what a step marks presented is delivered and waits for its
    confirmation, is parked for its acknowledgement, or was settled in that very step. */
module Accounting {
  import opened Common
  import opened Projection
  import opened WakeView
  import opened HookSpec
  import opened FlushSafety
  import opened OwedEvents
  import opened DeliveryProtocol

  /** The acks a take or a peek over these candidates lands before it decides; bound are
      the delivered ids it holds back for. */
  ghost function SettleLanded(s: Session, bound: set<int>, cursor: int, conn: Conn, view: Option<PeerView>, replies: Replies): set<int> {
    var list := CandidateList(s, conn, view);
    if CandidateMap(s, conn, view) == map[] || OutcomesOf(list, Working(view)) != [] then {}
    else Landed(SettleAll(list, Working(view), bound, PresentedAbove(s, conn), cursor, replies).tried, replies)
  }

  /** The ack of the event is still outstanding. */
  predicate Outstanding(s: Session, x: int) {
    x in s.delivered || x in s.pendingAck
  }

  lemma SettleAllAccounts(list: seq<Event>, working: set<string>, delivered: set<int>, presented: set<int>, cursor: int, replies: Replies, x: int)
    ensures var t := SettleAll(list, working, delivered, presented, cursor, replies);
            x in t.presented ==> x in presented || x in t.held || x in Landed(t.tried, replies)
  {
    var ids := SuppressedIds(list, working);
    SortedIdsList(ids);
    SettleFromStart(Settling(presented, {}, {}, cursor), SortedIds(ids), LowestId(DeferredIds(list, working) + delivered), replies);
  }

  lemma TakeSuppressedAccounts(s: Session, cursor: int, eligible: Records, presented: set<int>, list: seq<Event>, working: set<string>,
                               replies: Replies, x: int)
    requires presented <= s.presented
    ensures var t := TakeSuppressed(s, cursor, eligible, presented, list, working, replies);
            && s.pendingAck <= t.session.pendingAck && s.delivered <= t.session.delivered
            && (x in t.session.presented && x !in s.presented ==>
                  Outstanding(t.session, x) || x in Landed(SettleAll(list, working, s.delivered, presented, cursor, replies).tried, replies))
  {
    SettleAllAccounts(list, working, s.delivered, presented, cursor, replies, x);
  }

  lemma TakeBatchAccounts(s: Session, cursor: int, eligible: Records, presented: set<int>, list: seq<Event>, working: set<string>, x: int)
    requires presented <= s.presented
    ensures var t := TakeBatch(s, cursor, eligible, presented, list, working);
            && s.pendingAck <= t.session.pendingAck && s.delivered <= t.session.delivered
            && (x in t.session.presented && x !in s.presented ==> Outstanding(t.session, x))
  {
  }

  lemma TakeNothingAccounts(s: Session, cursor: int, eligible: Records, presented: set<int>, withheld: set<int>)
    requires presented <= s.presented
    ensures var t := TakeNothing(s, cursor, eligible, presented, withheld);
            && t.session.presented <= s.presented && t.session.pendingAck == s.pendingAck
            && forall x | x in s.delivered && x !in t.session.delivered :: x !in eligible && x !in withheld
  {
  }

  /** A take keeps every outstanding ack but of a delivered id that is no longer eligible
      nor just withheld, and accounts for everything it presents. */
  lemma TakeAccounts(s: Session, cursor: int, conn: Conn, view: Option<PeerView>, withheld: set<int>, replies: Replies, x: int)
    ensures var t := Take(s, cursor, conn, view, withheld, replies);
            && s.pendingAck <= t.session.pendingAck
            && (x in s.delivered ==> x in t.session.delivered || (x !in Eligible(conn, s.retained, view) && x !in withheld))
            && (x in t.session.presented && x !in s.presented ==> Outstanding(t.session, x) || x in SettleLanded(s, s.delivered, cursor, conn, view, replies))
            && (!t.wrote ==> t.session.delivered == s.delivered && t.session.pendingAck == s.pendingAck)
  {
    var presented, eligible, list := PresentedAbove(s, conn), Eligible(conn, s.retained, view), CandidateList(s, conn, view);
    if CandidateMap(s, conn, view) == map[] {
      TakeNothingAccounts(s, cursor, eligible, presented, withheld);
    } else if OutcomesOf(list, Working(view)) == [] {
      TakeSuppressedAccounts(s, cursor, eligible, presented, list, Working(view), replies, x);
    } else {
      TakeBatchAccounts(s, cursor, eligible, presented, list, Working(view), x);
    }
  }

  lemma PeekNothingAccounts(seen: Session, file: Session, cursor: int, eligible: Records, presented: set<int>)
    ensures var p := PeekNothing(seen, file, cursor, eligible, presented);
            && p.file.presented == file.presented && p.file.pendingAck == file.pendingAck
            && forall x | x in file.delivered && x !in p.file.delivered :: x !in eligible
  {
  }

  /** A peek presents nothing but suppressed ids, each parked or landed, and what its copy
      held presented, and drops no outstanding ack but of a delivered id that is not
      eligible to its copy. */
  lemma PeekAccounts(seen: Session, file: Session, cursor: int, conn: Conn, view: Option<PeerView>, waiter: Waiter, replies: Replies, x: int)
    ensures var p := Peek(seen, file, cursor, conn, view, waiter, replies);
            && file.pendingAck <= p.file.pendingAck
            && (x in file.delivered ==> x in p.file.delivered || (x !in Eligible(conn, seen.retained, view) && !Superseded(file, waiter)))
            && (x in p.file.presented && x !in file.presented ==>
                  x in seen.presented || x in p.file.pendingAck || x in SettleLanded(seen, seen.delivered + file.delivered, cursor, conn, view, replies))
  {
    if CandidateMap(seen, conn, view) != map[] {
      var list, bound := CandidateList(seen, conn, view), seen.delivered + file.delivered;
      SettleAllAccounts(list, Working(view), bound, PresentedAbove(seen, conn), cursor, replies, x);
      PeekWriteAccounts(seen, file, conn, Eligible(conn, seen.retained, view), DeferredIds(list, Working(view)),
                        PeekSettling(list, Working(view), bound, PresentedAbove(seen, conn), cursor, replies),
                        OutcomesOf(list, Working(view)) != [], waiter, x);
    } else {
      PeekWithoutCandidates(seen, file, cursor, conn, view, waiter, replies);
      PeekNothingAccounts(seen, file, cursor, Eligible(conn, seen.retained, view), PresentedAbove(seen, conn));
    }
  }

  lemma PeekWriteAccounts(seen: Session, file: Session, conn: Conn, eligible: Records, deferred: set<int>, t: Settling, hasOutcomes: bool,
                          waiter: Waiter, x: int)
    ensures var p := PeekWrite(seen, file, conn, eligible, deferred, t, hasOutcomes, waiter);
            && file.pendingAck <= p.file.pendingAck && p.file.delivered == file.delivered
            && (x in p.file.presented ==> x in file.presented || x in t.presented)
            && (p.file != file ==> t.held <= p.file.pendingAck)
  {
  }

  /** The acks that land for good while a step flushes. */
  ghost function FlushLanded(s: Session, cursor: int, conn: Conn, view: Option<PeerView>, transcript: Transcript, replies: Replies): set<int> {
    if s.pendingAck + s.delivered == {} then {}
    else FlushRun(s, cursor, conn, view, transcript, replies).settled + FlushRun(s, cursor, conn, view, transcript, replies).dropped
  }

  /** A flush drops no id it owes an ack for, and presents no others. */
  lemma FlushAccounts(s: Session, cursor: int, conn: Conn, view: Option<PeerView>, transcript: Transcript, replies: Replies,
                      refreshed: Option<Conn>, x: int)
    ensures var after := FlushAcks(s, cursor, conn, view, transcript, replies, refreshed).session;
            && (Outstanding(s, x) ==> Outstanding(after, x) || x in FlushLanded(s, cursor, conn, view, transcript, replies))
            && (x in after.presented ==> x in s.presented || Outstanding(s, x))
  {
    if s.pendingAck + s.delivered != {} {
      FlushRunKeeps(s, cursor, conn, view, transcript, replies);
      SplitAccounts(FlushStart(s, cursor, conn, view), FlushRun(s, cursor, conn, view, transcript, replies), s.pendingAck + s.delivered,
                    Gate(s.delivered, transcript, replies), x);
    }
  }

  lemma SplitAccounts(start: Flush, r: Flush, ids: set<int>, g: Gate, x: int)
    requires FlushGuarantee(g, start, r, ids)
    ensures x in ids ==> x in r.remaining || x in r.pending || x in r.settled + r.dropped
    ensures x in r.presented ==> x in start.presented || x in ids
  {
  }

  // ---------------------------------------------------------------------
  // One step
  // ---------------------------------------------------------------------

  /** The ids whose acks land for good in this step. */
  ghost function LandedAt(y: System, a: Action): set<int> {
    if !Owns(a) then {} else
    match a
    case PreInvocation(newTurn, conn, view, replies) =>
      SettleLanded(BeginTurn(y.file, newTurn), y.file.delivered, y.cursor, conn.value, view, replies)
    case Stop(conn, transcript, flushView, flushReplies, _, view, replies, _, _) =>
      FlushLanded(y.file.(awaiting := true), y.cursor, conn.value, flushView, transcript, flushReplies)
      + SettleLanded(FlushAt(y, a).session, FlushAt(y, a).session.delivered, FlushAt(y, a).cursor, FlushAt(y, a).conn, view, replies)
    case Poll(waiter, conn, view, replies) =>
      if waiter !in y.memory then {}
      else SettleLanded(y.memory[waiter].seen, y.memory[waiter].seen.delivered + y.file.delivered, y.cursor, conn, view, replies)
    case _ => {}
  }

  /** The step takes the event off the delivered list for another reason than an ack: the
      view it goes by no longer reaches it, an abnormal Stop gives it back, or a waiter
      clears what it had re-armed and could not inject. */
  ghost predicate GivesBack(y: System, a: Action, x: int) {
    match a
    case PreInvocation(newTurn, conn, view, _) =>
      Owns(a) && x in y.file.delivered && x !in Eligible(conn.value, y.file.retained, view)
    case Stop(conn, _, _, _, _, view, _, _, _) =>
      && Owns(a) && x in FlushAt(y, a).session.delivered
      && x !in Eligible(FlushAt(y, a).conn, FlushAt(y, a).session.retained, view) && x !in FlushAt(y, a).withheld
    case Poll(waiter, conn, view, _) =>
      && Owns(a) && waiter in y.memory && !Superseded(y.file, waiter)
      && x in y.file.delivered && x !in Eligible(conn, y.memory[waiter].seen.retained, view)
    case Clear(waiter) =>
      && waiter in y.memory && !Superseded(y.file, waiter)
      && x in y.file.delivered && x in y.memory[waiter].targets
    case AbnormalStop => x in y.file.delivered
    case _ => false
  }

  /** A waiter's peek writes back an id as presented that its copy held so and that was made
      injectable since. */
  ghost predicate PresentsAgain(y: System, a: Action, x: int) {
    a.Poll? && Owns(a) && a.waiter in y.memory && x in y.memory[a.waiter].seen.presented && x !in y.file.presented
  }

  ghost predicate Disowns(a: Action) {
    a.PreInvocation? && a.conn.Some? && !Owns(a)
  }

  /** Why an outstanding ack may be let go: it landed, the scope has another owner, or the
      delivery was given back. */
  ghost predicate LetsGo(y: System, a: Action, x: int) {
    x in LandedAt(y, a) || Disowns(a) || GivesBack(y, a, x)
  }

  /** What a step owes an account of: what was outstanding, and what it newly presents
      other than from a waiter's old copy. */
  ghost predicate Chargeable(y: System, a: Action, x: int) {
    Outstanding(y.file, x) || (x in Step(y, a).file.presented && x !in y.file.presented && !PresentsAgain(y, a, x))
  }

  lemma StopAccounts(y: System, a: Action, x: int)
    requires a.Stop? && Owns(a) && Chargeable(y, a, x)
    ensures Outstanding(Step(y, a).file, x) || LetsGo(y, a, x)
  {
    var s, f := y.file.(awaiting := true), FlushAt(y, a);
    OwnedStop(y, a);
    FlushAccounts(s, y.cursor, a.conn.value, a.flushView, a.transcript, a.flushReplies, a.refreshed, x);
    TakeAccounts(f.session, f.cursor, f.conn, a.view, f.withheld, a.replies, x);
  }

  lemma PreInvocationAccounts(y: System, a: Action, x: int)
    requires a.PreInvocation? && Owns(a) && Chargeable(y, a, x)
    ensures Outstanding(Step(y, a).file, x) || LetsGo(y, a, x)
  {
    OwnedPreInvocation(y, a);
    TakeAccounts(BeginTurn(y.file, a.newTurn), y.cursor, a.conn.value, a.view, {}, a.replies, x);
  }

  lemma PollAccounts(y: System, a: Action, x: int)
    requires a.Poll? && Owns(a) && a.waiter in y.memory && Chargeable(y, a, x)
    ensures Outstanding(Step(y, a).file, x) || LetsGo(y, a, x)
  {
    PollIsPeek(y, a);
    PeekAccounts(y.memory[a.waiter].seen, y.file, y.cursor, a.pollConn, a.view, a.waiter, a.replies, x);
  }

  /** Over any step: an outstanding ack stays outstanding, and an id that becomes presented
      becomes outstanding, unless its ack landed in this step or the step let it go. */
  lemma StepAccounts(y: System, a: Action, x: int)
    requires Chargeable(y, a, x)
    ensures Outstanding(Step(y, a).file, x) || LetsGo(y, a, x)
  {
    if a.PreInvocation? && Owns(a) {
      PreInvocationAccounts(y, a, x);
    } else if a.Stop? && Owns(a) {
      StopAccounts(y, a, x);
    } else if a.Poll? && Owns(a) && a.waiter in y.memory {
      PollAccounts(y, a, x);
    }
  }

  // ---------------------------------------------------------------------
  // Whole runs
  // ---------------------------------------------------------------------

  /** Over every run: an outstanding ack is never dropped for any other reason. */
  lemma {:induction false} OutstandingStays(states: seq<System>, actions: seq<Action>, i: nat, j: nat, x: int)
    requires IsRun(states, actions) && i <= j < |states|
    requires Outstanding(states[i].file, x)
    ensures Outstanding(states[j].file, x) || exists k :: i <= k < j && LetsGo(states[k], actions[k], x)
    decreases j - i
  {
    if i < j {
      assert states[i + 1] == Step(states[i], actions[i]);
      if !LetsGo(states[i], actions[i], x) {
        StepAccounts(states[i], actions[i], x);
        OutstandingStays(states, actions, i + 1, j, x);
      }
    }
  }

  /** Over every run: an event that came to be presented between two states still has its
      ack outstanding at the later one, unless a step in between landed it or let it go, or
      a waiter presented it from a copy older than what made it injectable. */
  lemma {:induction false} NothingPresentedIsForgotten(states: seq<System>, actions: seq<Action>, i: nat, j: nat, x: int)
    requires IsRun(states, actions) && i <= j < |states|
    requires x !in states[i].file.presented && x in states[j].file.presented
    ensures || Outstanding(states[j].file, x)
            || exists k :: i <= k < j && (LetsGo(states[k], actions[k], x) || PresentsAgain(states[k], actions[k], x))
    decreases j - i
  {
    if i < j {
      assert states[i + 1] == Step(states[i], actions[i]);
      if LetsGo(states[i], actions[i], x) || PresentsAgain(states[i], actions[i], x) {
      } else if x !in states[i + 1].file.presented {
        NothingPresentedIsForgotten(states, actions, i + 1, j, x);
      } else {
        StepAccounts(states[i], actions[i], x);
        OutstandingStays(states, actions, i + 1, j, x);
      }
    }
  }
}
