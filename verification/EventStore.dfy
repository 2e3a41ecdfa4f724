/** The store's methods, statement by statement: each is proved to write the table the
    way EventTable says, and what closing, reclaiming and reserving guarantee. */
module EventStore {
  import opened Common
  import opened Projection
  import opened EventTable

  class AgentEventStore {
    var rows: Rows
    var nextId: int

    constructor ()
      ensures rows == map[] && nextId == 1
    {
      rows, nextId := map[], 1;
    }

    ghost function Content(): Table
      reads this
    {
      Table(rows, nextId)
    }

    /** One update statement and its affected-row count. */
    method Update(where: (int, Row) -> bool, change: Row -> Row) returns (affected: nat)
      modifies this`rows
      ensures rows == Updated(old(rows), where, change)
      ensures affected == |Matching(old(rows), where)|
    {
      affected := |Matching(rows, where)|;
      rows := Updated(rows, where, change);
    }

    /** invalidatePaneCore: step 0 only for an explicit close, then the invalidation, then
        the retention unless step 0 consumed a row. */
    method InvalidatePane(c: Close, now: int)
      modifies this`rows
      ensures Content() == Apply(old(Content()), Write.InvalidatePane(c, now))
    {
      ghost var before := rows;
      var consumed := false;
      if c.explicit {
        var affected := Update((id, r) => InPane(r, c) && Active(r) && r.attempts >= 1 && Closes(r, c), (r: Row) => Step0(r));
        CountsConsumed(before, c, (id, r) => InPane(r, c) && Active(r) && r.attempts >= 1 && Closes(r, c));
        consumed := affected > 0;
      }
      var _ := Update((id, r: Row) => InPane(r, c) && !r.status.Acked? && !r.status.Invalidated? && !r.status.Exhausted? && Closes(r, c),
                      (r: Row) => Step1(r, c));
      if !consumed {
        var _ := Update((id, r) => LeftBefore(r, c) && WorthKeeping(r, c, now), (r: Row) => Step2(r));
      }
      assert consumed == Consumed(before, c);
      forall id | id in rows ensures rows[id] == ClosePane(before, c, now)[id] {
        assert rows[id] == Steps(before[id], c, now, consumed);
        StepsAreCloseRow(before[id], c, now, consumed);
      }
      SameEntries(rows, ClosePane(before, c, now));
    }

    /** reservePending: the lowest matching rows, each marked on its own. */
    method ReservePending(terminal: string, limit: int, ids: set<int>, now: int) returns (reserved: seq<int>)
      modifies this`rows
      ensures Content() == Apply(old(Content()), Write.ReservePending(terminal, limit, ids, now))
      ensures reserved == SortedIds(Reservation(old(rows), terminal, limit, ids, now))
    {
      reserved := SortedIds(Reservation(rows, terminal, limit, ids, now));
      ReservedAreRows(rows, reserved, Reservation(rows, terminal, limit, ids, now));
      MarkReserved(reserved, terminal, now);
      MarkedIsReserve(old(rows), rows, reserved, terminal, limit, ids, now);
    }

    method MarkReserved(ids: seq<int>, terminal: string, now: int)
      requires Ascending(ids) && forall i | 0 <= i < |ids| :: ids[i] in rows
      modifies this`rows
      ensures rows.Keys == old(rows).Keys
      ensures forall id | id in rows :: rows[id] == if id in ids then ReservedRow(old(rows)[id], terminal, now) else old(rows)[id]
    {
      for i := 0 to |ids|
        invariant rows.Keys == old(rows).Keys
        invariant forall id | id in rows :: rows[id] == if id in ids[..i] then ReservedRow(old(rows)[id], terminal, now) else old(rows)[id]
      {
        var id := ids[i];
        assert id !in ids[..i];
        if rows[id].status.Pending? || IsRetained(rows[id]) {
          rows := rows[id := rows[id].(status := Delivered, deliverable := true, attempts := rows[id].attempts + 1,
                                       lastAttempt := Some(now), deliveredTo := Some(terminal))];
        }
        assert ids[..i + 1] == ids[..i] + [id];
      }
      assert ids[..|ids|] == ids;
    }

    /** reclaimDelivered: the dead deliveries first, then the abandoned ones. */
    method ReclaimDelivered(q: Reclaim)
      modifies this`rows
      ensures Content() == Apply(old(Content()), Write.ReclaimDelivered(q))
    {
      ghost var before := rows;
      var _ := Update((id, r) => DeadDelivery(r, q), (r: Row) => r.(deliverable := false, status := Invalidated, reason := Some("PANE_CLOSED_RECLAIM")));
      var _ := Update((id, r) => Abandoned(r, q),
                  (r: Row) => r.(status := if r.attempts >= MAX_DELIVERIES then Exhausted else Pending,
                                 deliverable := if r.attempts >= MAX_DELIVERIES then false else true,
                                 deliveredTo := None, nextAttempt := None));
      forall id | id in rows ensures rows[id] == ReclaimAll(before, q)[id] {
        assert id in before;
        var r := before[id];
        assert DeadDelivery(r, q) ==> !Abandoned(r.(deliverable := false, status := Invalidated, reason := Some("PANE_CLOSED_RECLAIM")), q);
      }
      SameEntries(rows, ReclaimAll(before, q));
    }

    /** markAcked: with a scope everything of it up to the id, without one that row. */
    method MarkAcked(id: int, session: string, workspace: Option<string>)
      modifies this`rows
      ensures Content() == Apply(old(Content()), if workspace.Some? then Write.AckCursor(session, workspace.value, id) else Write.AckRow(id))
    {
      ghost var before := rows;
      if workspace.Some? {
        var _ := Update((x, r) => InScope(r, session, workspace.value) && x <= id && (Active(r) || IsRetained(r)), (r: Row) => AckedRow(r));
        SameEntries(rows, AckScope(before, session, workspace.value, id));
      } else {
        var _ := Update((x, r) => x == id && (Active(r) || IsRetained(r)), (r: Row) => AckedRow(r));
        SameEntries(rows, AckOne(before, id));
      }
    }

    /** append: an idempotency key in use inserts nothing. */
    method AppendEvent(e: NewEvent)
      modifies this
      ensures Content() == Apply(old(Content()), Write.AppendEvent(e))
    {
      if e.key.Some? && exists id :: id in rows && SameKey(rows[id], e) {
        return;
      }
      rows := rows[nextId := NewRow(e)];
      nextId := nextId + 1;
    }
  }

  lemma ReservedAreRows(rows: Rows, list: seq<int>, picked: set<int>)
    requires (forall id | id in picked :: id in rows) && (forall id :: id in list <==> id in picked)
    ensures forall i | 0 <= i < |list| :: list[i] in rows
  {
    forall i | 0 <= i < |list| ensures list[i] in rows {
      var id := list[i];
      assert id in list;
      assert id in picked;
    }
  }

  lemma MarkedIsReserve(before: Rows, after: Rows, list: seq<int>, terminal: string, limit: int, ids: set<int>, now: int)
    requires after.Keys == before.Keys
    requires forall id | id in after :: after[id] == if id in list then ReservedRow(before[id], terminal, now) else before[id]
    requires forall id :: id in list <==> id in Reservation(before, terminal, limit, ids, now)
    ensures after == Reserve(before, terminal, limit, ids, now)
  {
    var all := Reserve(before, terminal, limit, ids, now);
    forall id | id in after ensures id in all && after[id] == all[id] {
      assert id in before.Keys;
      assert id in list <==> id in Reservation(before, terminal, limit, ids, now);
    }
    forall id | id in all ensures id in after {
      assert id in after.Keys;
    }
    SameEntries(after, all);
  }

  // The three statements of a close, on one matching row.

  function Step0(r: Row): Row { r.(status := Acked, deliverable := false, reason := None) }

  function Step1(r: Row, c: Close): Row { r.(deliverable := false, status := Invalidated, reason := Some(CloseReason(c))) }

  function Step2(r: Row): Row { r.(deliverable := true, reason := Some(RETAINED)) }

  /** The statements in order, seen by one row. */
  function Steps(r: Row, c: Close, now: int, consumed: bool): Row {
    var r0 := if c.explicit && InPane(r, c) && Active(r) && r.attempts >= 1 && Closes(r, c) then Step0(r) else r;
    var r1 := if InPane(r0, c) && !r0.status.Acked? && !r0.status.Invalidated? && !r0.status.Exhausted? && Closes(r0, c) then Step1(r0, c) else r0;
    if !consumed && LeftBefore(r1, c) && WorthKeeping(r1, c, now) then Step2(r1) else r1
  }

  lemma StepsAreCloseRow(r: Row, c: Close, now: int, consumed: bool)
    ensures Steps(r, c, now, consumed) == CloseRow(r, c, now, consumed)
  {
  }

  lemma CountsConsumed(rows: Rows, c: Close, where: (int, Row) -> bool)
    requires c.explicit && forall id, r :: where(id, r) <==> InPane(r, c) && Active(r) && r.attempts >= 1 && Closes(r, c)
    ensures |Matching(rows, where)| > 0 <==> Consumed(rows, c)
  {
    if Consumed(rows, c) {
      var id :| id in rows && Consumable(rows[id], c);
      assert id in Matching(rows, where);
    } else if |Matching(rows, where)| > 0 {
      var id := SomeMember(Matching(rows, where));
      assert Consumable(rows[id], c);
    }
  }

  // ---------------------------------------------------------------------
  // Closing
  // ---------------------------------------------------------------------

  /** The row belongs to the closed pane, to its closed incarnation or an older one; a close
      or a row that does not know its incarnation counts for all of them. */
  ghost predicate AtOrBefore(r: Row, c: Close) {
    && r.session == c.session && r.pane == Some(c.pane)
    && (c.generation.Some? && r.generation.Some? && r.generation != c.generation ==>
          exists k: nat :: PartsAt(r.generation.value, c.generation.value, k))
  }

  /** An earlier close with the same reason left the row undeliverable. */
  ghost predicate LeftByClose(r: Row, c: Close) {
    && r.session == c.session && r.pane == Some(c.pane) && r.status.Invalidated? && !r.deliverable
    && r.reason == Some(if c.givenReason.Some? then c.givenReason.value
                        else if c.generation.Some? then "PANE_CLOSED" else "LEGACY_CLOSE_WITHOUT_GENERATION")
  }

  /** A close by the user meets a row that was handed out at least once. */
  ghost predicate Consumes(rows: Rows, c: Close, id: int) {
    c.explicit && id in rows && (rows[id].status.Pending? || rows[id].status.Delivered?) && rows[id].attempts >= 1 && AtOrBefore(rows[id], c)
  }

  lemma ClosesExactly(r: Row, c: Close)
    ensures Closes(r, c) <==> AtOrBefore(r, c)
  {
    if r.generation.Some? && c.generation.Some? {
      TextLessExactly(r.generation.value, c.generation.value);
    }
  }

  lemma ConsumesExactly(rows: Rows, c: Close)
    ensures Consumed(rows, c) <==> exists id :: Consumes(rows, c, id)
  {
    forall id | id in rows ensures Consumable(rows[id], c) <==> Consumes(rows, c, id) {
      ClosesExactly(rows[id], c);
    }
  }

  /** No row of the closed incarnation, or of an older one, stays in flight: what was handed
      out is acked by a close of the user, the rest is invalidated. Every other row is
      untouched unless an earlier close with the same reason left it. */
  lemma CloseSettlesIncarnation(rows: Rows, c: Close, now: int, id: int)
    requires id in rows
    ensures id in ClosePane(rows, c, now)
    ensures var r, after := rows[id], ClosePane(rows, c, now)[id];
            if (r.status.Pending? || r.status.Delivered?) && AtOrBefore(r, c) then
              if Consumes(rows, c, id) then after.status.Acked? && !after.deliverable else after.status.Invalidated?
            else !LeftByClose(r, c) ==> after == r
  {
    ClosesExactly(rows[id], c);
  }

  /** Exactly which rows a close makes newly deliverable: none when it consumed a row, and
      otherwise the fresh working completions of the incarnation and the failures nobody
      was handed yet, among the rows it invalidates and those left with its reason. */
  lemma NewlyRetainedExactly(rows: Rows, c: Close, now: int, id: int)
    requires id in rows && RowOk(rows[id]) && !IsRetained(rows[id])
    ensures var r, after := rows[id], ClosePane(rows, c, now)[id];
            after.status.Invalidated? && after.deliverable <==>
              && (forall x :: !Consumes(rows, c, x))
              && (((r.status.Pending? || r.status.Delivered?) && AtOrBefore(r, c)) || LeftByClose(r, c))
              && ((r.kind.Failed? && r.attempts == 0)
                  || ((r.kind.Done? || r.kind.Idle?) && r.fromWorking && (c.generation.Some? ==> r.generation == c.generation)
                      && now - r.created <= 300_000))
    ensures (exists x :: Consumes(rows, c, x)) && ClosePane(rows, c, now)[id].deliverable ==> ClosePane(rows, c, now)[id] == rows[id]
  {
    ClosesExactly(rows[id], c);
    ConsumesExactly(rows, c);
  }

  /** Closing again is not harmless: an explicit close that consumed a delivery settles
      the pane's earlier completion, and the next close of the same pane brings that
      completion back. */
  lemma SecondCloseResurrects()
    ensures exists rows, c, now ::
              && (forall id | id in rows :: RowOk(rows[id]))
              && (forall id | id in ClosePane(rows, c, now) :: Settled(ClosePane(rows, c, now)[id]))
              && (exists id :: id in rows && IsRetained(ClosePane(ClosePane(rows, c, now), c, now)[id]))
  {
    var early := NewRow(NewEvent("s", Some("w"), Some("a"), Some("p"), Some("g"), Done, true, None, 0));
    var seen := early.(status := Delivered, attempts := 1, lastAttempt := Some(0), deliveredTo := Some("t"));
    var rows: Rows := map[1 := early, 2 := seen];
    var c := Close("s", "p", Some("g"), None, true);
    var once := ClosePane(rows, c, 0);
    assert Consumable(rows[2], c);
    assert once[1] == early.(status := Invalidated, deliverable := false, reason := Some("PANE_CLOSED"));
    assert once[2].status.Acked?;
    assert !Consumed(once, c);
    assert IsRetained(ClosePane(once, c, 0)[1]);
  }

  // ---------------------------------------------------------------------
  // Reclaiming and reserving
  // ---------------------------------------------------------------------

  /** The row's agent is indexed in the very pane and workspace of the row. */
  ghost predicate PaneStands(r: Row, q: Reclaim) {
    r.agent.Some? && exists a :: a in q.agents && r.agent == Some(a.id) && r.session == a.session
                                 && r.workspace == Some(a.workspace) && r.pane == Some(a.pane)
  }

  lemma PaneStandsExactly(r: Row, q: Reclaim)
    ensures PaneStands(r, q) <==> PaneOpen(r, q)
  {
    if PaneStands(r, q) {
      var a :| a in q.agents && r.agent == Some(a.id) && r.session == a.session && r.workspace == Some(a.workspace) && r.pane == Some(a.pane);
      assert a == Agent(r.agent.value, r.session, r.workspace.value, r.pane.value);
    }
  }

  /** What a reclaim does to a row: only one in flight is touched. In a pane that stands it
      is left with a terminal that holds a scope of its session, and else returns to pending,
      or fails after ten attempts. In a pane that is gone it is left for a while after its
      last attempt, and then invalidated. */
  lemma ReclaimExactly(rows: Rows, q: Reclaim, id: int)
    requires id in rows && RowOk(rows[id])
    ensures var r, after := rows[id], ReclaimAll(rows, q)[id];
            if !r.status.Delivered? then after == r
            else if PaneStands(r, q) then
              if (r.session, r.deliveredTo.value) in q.owners then after == r
              else && after.deliveredTo.None?
                   && if r.attempts < 10 then after.status.Pending? && after.deliverable && after.nextAttempt.None?
                      else after.status.Exhausted? && !after.deliverable
            else if r.lastAttempt.value >= q.cutoff then after == r
            else after.status.Invalidated? && !after.deliverable && after.reason == Some("PANE_CLOSED_RECLAIM")
  {
    PaneStandsExactly(rows[id], q);
  }

  /** The write hands the row out to a terminal it was not in flight with. */
  ghost predicate HandsOut(t: Table, w: Write, id: int) {
    && w.ReservePending? && id in t.rows && id in Reservation(t.rows, w.terminal, w.limit, w.ids, w.now)
    && !t.rows[id].status.Delivered?
  }

  lemma AttemptsCountHandOut(t: Table, w: Write, id: int)
    requires Inv(t) && id in t.rows && id in Apply(t, w).rows
    ensures Apply(t, w).rows[id].attempts == t.rows[id].attempts + if HandsOut(t, w, id) then 1 else 0
  {
    match w {
      case ReservePending(terminal, limit, ids, now) => assert id in Matching(t.rows, (x, r) => Reservable(r, terminal, now) && (ids == {} || x in ids))
                                                               || id !in Reservation(t.rows, terminal, limit, ids, now);
      case ReclaimDelivered(reclaim) =>
      case InvalidatePane(close, now) =>
      case _ =>
    }
  }

  /** How often the first n writes hand the row out while it is pending. */
  ghost function PendingHandOuts(tables: seq<Table>, writes: seq<Write>, n: nat, id: int): nat
    requires n <= |writes| && |tables| == |writes| + 1
  {
    if n == 0 then 0
    else PendingHandOuts(tables, writes, n - 1, id)
         + if HandsOut(tables[n - 1], writes[n - 1], id) && tables[n - 1].rows[id].status.Pending? then 1 else 0
  }

  /** Over every run that starts without the row: a pending row is handed out at most ten
      times, whatever reclaims put it back to pending in between; while it exists its attempts
      are at least the times it was. */
  lemma {:induction false} PendingHandedOutTenTimes(tables: seq<Table>, writes: seq<Write>, n: nat, id: int)
    requires EventTable.IsRun(tables, writes) && n <= |writes| && id !in tables[0].rows && tables[0].nextId <= id
    ensures PendingHandOuts(tables, writes, n, id) <= MAX_DELIVERIES
    ensures id in tables[n].rows ==> PendingHandOuts(tables, writes, n, id) <= tables[n].rows[id].attempts
    ensures id >= tables[n].nextId ==> PendingHandOuts(tables, writes, n, id) == 0
  {
    if n > 0 {
      var t, w := tables[n - 1], writes[n - 1];
      PendingHandedOutTenTimes(tables, writes, n - 1, id);
      ReachableTablesAreSound(tables, writes, n - 1);
      ApplyKeepsInv(t, w);
      assert tables[(n - 1) + 1] == Apply(t, w);
      if id in t.rows {
        if id in Apply(t, w).rows {
          AttemptsCountHandOut(t, w, id);
        }
      } else if id in Apply(t, w).rows {
        WriteIssuesNoOldId(t, w, id);
      }
    }
  }

  /** A retained or pending row whose time has come, or one in flight with this terminal since
      less than five minutes. */
  ghost predicate MayBeReserved(r: Row, terminal: string, now: int) {
    || ((r.status.Pending? || (r.status.Invalidated? && r.deliverable)) && (r.nextAttempt.Some? ==> r.nextAttempt.value <= now))
    || (r.status.Delivered? && r.deliveredTo == Some(terminal) && r.lastAttempt.Some? && now - r.lastAttempt.value <= 300_000)
  }

  /** A reservation takes the lowest rows that may be delivered: whatever such row it leaves
      out is above all it took, and the limit is used up. Each taken row is in flight with
      the terminal; only a row that was not in flight before costs an attempt, which is now.
      No other row changes. */
  lemma ReserveTakesLowest(rows: Rows, terminal: string, limit: int, ids: set<int>, now: int, id: int, left: int)
    requires id in Reservation(rows, terminal, limit, ids, now)
    ensures id in rows && MayBeReserved(rows[id], terminal, now) && (ids == {} || id in ids)
    ensures var r, before := Reserve(rows, terminal, limit, ids, now)[id], rows[id];
            && r.status.Delivered? && r.deliveredTo == Some(terminal)
            && if before.status.Delivered? then r == before else r.attempts == before.attempts + 1 && r.lastAttempt == Some(now) && r.deliverable
    ensures left in rows && left !in Reservation(rows, terminal, limit, ids, now) ==>
              && Reserve(rows, terminal, limit, ids, now)[left] == rows[left]
              && (MayBeReserved(rows[left], terminal, now) && (ids == {} || left in ids) ==>
                    id < left && |Reservation(rows, terminal, limit, ids, now)| == (if limit <= 0 then 100 else limit))
  {
    var all := Matching(rows, (id, r) => Reservable(r, terminal, now) && (ids == {} || id in ids));
    var picked := Reservation(rows, terminal, limit, ids, now);
    assert id in all;
    if left in rows && left !in picked && MayBeReserved(rows[left], terminal, now) && (ids == {} || left in ids) {
      assert left in all - picked;
    }
  }

  /** Nothing is reserved exactly if nothing may be. */
  lemma ReserveTakesSome(rows: Rows, terminal: string, limit: int, ids: set<int>, now: int)
    ensures Reservation(rows, terminal, limit, ids, now) == {} <==>
            forall id | id in rows :: !(MayBeReserved(rows[id], terminal, now) && (ids == {} || id in ids))
  {
    var all := Matching(rows, (id, r) => Reservable(r, terminal, now) && (ids == {} || id in ids));
    if all != {} {
      var id := SomeMember(all);
      assert MayBeReserved(rows[id], terminal, now) && (ids == {} || id in ids);
      assert |all| > 0;
    } else {
      forall id | id in rows ensures !(MayBeReserved(rows[id], terminal, now) && (ids == {} || id in ids)) {
        assert id !in all;
      }
    }
  }

  // ---------------------------------------------------------------------
  // The single-purpose writes
  // ---------------------------------------------------------------------

  predicate InFlight(r: Row) {
    r.status.Pending? || r.status.Delivered?
  }

  /** Still owed: in flight, or retained for one more delivery. */
  predicate StillOwed(r: Row) {
    InFlight(r) || (r.status.Invalidated? && r.deliverable)
  }

  /** Which rows an ack of a scope, of one row or of the caller's own pane reaches. */
  predicate Acks(w: Write, id: int, r: Row) {
    match w
    case AckCursor(session, workspace, upTo) => StillOwed(r) && r.session == session && r.workspace == Some(workspace) && id <= upTo
    case AckRow(one) => StillOwed(r) && id == one
    case AckOwn(session, workspace, pane) => InFlight(r) && r.session == session && r.workspace == Some(workspace) && r.pane == Some(pane)
    case _ => false
  }

  lemma AckScopeRow(rows: Rows, session: string, workspace: string, upTo: int, id: int)
    requires id in rows
    ensures AckScope(rows, session, workspace, upTo)[id] ==
            if StillOwed(rows[id]) && rows[id].session == session && rows[id].workspace == Some(workspace) && id <= upTo then AckedRow(rows[id])
            else rows[id]
  {
    var r := rows[id];
    assert StillOwed(r) <==> Active(r) || IsRetained(r);
    assert InScope(r, session, workspace) <==> r.session == session && r.workspace == Some(workspace);
  }

  lemma AcksExactly(t: Table, w: Write, id: int)
    requires id in t.rows && (w.AckCursor? || w.AckRow? || w.AckOwn?)
    ensures id in Apply(t, w).rows
    ensures var r, after := t.rows[id], Apply(t, w).rows[id];
            if Acks(w, id, r) then after.status.Acked? && !after.deliverable && after.attempts == r.attempts else after == r
  {
    var r := t.rows[id];
    match w {
      case AckCursor(session, workspace, upTo) =>
        AckScopeRow(t.rows, session, workspace, upTo, id);
      case AckRow(one) =>
        assert AckOne(t.rows, one)[id] == if Acks(w, id, r) then AckedRow(r) else r;
      case AckOwn(session, workspace, pane) =>
        assert AckSelfOwned(t.rows, session, workspace, pane)[id] == if Acks(w, id, r) then AckedRow(r) else r;
    }
  }

  /** The writes that name one row in flight: it is invalidated with the reason, retained for
      one more delivery, or deleted; nothing else changes. */
  lemma MarksExactly(t: Table, w: Write, id: int)
    requires id in t.rows && (w.InvalidateRow? || w.RetainInvalidated? || w.DropCandidate?)
    ensures var r, hit := t.rows[id], id == w.id && InFlight(t.rows[id]);
            && (id in Apply(t, w).rows <==> !(hit && w.DropCandidate?))
            && (id in Apply(t, w).rows ==>
                  var after := Apply(t, w).rows[id];
                  if !hit then after == r
                  else after.status.Invalidated? && after.attempts == r.attempts
                       && if w.RetainInvalidated? then after.deliverable else !after.deliverable && after.reason == Some(w.why))
  {
  }

  /** The purges delete exactly the rows that are through and old enough: invalidated ones by
      their last attempt, or else their creation, the others by their creation. */
  lemma PurgesExactly(t: Table, w: Write, id: int)
    requires id in t.rows && (w.PurgeInvalidated? || w.PurgeSettled?)
    ensures var r := t.rows[id];
            id !in Apply(t, w).rows <==>
              if w.PurgeInvalidated? then
                r.status.Invalidated? && !r.deliverable && (if r.lastAttempt.Some? then r.lastAttempt.value else r.created) < w.before
              else (r.status.Acked? || r.status.Exhausted? || (r.status.Invalidated? && r.deliverable)) && r.created < w.before
    ensures id in Apply(t, w).rows ==> Apply(t, w).rows[id] == t.rows[id]
  {
  }

  /** An append adds the row, pending and never tried, unless a row of the session has its
      key. */
  lemma AppendExactly(t: Table, e: NewEvent)
    requires Inv(t)
    ensures var after := Apply(t, AppendEvent(e));
            if e.key.Some? && exists id :: id in t.rows && t.rows[id].session == e.session && t.rows[id].key == e.key then after == t
            else
              && after.nextId == t.nextId + 1 && after.rows.Keys == t.rows.Keys + {t.nextId}
              && (forall id | id in t.rows :: after.rows[id] == t.rows[id])
              && var r := after.rows[t.nextId];
                 && r.session == e.session && r.workspace == e.workspace && r.agent == e.agent && r.pane == e.pane
                 && r.generation == e.generation && r.kind == e.kind && r.fromWorking == e.fromWorking && r.key == e.key
                 && r.created == e.created && r.status.Pending? && r.deliverable && r.attempts == 0 && r.deliveredTo.None? && r.nextAttempt.None?
  {
    if e.key.Some? && exists id :: id in t.rows && t.rows[id].session == e.session && t.rows[id].key == e.key {
      var id :| id in t.rows && t.rows[id].session == e.session && t.rows[id].key == e.key;
      assert SameKey(t.rows[id], e);
    }
  }
}
