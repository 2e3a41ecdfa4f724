/** The daemon's agent_events table: every statement that writes it, as one update of
    the rows, and the invariants that all of them keep. */
module EventTable {
  import opened Common
  import opened Projection

  datatype Status = Pending | Delivered | Acked | Invalidated | Exhausted

  /** One row. fromWorking says whether the payload's from is "working"; Exhausted is
      the status 'failed'. */
  datatype Row = Row(
    session: string,
    workspace: Option<string>,
    agent: Option<string>,
    pane: Option<string>,
    generation: Option<string>,
    kind: EventType,
    fromWorking: bool,
    key: Option<string>,
    created: int,
    status: Status,
    deliverable: bool,
    attempts: int,
    lastAttempt: Option<int>,
    nextAttempt: Option<int>,
    deliveredTo: Option<string>,
    reason: Option<string>)

  type Rows = map<int, Row>

  const REDELIVERY_FRESHNESS := 300_000
  const MAX_DELIVERIES := 10
  const RETAINED := "RETAINED_OUTCOME_PANE_CLOSED"

  /** An update statement: each row that matches is replaced. */
  function Updated(rows: Rows, where: (int, Row) -> bool, change: Row -> Row): Rows {
    map id | id in rows :: if where(id, rows[id]) then change(rows[id]) else rows[id]
  }

  /** A delete statement. */
  function Deleted(rows: Rows, where: (int, Row) -> bool): Rows {
    map id | id in rows && !where(id, rows[id]) :: rows[id]
  }

  function Matching(rows: Rows, where: (int, Row) -> bool): set<int> {
    set id | id in rows && where(id, rows[id])
  }

  /** Byte order of two texts, which is SQLite's order of the generations. */
  predicate TextLess(a: string, b: string)
    decreases |a|
  {
    b != "" && (a == "" || a[0] < b[0] || (a[0] == b[0] && TextLess(a[1..], b[1..])))
  }

  /** The common beginning of a and b ends at k, where a ends or has the smaller character. */
  predicate PartsAt(a: string, b: string, k: nat) {
    k <= |a| && k < |b| && a[..k] == b[..k] && (k == |a| || a[k] < b[k])
  }

  lemma CommonHead(a: string, b: string)
    ensures forall k: nat | PartsAt(a, b, k) :: k == 0 || (a != "" && b != "" && a[0] == b[0])
  {
    forall k: nat | PartsAt(a, b, k) && k > 0 ensures a != "" && b != "" && a[0] == b[0] {
      assert a[..k][0] == b[..k][0];
    }
  }

  lemma {:induction false} TextLessExactly(a: string, b: string)
    ensures TextLess(a, b) <==> exists k: nat :: PartsAt(a, b, k)
    decreases |a|
  {
    if a == "" || b == "" || a[0] != b[0] {
      if TextLess(a, b) {
        assert PartsAt(a, b, 0);
      }
      if exists k: nat :: PartsAt(a, b, k) {
        CommonHead(a, b);
      }
    } else {
      TextLessExactly(a[1..], b[1..]);
      if TextLess(a, b) {
        var k: nat :| PartsAt(a[1..], b[1..], k);
        assert a[..k + 1] == [a[0]] + a[1..][..k] && b[..k + 1] == [b[0]] + b[1..][..k];
        assert PartsAt(a, b, k + 1);
      }
      if exists k: nat :: PartsAt(a, b, k) {
        var k: nat :| PartsAt(a, b, k);
        assert k > 0;
        assert a[1..][..k - 1] == a[..k][1..] && b[1..][..k - 1] == b[..k][1..];
        assert PartsAt(a[1..], b[1..], k - 1);
      }
    }
  }

  // ---------------------------------------------------------------------
  // The row predicates the statements share
  // ---------------------------------------------------------------------

  predicate Active(r: Row) {
    r.status.Pending? || r.status.Delivered?
  }

  predicate IsRetained(r: Row) {
    r.status.Invalidated? && r.deliverable
  }

  /** Nothing more is owed for the row. */
  predicate Settled(r: Row) {
    !Active(r) && !IsRetained(r)
  }

  predicate Due(at: Option<int>, now: int) {
    at.None? || at.value <= now
  }

  // ---------------------------------------------------------------------
  // Closing a pane
  // ---------------------------------------------------------------------

  /** generation is None for a close that does not know it; explicit is a close by the
      user, which counts what was already delivered as consumed. */
  datatype Close = Close(session: string, pane: string, generation: Option<string>, givenReason: Option<string>, explicit: bool)

  function CloseReason(c: Close): string {
    if c.givenReason.Some? then c.givenReason.value
    else if c.generation.None? then "LEGACY_CLOSE_WITHOUT_GENERATION"
    else "PANE_CLOSED"
  }

  predicate InPane(r: Row, c: Close) {
    r.session == c.session && r.pane == Some(c.pane)
  }

  /** The closed incarnation and everything older; all of it for a legacy close. */
  predicate Closes(r: Row, c: Close) {
    && InPane(r, c)
    && (c.generation.None? || r.generation.None? || r.generation == c.generation
        || TextLess(r.generation.value, c.generation.value))
  }

  predicate SameIncarnation(r: Row, c: Close) {
    c.generation.None? || r.generation == c.generation
  }

  predicate Consumable(r: Row, c: Close) {
    c.explicit && Active(r) && r.attempts >= 1 && Closes(r, c)
  }

  /** Worth one delivery after the close: a fresh completion of this incarnation, or a
      failure that was never attempted. */
  predicate WorthKeeping(r: Row, c: Close, now: int) {
    || (SameIncarnation(r, c) && (r.kind.Done? || r.kind.Idle?) && r.fromWorking && r.created >= now - REDELIVERY_FRESHNESS)
    || (r.kind.Failed? && r.attempts == 0)
  }

  /** What an earlier invalidation with this close's reason left undeliverable. */
  predicate LeftBefore(r: Row, c: Close) {
    InPane(r, c) && r.status.Invalidated? && !r.deliverable && r.reason == Some(CloseReason(c))
  }

  /** What the close makes of one row, given whether it consumed any. */
  function CloseRow(r: Row, c: Close, now: int, consumed: bool): Row {
    if Consumable(r, c) then r.(status := Acked, deliverable := false, reason := None)
    else if (Active(r) && Closes(r, c)) || LeftBefore(r, c) then
      if !consumed && WorthKeeping(r, c, now) then r.(status := Invalidated, deliverable := true, reason := Some(RETAINED))
      else r.(status := Invalidated, deliverable := false, reason := Some(CloseReason(c)))
    else r
  }

  predicate Consumed(rows: Rows, c: Close) {
    exists id :: id in rows && Consumable(rows[id], c)
  }

  function ClosePane(rows: Rows, c: Close, now: int): Rows {
    map id | id in rows :: CloseRow(rows[id], c, now, Consumed(rows, c))
  }

  // ---------------------------------------------------------------------
  // Reserving and reclaiming
  // ---------------------------------------------------------------------

  /** A retained or due pending row, or one in flight with this very terminal. */
  predicate Reservable(r: Row, terminal: string, now: int) {
    || (r.status.Pending? && Due(r.nextAttempt, now))
    || (r.status.Delivered? && r.deliveredTo == Some(terminal) && r.lastAttempt.Some? && r.lastAttempt.value >= now - REDELIVERY_FRESHNESS)
    || (IsRetained(r) && Due(r.nextAttempt, now))
  }

  function Reservation(rows: Rows, terminal: string, limit: int, ids: set<int>, now: int): set<int> {
    FirstN(Matching(rows, (id, r) => Reservable(r, terminal, now) && (ids == {} || id in ids)), if limit <= 0 then 100 else limit)
  }

  function ReservedRow(r: Row, terminal: string, now: int): Row {
    if r.status.Pending? || IsRetained(r) then
      r.(status := Delivered, deliverable := true, attempts := r.attempts + 1, lastAttempt := Some(now), deliveredTo := Some(terminal))
    else r
  }

  function Reserve(rows: Rows, terminal: string, limit: int, ids: set<int>, now: int): Rows {
    var picked := Reservation(rows, terminal, limit, ids, now);
    map id | id in rows :: if id in picked then ReservedRow(rows[id], terminal, now) else rows[id]
  }

  /** The indexed agents and the owner terminals of the session's scopes, as the reclaim
      reads them. */
  datatype Agent = Agent(id: string, session: string, workspace: string, pane: string)

  datatype Reclaim = Reclaim(cutoff: int, agents: set<Agent>, owners: set<(string, string)>)

  predicate PaneOpen(r: Row, q: Reclaim) {
    r.agent.Some? && r.workspace.Some? && r.pane.Some?
    && Agent(r.agent.value, r.session, r.workspace.value, r.pane.value) in q.agents
  }

  predicate OwnerHolds(r: Row, q: Reclaim) {
    r.deliveredTo.Some? && (r.session, r.deliveredTo.value) in q.owners
  }

  predicate DeadDelivery(r: Row, q: Reclaim) {
    r.status.Delivered? && r.attempts >= 1 && r.lastAttempt.Some? && r.lastAttempt.value < q.cutoff && !PaneOpen(r, q)
  }

  predicate Abandoned(r: Row, q: Reclaim) {
    r.status.Delivered? && PaneOpen(r, q) && !OwnerHolds(r, q)
  }

  function ReclaimedRow(r: Row, q: Reclaim): Row {
    if DeadDelivery(r, q) then r.(status := Invalidated, deliverable := false, reason := Some("PANE_CLOSED_RECLAIM"))
    else if Abandoned(r, q) then
      r.(status := if r.attempts >= MAX_DELIVERIES then Exhausted else Pending, deliverable := r.attempts < MAX_DELIVERIES,
         deliveredTo := None, nextAttempt := None)
    else r
  }

  function ReclaimAll(rows: Rows, q: Reclaim): Rows {
    map id | id in rows :: ReclaimedRow(rows[id], q)
  }

  // ---------------------------------------------------------------------
  // Acknowledging, invalidating and deleting
  // ---------------------------------------------------------------------

  function AckedRow(r: Row): Row {
    r.(status := Acked, deliverable := false)
  }

  predicate InScope(r: Row, session: string, workspace: string) {
    r.session == session && r.workspace == Some(workspace)
  }

  function AckScope(rows: Rows, session: string, workspace: string, upTo: int): Rows {
    Updated(rows, (id, r) => InScope(r, session, workspace) && id <= upTo && (Active(r) || IsRetained(r)), AckedRow)
  }

  function AckOne(rows: Rows, one: int): Rows {
    Updated(rows, (id, r) => id == one && (Active(r) || IsRetained(r)), AckedRow)
  }

  function AckSelfOwned(rows: Rows, session: string, workspace: string, pane: string): Rows {
    Updated(rows, (id, r) => InScope(r, session, workspace) && r.pane == Some(pane) && Active(r), AckedRow)
  }

  function InvalidatedRow(r: Row, why: string): Row {
    r.(deliverable := false, status := Invalidated, reason := Some(why))
  }

  function InvalidateOne(rows: Rows, one: int, why: string): Rows {
    Updated(rows, (id, r) => id == one && Active(r), r => InvalidatedRow(r, why))
  }

  function RetainedRow(r: Row): Row {
    r.(status := Invalidated, deliverable := true, reason := Some(RETAINED))
  }

  function RetainOne(rows: Rows, one: int): Rows {
    Updated(rows, (id, r) => id == one && Active(r), RetainedRow)
  }

  function DeleteCandidate(rows: Rows, one: int): Rows {
    Deleted(rows, (id, r) => id == one && Active(r))
  }

  function LastTouched(r: Row): int {
    if r.lastAttempt.Some? then r.lastAttempt.value else r.created
  }

  function DeleteInvalidated(rows: Rows, before: int): Rows {
    Deleted(rows, (id, r: Row) => r.status.Invalidated? && !r.deliverable && LastTouched(r) < before)
  }

  function DeleteSettled(rows: Rows, before: int): Rows {
    Deleted(rows, (id, r: Row) => (r.status.Acked? || r.status.Exhausted? || IsRetained(r)) && r.created < before)
  }

  // ---------------------------------------------------------------------
  // Appending
  // ---------------------------------------------------------------------

  /** nextId is SQLite's autoincrement counter: ids are never issued twice. */
  datatype Table = Table(rows: Rows, nextId: int)

  datatype NewEvent = NewEvent(session: string, workspace: Option<string>, agent: Option<string>, pane: Option<string>,
                               generation: Option<string>, kind: EventType, fromWorking: bool, key: Option<string>, created: int)

  function NewRow(e: NewEvent): Row {
    Row(e.session, e.workspace, e.agent, e.pane, e.generation, e.kind, e.fromWorking, e.key, e.created, Pending, true, 0, None, None, None, None)
  }

  predicate SameKey(r: Row, e: NewEvent) {
    e.key.Some? && r.session == e.session && r.key == e.key
  }

  predicate Known(t: Table, e: NewEvent) {
    exists id :: id in t.rows && SameKey(t.rows[id], e)
  }

  /** A key in use inserts nothing: append returns the row of a non-empty one, and the
      unique index refuses an empty one. */
  function Append(t: Table, e: NewEvent): Table {
    if Known(t, e) then t else Table(t.rows[t.nextId := NewRow(e)], t.nextId + 1)
  }

  // ---------------------------------------------------------------------
  // The table as a state machine
  // ---------------------------------------------------------------------

  datatype Write =
    | AppendEvent(event: NewEvent)
    | ReservePending(terminal: string, limit: int, ids: set<int>, now: int)
    | ReclaimDelivered(reclaim: Reclaim)
    | InvalidatePane(close: Close, now: int)
    | AckCursor(session: string, workspace: string, id: int)
    | AckRow(id: int)
    | AckOwn(session: string, workspace: string, pane: string)
    | InvalidateRow(id: int, why: string)
    | RetainInvalidated(id: int)
    | DropCandidate(id: int)
    | PurgeInvalidated(before: int)
    | PurgeSettled(before: int)

  function Apply(t: Table, w: Write): Table {
    match w
    case AppendEvent(event) => Append(t, event)
    case ReservePending(terminal, limit, ids, now) => t.(rows := Reserve(t.rows, terminal, limit, ids, now))
    case ReclaimDelivered(reclaim) => t.(rows := ReclaimAll(t.rows, reclaim))
    case InvalidatePane(close, now) => t.(rows := ClosePane(t.rows, close, now))
    case AckCursor(session, workspace, id) => t.(rows := AckScope(t.rows, session, workspace, id))
    case AckRow(id) => t.(rows := AckOne(t.rows, id))
    case AckOwn(session, workspace, pane) => t.(rows := AckSelfOwned(t.rows, session, workspace, pane))
    case InvalidateRow(id, why) => t.(rows := InvalidateOne(t.rows, id, why))
    case RetainInvalidated(id) => t.(rows := RetainOne(t.rows, id))
    case DropCandidate(id) => t.(rows := DeleteCandidate(t.rows, id))
    case PurgeInvalidated(before) => t.(rows := DeleteInvalidated(t.rows, before))
    case PurgeSettled(before) => t.(rows := DeleteSettled(t.rows, before))
  }

  // ---------------------------------------------------------------------
  // Invariants of every reachable table
  // ---------------------------------------------------------------------

  ghost predicate RowOk(r: Row) {
    && r.attempts >= 0
    && (r.status.Acked? || r.status.Exhausted? ==> !r.deliverable)
    && (Active(r) ==> r.deliverable)
    && (r.status.Delivered? ==> r.attempts >= 1 && r.deliveredTo.Some? && r.lastAttempt.Some?)
    && (r.status.Pending? ==> r.attempts < MAX_DELIVERIES)
    && (r.status.Exhausted? ==> r.attempts >= MAX_DELIVERIES)
  }

  ghost predicate UniqueKeys(rows: Rows) {
    forall i, j | i in rows && j in rows && i != j && rows[i].session == rows[j].session && rows[i].key.Some? :: rows[i].key != rows[j].key
  }

  ghost predicate Inv(t: Table) {
    && 0 < t.nextId && (forall id | id in t.rows :: 0 < id < t.nextId && RowOk(t.rows[id]))
    && UniqueKeys(t.rows)
  }

  /** What every write but an append does to a row: it is dropped, or keeps its identity
      and stays a sound row, and a row that is done stays exactly as it is. */
  ghost predicate Sound(before: Row, after: Row) {
    && after.session == before.session && after.workspace == before.workspace && after.key == before.key
    && (RowOk(before) ==> RowOk(after))
    && (before.status.Acked? || before.status.Exhausted? ==> after == before)
  }

  lemma WriteIsSound(t: Table, w: Write, id: int)
    requires id in t.rows && (w.AppendEvent? ==> id < t.nextId)
    ensures id in Apply(t, w).rows ==> Sound(t.rows[id], Apply(t, w).rows[id])
  {
    var r := t.rows[id];
    match w {
      case AppendEvent(_) =>
      case ReservePending(terminal, _, _, now) => ReservedIsSound(r, terminal, now);
      case ReclaimDelivered(reclaim) => ReclaimedIsSound(r, reclaim);
      case InvalidatePane(close, now) => ClosedIsSound(r, close, now, Consumed(t.rows, close));
      case PurgeInvalidated(_) =>
      case PurgeSettled(_) =>
      case DropCandidate(_) =>
      case _ => MarkedIsSound(r);
    }
  }

  lemma ReservedIsSound(r: Row, terminal: string, now: int)
    ensures Sound(r, ReservedRow(r, terminal, now))
  {
  }

  lemma ReclaimedIsSound(r: Row, q: Reclaim)
    ensures Sound(r, ReclaimedRow(r, q))
  {
  }

  lemma ClosedIsSound(r: Row, c: Close, now: int, consumed: bool)
    ensures Sound(r, CloseRow(r, c, now, consumed))
  {
  }

  /** The single-purpose updates only touch rows that are still owed something. */
  lemma MarkedIsSound(r: Row)
    ensures Active(r) || IsRetained(r) ==> Sound(r, AckedRow(r)) && Sound(r, RetainedRow(r))
    ensures Active(r) ==> forall why :: Sound(r, InvalidatedRow(r, why))
  {
  }

  lemma WriteIssuesNoOldId(t: Table, w: Write, id: int)
    requires id in Apply(t, w).rows && id !in t.rows
    ensures w.AppendEvent? && id == t.nextId && Apply(t, w).rows[id] == NewRow(w.event) && !Known(t, w.event)
  {
  }

  lemma ApplyKeepsInv(t: Table, w: Write)
    requires Inv(t)
    ensures Inv(Apply(t, w)) && Apply(t, w).nextId >= t.nextId
  {
    var t' := Apply(t, w);
    forall id | id in t'.rows ensures 0 < id < t'.nextId && RowOk(t'.rows[id]) {
      if id in t.rows { WriteIsSound(t, w, id); } else { WriteIssuesNoOldId(t, w, id); }
    }
    forall i, j | i in t'.rows && j in t'.rows && i != j && t'.rows[i].session == t'.rows[j].session && t'.rows[i].key.Some?
      ensures t'.rows[i].key != t'.rows[j].key
    {
      if i in t.rows { WriteIsSound(t, w, i); } else { WriteIssuesNoOldId(t, w, i); }
      if j in t.rows { WriteIsSound(t, w, j); } else { WriteIssuesNoOldId(t, w, j); }
      if i !in t.rows { assert !SameKey(t.rows[j], w.event); }
      if j !in t.rows { assert !SameKey(t.rows[i], w.event); }
    }
  }

  ghost predicate IsRun(tables: seq<Table>, writes: seq<Write>) {
    && |tables| == |writes| + 1 && Inv(tables[0])
    && forall k | 0 <= k < |writes| :: tables[k + 1] == Apply(tables[k], writes[k])
  }

  function ApplyAll(t: Table, writes: seq<Write>): Table {
    if writes == [] then t else Apply(ApplyAll(t, writes[..|writes| - 1]), writes[|writes| - 1])
  }

  lemma ApplyOneMore(t: Table, writes: seq<Write>, w: Write)
    ensures ApplyAll(t, writes + [w]) == Apply(ApplyAll(t, writes), w)
  {
    assert (writes + [w])[..|writes|] == writes;
  }

  /** Every table a run reaches is sound. */
  lemma {:induction false} ReachableTablesAreSound(tables: seq<Table>, writes: seq<Write>, j: nat)
    requires IsRun(tables, writes) && j < |tables|
    ensures Inv(tables[j])
  {
    if j > 0 {
      ReachableTablesAreSound(tables, writes, j - 1);
      ApplyKeepsInv(tables[j - 1], writes[j - 1]);
    }
  }

  /** Acked and failed rows never change again, whatever is written: they can only be
      purged, and their id is never issued again. */
  lemma {:induction false} DoneRowsNeverChange(tables: seq<Table>, writes: seq<Write>, i: nat, j: nat, id: int)
    requires IsRun(tables, writes) && i <= j < |tables|
    requires id in tables[i].rows && (tables[i].rows[id].status.Acked? || tables[i].rows[id].status.Exhausted?)
    ensures tables[j].nextId > id
    ensures id in tables[j].rows ==> tables[j].rows[id] == tables[i].rows[id]
    decreases j - i
  {
    ReachableTablesAreSound(tables, writes, j);
    if i < j {
      DoneRowsNeverChange(tables, writes, i, j - 1, id);
      ReachableTablesAreSound(tables, writes, j - 1);
      ApplyKeepsInv(tables[j - 1], writes[j - 1]);
      if id in tables[j].rows {
        if id in tables[j - 1].rows {
          WriteIsSound(tables[j - 1], writes[j - 1], id);
        } else {
          WriteIssuesNoOldId(tables[j - 1], writes[j - 1], id);
        }
      }
    } else {
      ReachableTablesAreSound(tables, writes, i);
    }
  }
}
