/** Replacing the agent index of one session: rows are matched to the scan's snapshots and
    rewritten one statement at a time under two unique indexes. */
module AgentIndex {
  import opened Common

  datatype AgentRow = AgentRow(session: string, pane: string, terminal: Option<string>, workspace: string, agent: Option<string>,
                               hint: Option<string>, generation: Option<string>, firstSeen: int, lastSeen: int)

  type Rows = map<string, AgentRow>

  datatype Snapshot = Snapshot(pane: string, terminal: Option<string>, workspace: string, agent: Option<string>, generation: Option<string>)

  /** What one replacement is asked: the scan's snapshots, the ids its inserts would draw
      and the clock. */
  datatype Scan = Scan(session: string, snaps: seq<Snapshot>, newIds: seq<string>, now: int)

  const TEMPORARY := "__herdsman_moving__:"

  // ---------------------------------------------------------------------
  // The unique indexes
  // ---------------------------------------------------------------------

  predicate Clash(a: AgentRow, b: AgentRow) {
    a.session == b.session && (a.pane == b.pane || (a.terminal.Some? && a.terminal == b.terminal))
  }

  predicate Unique(rows: Rows) {
    forall i, j | i in rows && j in rows && i != j :: !Clash(rows[i], rows[j])
  }

  // ---------------------------------------------------------------------
  // Matching
  // ---------------------------------------------------------------------

  ghost function RowAtPane(rows: Rows, session: string, pane: string): Option<string> {
    if exists id :: id in rows && rows[id].session == session && rows[id].pane == pane then
      var id :| id in rows && rows[id].session == session && rows[id].pane == pane;
      Some(id)
    else None
  }

  ghost function RowAtTerminal(rows: Rows, session: string, terminal: Option<string>): Option<string> {
    if terminal.Some? && exists id :: id in rows && rows[id].session == session && rows[id].terminal == terminal then
      var id :| id in rows && rows[id].session == session && rows[id].terminal == terminal;
      Some(id)
    else None
  }

  predicate GenerationsAgree(snap: Snapshot, row: AgentRow) {
    snap.generation.None? || row.generation.None? || snap.generation == row.generation
  }

  predicate PaneFallback(snap: Snapshot, row: AgentRow) {
    (snap.terminal.None? || row.terminal.None?) && GenerationsAgree(snap, row)
  }

  /** The row a snapshot continues: the one with its terminal, else the one in its pane
      when one of the two has no terminal and the generations do not contradict. */
  ghost function Current(rows: Rows, session: string, snap: Snapshot): Option<string> {
    if RowAtTerminal(rows, session, snap.terminal).Some? then RowAtTerminal(rows, session, snap.terminal)
    else
      var occupant := RowAtPane(rows, session, snap.pane);
      if occupant.Some? && PaneFallback(snap, rows[occupant.value]) then occupant else None
  }

  ghost predicate WellFormed(rows: Rows, scan: Scan) {
    && |scan.newIds| == |scan.snaps|
    && (forall k | 0 <= k < |scan.newIds| :: scan.newIds[k] !in rows)
    && (forall i, j | 0 <= i < j < |scan.newIds| :: scan.newIds[i] != scan.newIds[j])
  }

  ghost function Target(rows: Rows, scan: Scan, k: nat): string
    requires k < |scan.snaps| == |scan.newIds|
  {
    var current := Current(rows, scan.session, scan.snaps[k]);
    if current.Some? then current.value else scan.newIds[k]
  }

  // ---------------------------------------------------------------------
  // The statements
  // ---------------------------------------------------------------------

  predicate PiFamily(agent: Option<string>) {
    agent == Some("pi") || agent == Some("pig")
  }

  /** The row a snapshot writes over its current one, or as a new one. */
  function Written(session: string, current: Option<AgentRow>, snap: Snapshot, now: int): AgentRow {
    AgentRow(session, snap.pane, snap.terminal, snap.workspace, snap.agent,
             if current.Some? && (current.value.agent == snap.agent || (PiFamily(current.value.agent) && PiFamily(snap.agent)))
             then current.value.hint else None,
             if snap.generation.None? && current.Some? then current.value.generation else snap.generation,
             if current.Some? then current.value.firstSeen else now,
             now)
  }

  ghost function WrittenBy(rows: Rows, scan: Scan, k: nat): AgentRow
    requires k < |scan.snaps|
  {
    var current := Current(rows, scan.session, scan.snaps[k]);
    Written(scan.session, if current.Some? && current.value in rows then Some(rows[current.value]) else None, scan.snaps[k], scan.now)
  }

  /** The rows that are moved out of the way first: those that change pane and those that
      sit in a pane another row moves into. */
  ghost function InTheWay(rows: Rows, scan: Scan): set<string> {
    set id | id in rows && exists k :: 0 <= k < |scan.snaps| && IsInTheWay(rows, scan, k, id)
  }

  ghost predicate IsInTheWay(rows: Rows, scan: Scan, k: nat, id: string)
    requires k < |scan.snaps| && id in rows
  {
    var current := Current(rows, scan.session, scan.snaps[k]);
    || (current == Some(id) && rows[id].pane != scan.snaps[k].pane)
    || (RowAtPane(rows, scan.session, scan.snaps[k].pane) == Some(id) && current != Some(id))
  }

  function Members(ids: seq<string>): set<string> {
    set id | id in ids
  }

  function Moved(rows: Rows, ids: set<string>): Rows {
    map id | id in rows :: if id in ids then rows[id].(pane := TEMPORARY + id) else rows[id]
  }

  /** The table after the temporary moves and the first n writes. */
  ghost function Placed(rows: Rows, scan: Scan, n: nat): Rows
    requires n <= |scan.snaps| == |scan.newIds|
  {
    if n == 0 then Moved(rows, InTheWay(rows, scan))
    else Placed(rows, scan, n - 1)[Target(rows, scan, n - 1) := WrittenBy(rows, scan, n - 1)]
  }

  ghost function Targets(rows: Rows, scan: Scan): set<string>
    requires |scan.snaps| == |scan.newIds|
  {
    set k | 0 <= k < |scan.snaps| :: Target(rows, scan, k)
  }

  function Kept(rows: Rows, session: string, ids: set<string>): Rows {
    map id | id in rows && (rows[id].session != session || id in ids) :: rows[id]
  }

  ghost function Replaced(rows: Rows, scan: Scan): Rows
    requires |scan.snaps| == |scan.newIds|
  {
    Kept(Placed(rows, scan, |scan.snaps|), scan.session, Targets(rows, scan))
  }

  // ---------------------------------------------------------------------
  // Every intermediate state is unique
  // ---------------------------------------------------------------------

  /** What a scan promises: one snapshot per pane and per reported terminal. */
  ghost predicate Distinct(scan: Scan) {
    forall i, j | 0 <= i < j < |scan.snaps| ::
      && scan.snaps[i].pane != scan.snaps[j].pane
      && (scan.snaps[i].terminal.Some? ==> scan.snaps[i].terminal != scan.snaps[j].terminal)
  }

  /** No real pane carries a temporary name. */
  ghost predicate NoTemporaryPane(rows: Rows, scan: Scan) {
    && (forall id, other | id in rows && other in rows :: rows[other].pane != TEMPORARY + id)
    && (forall id, k | id in rows && 0 <= k < |scan.snaps| :: scan.snaps[k].pane != TEMPORARY + id)
  }

  lemma AtPane(rows: Rows, session: string, id: string)
    requires Unique(rows) && id in rows && rows[id].session == session
    ensures RowAtPane(rows, session, rows[id].pane) == Some(id)
    ensures rows[id].terminal.Some? ==> RowAtTerminal(rows, session, rows[id].terminal) == Some(id)
  {
    var occupant := RowAtPane(rows, session, rows[id].pane);
    assert occupant.Some?;
    assert occupant.value == id || Clash(rows[occupant.value], rows[id]);
    if rows[id].terminal.Some? {
      var holder := RowAtTerminal(rows, session, rows[id].terminal);
      assert holder.Some?;
      assert holder.value == id || Clash(rows[holder.value], rows[id]);
    }
  }

  lemma CurrentIsRow(rows: Rows, session: string, snap: Snapshot)
    requires Current(rows, session, snap).Some?
    ensures Current(rows, session, snap).value in rows && rows[Current(rows, session, snap).value].session == session
  {
  }

  lemma TargetIsRowOrNew(rows: Rows, scan: Scan, k: nat)
    requires WellFormed(rows, scan) && k < |scan.snaps|
    ensures Target(rows, scan, k) in rows ==> rows[Target(rows, scan, k)].session == scan.session
    ensures Target(rows, scan, k) in rows ==> Current(rows, scan.session, scan.snaps[k]) == Some(Target(rows, scan, k))
    ensures Target(rows, scan, k) !in rows ==> Target(rows, scan, k) == scan.newIds[k]
  {
    if Current(rows, scan.session, scan.snaps[k]).Some? {
      CurrentIsRow(rows, scan.session, scan.snaps[k]);
    }
  }

  lemma AnyMoveIsUnique(rows: Rows, scan: Scan, ids: set<string>)
    requires Unique(rows) && NoTemporaryPane(rows, scan) && ids <= rows.Keys
    ensures Unique(Moved(rows, ids))
  {
    var moved := Moved(rows, ids);
    forall i, j | i in moved && j in moved && i != j ensures !Clash(moved[i], moved[j]) {
      assert !Clash(rows[i], rows[j]);
      if i in ids && j in ids {
        assert (TEMPORARY + i)[|TEMPORARY|..] == i && (TEMPORARY + j)[|TEMPORARY|..] == j;
      }
    }
  }

  /** Where a row of a placed table comes from: the last write to it, or the moves. */
  lemma {:induction false} LastWriter(rows: Rows, scan: Scan, n: nat, id: string) returns (k: int)
    requires WellFormed(rows, scan) && n <= |scan.snaps| && id in Placed(rows, scan, n)
    ensures -1 <= k < n
    ensures k >= 0 ==> Target(rows, scan, k) == id && Placed(rows, scan, n)[id] == WrittenBy(rows, scan, k)
    ensures k == -1 ==> id in rows && Placed(rows, scan, n)[id] == Moved(rows, InTheWay(rows, scan))[id]
    ensures forall j | k < j < n :: Target(rows, scan, j) != id
  {
    if n == 0 {
      k := -1;
    } else if Target(rows, scan, n - 1) == id {
      k := n - 1;
    } else {
      k := LastWriter(rows, scan, n - 1, id);
    }
  }

  /** The next write clashes with no row that is already in place. */
  lemma NextWriteIsFree(rows: Rows, scan: Scan, n: nat, id: string)
    requires WellFormed(rows, scan) && Unique(rows) && Distinct(scan) && NoTemporaryPane(rows, scan)
    requires n < |scan.snaps| && id in Placed(rows, scan, n) && id != Target(rows, scan, n)
    ensures !Clash(WrittenBy(rows, scan, n), Placed(rows, scan, n)[id])
  {
    var k := LastWriter(rows, scan, n, id);
    var snap := scan.snaps[n];
    if k == -1 && rows[id].session == scan.session {
      AtPane(rows, scan.session, id);
      TargetIsRowOrNew(rows, scan, n);
      if rows[id].pane == snap.pane {
        assert IsInTheWay(rows, scan, n, id);
      }
    }
  }

  /** Under the scan's promise every prefix of the statements leaves both indexes unique,
      whichever way the snapshots are matched. */
  lemma {:induction false} PlacedIsUnique(rows: Rows, scan: Scan, n: nat)
    requires WellFormed(rows, scan) && Unique(rows) && Distinct(scan) && NoTemporaryPane(rows, scan)
    requires n <= |scan.snaps|
    ensures Unique(Placed(rows, scan, n))
  {
    if n == 0 {
      AnyMoveIsUnique(rows, scan, InTheWay(rows, scan));
    } else {
      PlacedIsUnique(rows, scan, n - 1);
      var before, now := Placed(rows, scan, n - 1), Placed(rows, scan, n);
      forall i, j | i in now && j in now && i != j ensures !Clash(now[i], now[j]) {
        if i == Target(rows, scan, n - 1) {
          NextWriteIsFree(rows, scan, n - 1, j);
        } else if j == Target(rows, scan, n - 1) {
          NextWriteIsFree(rows, scan, n - 1, i);
        } else {
          assert !Clash(before[i], before[j]);
        }
      }
    }
  }

  // ---------------------------------------------------------------------
  // The end state
  // ---------------------------------------------------------------------

  ghost predicate Injective(rows: Rows, scan: Scan)
    requires |scan.snaps| == |scan.newIds|
  {
    forall i, j | 0 <= i < j < |scan.snaps| :: Target(rows, scan, i) != Target(rows, scan, j)
  }

  /** Snapshot i continues, by its terminal, the row in whose pane the terminal-less
      snapshot j sits. */
  ghost predicate Absorbs(rows: Rows, scan: Scan, i: nat, j: nat)
    requires i < |scan.snaps| && j < |scan.snaps|
  {
    && scan.snaps[i].terminal.Some? && scan.snaps[j].terminal.None?
    && exists id :: id in rows && rows[id].session == scan.session && rows[id].terminal == scan.snaps[i].terminal
                 && rows[id].pane == scan.snaps[j].pane && GenerationsAgree(scan.snaps[j], rows[id])
  }

  /** The matching collapses two snapshots exactly when one absorbs another. */
  lemma MatchingIsInjectiveExactly(rows: Rows, scan: Scan)
    requires WellFormed(rows, scan) && Unique(rows) && Distinct(scan)
    ensures Injective(rows, scan) <==> forall i, j | 0 <= i < |scan.snaps| && 0 <= j < |scan.snaps| :: !Absorbs(rows, scan, i, j)
  {
    forall i, j | 0 <= i < |scan.snaps| && 0 <= j < |scan.snaps| && Absorbs(rows, scan, i, j)
      ensures i != j && Target(rows, scan, i) == Target(rows, scan, j)
    {
      AbsorbedShares(rows, scan, i, j);
    }
    forall i, j | 0 <= i < j < |scan.snaps| && Target(rows, scan, i) == Target(rows, scan, j)
      ensures Absorbs(rows, scan, i, j) || Absorbs(rows, scan, j, i)
    {
      SharedAbsorbs(rows, scan, i, j);
    }
  }

  lemma AbsorbedShares(rows: Rows, scan: Scan, i: nat, j: nat)
    requires WellFormed(rows, scan) && Unique(rows) && i < |scan.snaps| && j < |scan.snaps| && Absorbs(rows, scan, i, j)
    ensures i != j && Target(rows, scan, i) == Target(rows, scan, j)
  {
    var id :| id in rows && rows[id].session == scan.session && rows[id].terminal == scan.snaps[i].terminal
           && rows[id].pane == scan.snaps[j].pane && GenerationsAgree(scan.snaps[j], rows[id]);
    AtPane(rows, scan.session, id);
  }

  lemma SharedAbsorbs(rows: Rows, scan: Scan, i: nat, j: nat)
    requires WellFormed(rows, scan) && Unique(rows) && Distinct(scan) && i < j < |scan.snaps|
    requires Target(rows, scan, i) == Target(rows, scan, j)
    ensures Absorbs(rows, scan, i, j) || Absorbs(rows, scan, j, i)
  {
    TargetIsRowOrNew(rows, scan, i);
    TargetIsRowOrNew(rows, scan, j);
    var id := Target(rows, scan, i);
    assert id in rows;
    AtPane(rows, scan.session, id);
    assert || (rows[id].terminal == scan.snaps[i].terminal && scan.snaps[i].terminal.Some?)
           || (rows[id].pane == scan.snaps[i].pane && PaneFallback(scan.snaps[i], rows[id]));
    assert || (rows[id].terminal == scan.snaps[j].terminal && scan.snaps[j].terminal.Some?)
           || (rows[id].pane == scan.snaps[j].pane && PaneFallback(scan.snaps[j], rows[id]));
  }

  /** The row tells of the snapshot: its place and agent, seen now, first seen when the row it
      continues was, of the snapshot's generation if it has one, and with the old hint only as
      long as the agent is the same or stays in the pi family. */
  ghost predicate Reports(row: AgentRow, session: string, snap: Snapshot, was: Option<AgentRow>, now: int) {
    && row.session == session && row.pane == snap.pane && row.terminal == snap.terminal && row.workspace == snap.workspace
    && row.agent == snap.agent && row.lastSeen == now
    && row.firstSeen == (if was.Some? then was.value.firstSeen else now)
    && row.generation == (if snap.generation.Some? then snap.generation else if was.Some? then was.value.generation else None)
    && row.hint == if was.Some? && (was.value.agent == snap.agent
                                    || (was.value.agent in {Some("pi"), Some("pig")} && snap.agent in {Some("pi"), Some("pig")}))
                   then was.value.hint else None
  }

  ghost function Continued(rows: Rows, scan: Scan, k: nat): Option<AgentRow>
    requires k < |scan.snaps|
  {
    var current := Current(rows, scan.session, scan.snaps[k]);
    if current.Some? && current.value in rows then Some(rows[current.value]) else None
  }

  lemma WrittenReports(rows: Rows, scan: Scan, k: nat)
    requires k < |scan.snaps|
    ensures forall row :: Reports(row, scan.session, scan.snaps[k], Continued(rows, scan, k), scan.now) <==> row == WrittenBy(rows, scan, k)
  {
  }

  /** One row per snapshot exactly when the matching is injective: then each snapshot's row
      is there and tells of it, and the session has no other row. */
  lemma OneRowPerSnapshotExactly(rows: Rows, scan: Scan)
    requires WellFormed(rows, scan) && Unique(rows) && Distinct(scan)
    ensures Injective(rows, scan) <==>
            forall k | 0 <= k < |scan.snaps| ::
              && Target(rows, scan, k) in Replaced(rows, scan)
              && Reports(Replaced(rows, scan)[Target(rows, scan, k)], scan.session, scan.snaps[k], Continued(rows, scan, k), scan.now)
    ensures forall id | id in Replaced(rows, scan) && Replaced(rows, scan)[id].session == scan.session :: id in Targets(rows, scan)
  {
    var n := |scan.snaps|;
    forall k | 0 <= k < n
      ensures Target(rows, scan, k) in Replaced(rows, scan)
      ensures Injective(rows, scan) ==>
                Reports(Replaced(rows, scan)[Target(rows, scan, k)], scan.session, scan.snaps[k], Continued(rows, scan, k), scan.now)
    {
      WrittenLast(rows, scan, k);
      WrittenReports(rows, scan, k);
    }
    if !Injective(rows, scan) {
      var i, j :| 0 <= i < j < n && Target(rows, scan, i) == Target(rows, scan, j);
      assert scan.snaps[i].pane != scan.snaps[j].pane;
    }
  }

  lemma WrittenLast(rows: Rows, scan: Scan, k: nat)
    requires WellFormed(rows, scan) && k < |scan.snaps|
    ensures Target(rows, scan, k) in Replaced(rows, scan)
    ensures Injective(rows, scan) ==> Replaced(rows, scan)[Target(rows, scan, k)] == WrittenBy(rows, scan, k)
  {
    var id := Target(rows, scan, k);
    WrittenStays(rows, scan, |scan.snaps|, k);
    var last := LastWriter(rows, scan, |scan.snaps|, id);
    assert id in Targets(rows, scan);
  }

  /** It does collapse: the terminal moved from pane q to pane p while the scan reports an
      agent without a terminal in q. */
  lemma TwoSnapshotsCanCollapse()
    ensures exists rows, scan ::
              && WellFormed(rows, scan) && Unique(rows) && Distinct(scan) && NoTemporaryPane(rows, scan)
              && !Injective(rows, scan)
  {
    var row := AgentRow("s", "q", Some("t"), "w", None, None, None, 0, 0);
    var rows: Rows := map["a" := row];
    var scan := Scan("s", [Snapshot("p", Some("t"), "w", None, None), Snapshot("q", None, "w", None, None)], ["b", "c"], 1);
    assert "a" in rows && rows["a"].terminal == scan.snaps[0].terminal && rows["a"].pane == scan.snaps[1].pane;
    assert Absorbs(rows, scan, 0, 1);
    assert |TEMPORARY + "a"| > |"p"| == |"q"|;
    MatchingIsInjectiveExactly(rows, scan);
  }

  lemma {:induction false} WrittenStays(rows: Rows, scan: Scan, n: nat, k: nat)
    requires WellFormed(rows, scan) && k < n <= |scan.snaps|
    ensures Target(rows, scan, k) in Placed(rows, scan, n)
  {
    if k < n - 1 {
      WrittenStays(rows, scan, n - 1, k);
    }
  }

  /** A terminal that is still reported keeps its agent id, across pane and workspace
      moves, and its row tells of the snapshot. */
  lemma TerminalKeepsItsId(rows: Rows, scan: Scan, id: string, k: nat)
    requires WellFormed(rows, scan) && Unique(rows) && Distinct(scan) && Injective(rows, scan)
    requires id in rows && rows[id].session == scan.session && rows[id].terminal.Some?
    requires k < |scan.snaps| && scan.snaps[k].terminal == rows[id].terminal
    ensures id in Replaced(rows, scan) && Reports(Replaced(rows, scan)[id], scan.session, scan.snaps[k], Some(rows[id]), scan.now)
  {
    AtPane(rows, scan.session, id);
    assert Target(rows, scan, k) == id && Continued(rows, scan, k) == Some(rows[id]);
    WrittenLast(rows, scan, k);
    WrittenReports(rows, scan, k);
  }

  ghost predicate TerminalUnknown(rows: Rows, scan: Scan, k: nat)
    requires k < |scan.snaps|
  {
    scan.snaps[k].terminal.None? || forall id | id in rows && rows[id].session == scan.session :: rows[id].terminal != scan.snaps[k].terminal
  }

  /** A pane keeps its agent id when no row has the reported terminal, one of the two has
      none, and the generations, where both are known, are the same. */
  lemma PaneKeepsItsId(rows: Rows, scan: Scan, id: string, k: nat)
    requires WellFormed(rows, scan) && Unique(rows) && Distinct(scan) && Injective(rows, scan)
    requires id in rows && rows[id].session == scan.session && k < |scan.snaps| && scan.snaps[k].pane == rows[id].pane
    requires TerminalUnknown(rows, scan, k) && (scan.snaps[k].terminal.None? || rows[id].terminal.None?)
    requires scan.snaps[k].generation.None? || rows[id].generation.None? || scan.snaps[k].generation == rows[id].generation
    ensures id in Replaced(rows, scan) && Reports(Replaced(rows, scan)[id], scan.session, scan.snaps[k], Some(rows[id]), scan.now)
  {
    AtPane(rows, scan.session, id);
    assert Target(rows, scan, k) == id && Continued(rows, scan, k) == Some(rows[id]);
    WrittenLast(rows, scan, k);
    WrittenReports(rows, scan, k);
  }

  /** Any other snapshot is a new agent, under the id drawn for it. */
  lemma OthersAreNew(rows: Rows, scan: Scan, k: nat)
    requires WellFormed(rows, scan) && Unique(rows) && Distinct(scan) && Injective(rows, scan)
    requires k < |scan.snaps| && TerminalUnknown(rows, scan, k)
    requires forall id | id in rows && rows[id].session == scan.session && rows[id].pane == scan.snaps[k].pane ::
               || (scan.snaps[k].terminal.Some? && rows[id].terminal.Some?)
               || (scan.snaps[k].generation.Some? && rows[id].generation.Some? && scan.snaps[k].generation != rows[id].generation)
    ensures scan.newIds[k] in Replaced(rows, scan)
    ensures Reports(Replaced(rows, scan)[scan.newIds[k]], scan.session, scan.snaps[k], None, scan.now)
  {
    assert Target(rows, scan, k) == scan.newIds[k] && Continued(rows, scan, k) == None;
    WrittenLast(rows, scan, k);
    WrittenReports(rows, scan, k);
  }

  /** Rows of other sessions are exactly as before. */
  lemma OtherSessionsUntouched(rows: Rows, scan: Scan, id: string)
    requires WellFormed(rows, scan) && Unique(rows)
    ensures id in rows && rows[id].session != scan.session ==> id in Replaced(rows, scan) && Replaced(rows, scan)[id] == rows[id]
    ensures id in Replaced(rows, scan) && Replaced(rows, scan)[id].session != scan.session ==> id in rows && rows[id] == Replaced(rows, scan)[id]
  {
    var n := |scan.snaps|;
    if id in rows {
      RowsStay(rows, scan, n, id);
    }
    if id in Placed(rows, scan, n) {
      var k := LastWriter(rows, scan, n, id);
      if k >= 0 {
        TargetIsRowOrNew(rows, scan, k);
      } else if id in InTheWay(rows, scan) {
        var m :| 0 <= m < n && IsInTheWay(rows, scan, m, id);
        if Current(rows, scan.session, scan.snaps[m]) == Some(id) {
          CurrentIsRow(rows, scan.session, scan.snaps[m]);
        }
      }
    }
  }

  lemma {:induction false} RowsStay(rows: Rows, scan: Scan, n: nat, id: string)
    requires WellFormed(rows, scan) && n <= |scan.snaps| && id in rows
    ensures id in Placed(rows, scan, n)
  {
    if n > 0 {
      RowsStay(rows, scan, n - 1, id);
    }
  }

  // ---------------------------------------------------------------------
  // The store
  // ---------------------------------------------------------------------

  lemma NextPlaced(rows: Rows, scan: Scan, k: nat, current: Option<string>)
    requires k < |scan.snaps| == |scan.newIds| && current == Current(rows, scan.session, scan.snaps[k])
    ensures var id := if current.Some? then current.value else scan.newIds[k];
            var row := if current.Some? && current.value in rows then Some(rows[current.value]) else None;
            Placed(rows, scan, k + 1) == Placed(rows, scan, k)[id := Written(scan.session, row, scan.snaps[k], scan.now)]
  {
  }

  class AgentStore {
    var rows: Rows

    constructor ()
      ensures rows == map[]
    {
      rows := map[];
    }

    /** One statement: refused when its result would break a unique index. */
    method Execute(next: Rows) returns (ok: bool)
      modifies this
      ensures ok <==> Unique(next)
      ensures rows == if ok then next else old(rows)
    {
      ok := forall i | i in next :: forall j | j in next && i != j :: !Clash(next[i], next[j]);
      if ok {
        rows := next;
      }
    }

    /** The two lookup tables over the session's rows. */
    method Indexes(session: string) returns (byPane: map<string, string>, byTerminal: map<string, string>)
      requires Unique(rows)
      ensures forall pane :: (if pane in byPane then Some(byPane[pane]) else None) == RowAtPane(rows, session, pane)
      ensures forall t :: (if t in byTerminal then Some(byTerminal[t]) else None) == RowAtTerminal(rows, session, Some(t))
    {
      byPane, byTerminal := map[], map[];
      var todo := rows.Keys;
      while todo != {}
        invariant todo <= rows.Keys
        invariant forall p | p in byPane :: byPane[p] in rows && rows[byPane[p]].session == session && rows[byPane[p]].pane == p
        invariant forall t | t in byTerminal :: byTerminal[t] in rows && rows[byTerminal[t]].session == session && rows[byTerminal[t]].terminal == Some(t)
        invariant forall id | id in rows && id !in todo && rows[id].session == session :: rows[id].pane in byPane
        invariant forall id | id in rows && id !in todo && rows[id].session == session && rows[id].terminal.Some? :: rows[id].terminal.value in byTerminal
        decreases |todo|
      {
        var id :| id in todo;
        if rows[id].session == session {
          byPane := byPane[rows[id].pane := id];
          if rows[id].terminal.Some? {
            byTerminal := byTerminal[rows[id].terminal.value := id];
          }
        }
        todo := todo - {id};
      }
      forall pane ensures (if pane in byPane then Some(byPane[pane]) else None) == RowAtPane(rows, session, pane) {
        if pane in byPane { AtPane(rows, session, byPane[pane]); }
      }
      forall t ensures (if t in byTerminal then Some(byTerminal[t]) else None) == RowAtTerminal(rows, session, Some(t)) {
        if t in byTerminal { AtPane(rows, session, byTerminal[t]); }
      }
    }

    /** The matching pass. */
    method MatchSnapshots(scan: Scan, byPane: map<string, string>, byTerminal: map<string, string>) returns (matched: seq<Option<string>>)
      requires forall pane :: (if pane in byPane then Some(byPane[pane]) else None) == RowAtPane(rows, scan.session, pane)
      requires forall t :: (if t in byTerminal then Some(byTerminal[t]) else None) == RowAtTerminal(rows, scan.session, Some(t))
      ensures |matched| == |scan.snaps|
      ensures forall k | 0 <= k < |matched| :: matched[k] == Current(rows, scan.session, scan.snaps[k])
    {
      matched := [];
      for k := 0 to |scan.snaps|
        invariant |matched| == k
        invariant forall i | 0 <= i < k :: matched[i] == Current(rows, scan.session, scan.snaps[i])
      {
        var snap := scan.snaps[k];
        var current: Option<string> := None;
        if snap.terminal.Some? && snap.terminal.value in byTerminal {
          current := Some(byTerminal[snap.terminal.value]);
        } else if snap.pane in byPane && byPane[snap.pane] in rows && PaneFallback(snap, rows[byPane[snap.pane]]) {
          current := Some(byPane[snap.pane]);
        }
        assert RowAtPane(rows, scan.session, snap.pane) == if snap.pane in byPane then Some(byPane[snap.pane]) else None;
        matched := matched + [current];
      }
    }

    /** replaceForSession: under the scan's promise no statement is refused; a refused
        statement rolls the whole replacement back. */
    method ReplaceForSession(scan: Scan) returns (ok: bool)
      requires Unique(rows) && WellFormed(rows, scan)
      modifies this
      ensures rows == if ok then Replaced(old(rows), scan) else old(rows)
      ensures Unique(rows)
      ensures Distinct(scan) && NoTemporaryPane(old(rows), scan) ==> ok
    {
      var before := rows;
      var byPane, byTerminal := Indexes(scan.session);
      var matched := MatchSnapshots(scan, byPane, byTerminal);
      var moving := Moving(scan, matched, byPane);
      ok := MoveAside(moving, scan);
      if ok {
        assert Members(moving) == InTheWay(before, scan);
        ok := WriteSnapshots(scan, matched, before);
      }
      if !ok {
        rows := before;
        return;
      }
      DropOthers(scan, matched, before);
    }

    method DropOthers(scan: Scan, matched: seq<Option<string>>, ghost before: Rows)
      requires |matched| == |scan.snaps| == |scan.newIds| && Unique(rows)
      requires forall k | 0 <= k < |matched| :: matched[k] == Current(before, scan.session, scan.snaps[k])
      modifies this
      ensures rows == Kept(old(rows), scan.session, Targets(before, scan)) && Unique(rows)
    {
      var kept := {};
      for k := 0 to |scan.snaps|
        invariant forall i | 0 <= i < k :: Target(before, scan, i) in kept
        invariant forall id | id in kept :: exists i :: 0 <= i < k && Target(before, scan, i) == id
      {
        var id := if matched[k].Some? then matched[k].value else scan.newIds[k];
        assert Target(before, scan, k) == id;
        kept := kept + {id};
      }
      assert kept == Targets(before, scan);
      rows := Kept(rows, scan.session, kept);
    }

    /** The temporary list: each row that must leave its pane, once. */
    method Moving(scan: Scan, matched: seq<Option<string>>, byPane: map<string, string>) returns (moving: seq<string>)
      requires |matched| == |scan.snaps| && forall k | 0 <= k < |matched| :: matched[k] == Current(rows, scan.session, scan.snaps[k])
      requires forall pane :: (if pane in byPane then Some(byPane[pane]) else None) == RowAtPane(rows, scan.session, pane)
      ensures forall id :: id in moving <==> id in InTheWay(rows, scan)
    {
      moving := [];
      for k := 0 to |matched|
        invariant forall id :: id in moving <==> id in rows && exists i :: 0 <= i < k && IsInTheWay(rows, scan, i, id)
      {
        ghost var earlier := moving;
        var snap := scan.snaps[k];
        var occupant := if snap.pane in byPane then Some(byPane[snap.pane]) else None;
        assert occupant == RowAtPane(rows, scan.session, snap.pane);
        if matched[k].Some? && matched[k].value in rows && rows[matched[k].value].pane != snap.pane && matched[k].value !in moving {
          moving := moving + [matched[k].value];
        }
        if occupant.Some? && occupant != matched[k] && occupant.value !in moving {
          moving := moving + [occupant.value];
        }
        if matched[k].Some? { CurrentIsRow(rows, scan.session, snap); }
        forall id ensures id in moving <==> id in rows && exists i :: 0 <= i < k + 1 && IsInTheWay(rows, scan, i, id) {
          assert id in rows ==> (id in moving <==> id in earlier || IsInTheWay(rows, scan, k, id));
        }
      }
    }

    method MoveAside(moving: seq<string>, scan: Scan) returns (ok: bool)
      requires Unique(rows) && forall id | id in moving :: id in rows
      modifies this
      ensures Unique(rows)
      ensures ok ==> rows == Moved(old(rows), Members(moving))
      ensures NoTemporaryPane(old(rows), scan) ==> ok
    {
      ghost var before := rows;
      ok := true;
      for k := 0 to |moving|
        invariant ok && Unique(rows) && rows == Moved(before, Members(moving[..k]))
      {
        var id := moving[k];
        assert id in moving;
        ghost var done := Members(moving[..k + 1]);
        assert done == Members(moving[..k]) + {id};
        SameEntries(rows[id := rows[id].(pane := TEMPORARY + id)], Moved(before, done));
        if NoTemporaryPane(before, scan) {
          AnyMoveIsUnique(before, scan, done);
        }
        ok := Execute(rows[id := rows[id].(pane := TEMPORARY + id)]);
        if !ok {
          return;
        }
      }
      assert moving[..|moving|] == moving;
    }

    method WriteSnapshots(scan: Scan, matched: seq<Option<string>>, before: Rows) returns (ok: bool)
      requires WellFormed(before, scan) && Unique(before) && Unique(rows)
      requires |matched| == |scan.snaps| && forall k | 0 <= k < |matched| :: matched[k] == Current(before, scan.session, scan.snaps[k])
      requires rows == Placed(before, scan, 0)
      modifies this
      ensures Unique(rows)
      ensures ok ==> rows == Placed(before, scan, |scan.snaps|)
      ensures Distinct(scan) && NoTemporaryPane(before, scan) ==> ok
    {
      ok := true;
      for k := 0 to |scan.snaps|
        invariant ok && Unique(rows) && rows == Placed(before, scan, k)
      {
        var id := if matched[k].Some? then matched[k].value else scan.newIds[k];
        var current := if matched[k].Some? && matched[k].value in before then Some(before[matched[k].value]) else None;
        if Distinct(scan) && NoTemporaryPane(before, scan) {
          PlacedIsUnique(before, scan, k + 1);
        }
        NextPlaced(before, scan, k, matched[k]);
        ok := Execute(rows[id := Written(scan.session, current, scan.snaps[k], scan.now)]);
        if !ok {
          return;
        }
      }
    }
  }
}
