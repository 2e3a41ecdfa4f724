/** The reconcile sweep: pages through the rows in flight and retains or deletes those
    whose pane is gone. */
module Reconciler {
  import opened Common
  import opened Projection
  import opened EventTable
  import opened EventStore

  const BATCH_LIMIT: nat := 100

  datatype LivePane = LivePane(pane: string, generation: Option<string>)

  /** The panes of each running session; a session that is not listed is left alone. */
  type LivePanes = map<string, seq<LivePane>>

  /** paneMatchesEvent: only two different known generations contradict each other. */
  predicate PaneMatches(p: LivePane, r: Row) {
    r.pane == Some(p.pane) && (r.generation.None? || p.generation.None? || p.generation == r.generation)
  }

  /** isRetainableTerminalFailure */
  predicate NeverDeliveredFailure(r: Row) {
    r.kind.Failed? && r.deliverable && r.attempts == 0
  }

  /** eventAgeMs is already an age; the sweep subtracts it from the clock once more. */
  predicate CountsAsFresh(r: Row, now: int) {
    var age := now - r.created;
    now - age <= REDELIVERY_FRESHNESS
  }

  /** What the sweep makes of one row in flight; None for a deleted row. */
  function SweptRow(r: Row, live: LivePanes, now: int): Option<Row> {
    if !Active(r) || r.session !in live then Some(r)
    else if exists k :: 0 <= k < |live[r.session]| && PaneMatches(live[r.session][k], r) then Some(r)
    else if exists k :: 0 <= k < |live[r.session]| && r.pane == Some(live[r.session][k].pane) then
      if NeverDeliveredFailure(r) then Some(RetainedRow(r)) else None
    else if NeverDeliveredFailure(r)
            || (r.deliverable && CountsAsFresh(r, now) && (r.kind.Done? || r.kind.Idle?) && r.fromWorking) then Some(RetainedRow(r))
    else None
  }

  function Swept(rows: Rows, live: LivePanes, now: int): Rows {
    map id | id in rows && SweptRow(rows[id], live, now).Some? :: SweptRow(rows[id], live, now).value
  }

  function CandidatesAfter(rows: Rows, cursor: int): set<int> {
    set id | id in rows && id > cursor && Active(rows[id])
  }

  /** The table once the sweep passed the cursor. */
  ghost predicate SweptUpTo(before: Rows, rows: Rows, live: LivePanes, now: int, cursor: int) {
    && (forall id | id in before && id > cursor :: id in rows && rows[id] == before[id])
    && (forall id | id in before && id <= cursor :: (id in rows <==> SweptRow(before[id], live, now).Some?)
                                                 && (id in rows ==> rows[id] == SweptRow(before[id], live, now).value))
    && (forall id | id in rows :: id in before)
  }

  class AgentEventReconciler {
    const events: AgentEventStore

    constructor (events: AgentEventStore)
      ensures this.events == events
    {
      this.events := events;
    }

    /** listReconcileCandidates */
    method ListReconcileCandidates(limit: nat, after: int) returns (ids: seq<int>)
      ensures Ascending(ids) && |ids| <= limit && (ids == [] ==> limit == 0 || CandidatesAfter(events.rows, after) == {})
      ensures forall i | 0 <= i < |ids| :: ids[i] in CandidatesAfter(events.rows, after)
      ensures forall i, x | 0 <= i < |ids| && x in CandidatesAfter(events.rows, after) && x < ids[i] :: x in ids[..i]
    {
      var picked := FirstN(CandidatesAfter(events.rows, after), limit);
      ids := SortedIds(picked);
      ListedLowest(CandidatesAfter(events.rows, after), picked, ids);
    }

    /** One candidate: its row is kept, or one write retains or deletes it. */
    method SweepOne(id: int, live: LivePanes, now: int) returns (ghost done: seq<Write>)
      requires id in events.rows && Active(events.rows[id])
      modifies events`rows
      ensures var r := SweptRow(old(events.rows)[id], live, now);
              events.rows == if r.Some? then old(events.rows)[id := r.value] else old(events.rows) - {id}
      ensures done == [] || done == [RetainInvalidated(id)] || done == [DropCandidate(id)]
      ensures events.Content() == if done == [] then old(events.Content()) else Apply(old(events.Content()), done[0])
    {
      var event := events.rows[id];
      done := [];
      if event.session !in live {
        assert events.rows == events.rows[id := event];
        return;
      }
      var panes := live[event.session];
      if exists k :: 0 <= k < |panes| && PaneMatches(panes[k], event) {
        assert events.rows == events.rows[id := event];
        return;
      }
      var retain := NeverDeliveredFailure(event);
      if !exists k :: 0 <= k < |panes| && event.pane == Some(panes[k].pane) {
        retain := retain || (event.deliverable && CountsAsFresh(event, now) && (event.kind.Done? || event.kind.Idle?) && event.fromWorking);
      }
      OneRowWritten(events.rows, id);
      if retain {
        done := [RetainInvalidated(id)];
        events.rows := events.rows[id := RetainedRow(event)];
      } else {
        done := [DropCandidate(id)];
        events.rows := events.rows - {id};
      }
    }

    /** One page of candidates, in order. */
    method SweepPage(page: seq<int>, live: LivePanes, now: int, ghost before: Rows, ghost start: int) returns (ghost writes: seq<Write>)
      requires page != [] && Ascending(page) && SweptUpTo(before, events.rows, live, now, start)
      requires forall k | 0 <= k < |page| :: page[k] in CandidatesAfter(before, start)
      requires forall k, x | 0 <= k < |page| && x in CandidatesAfter(before, start) && x < page[k] :: x in page[..k]
      modifies events`rows
      ensures SweptUpTo(before, events.rows, live, now, page[|page| - 1])
      ensures events.Content() == ApplyAll(old(events.Content()), writes) && OnlySweeps(writes)
    {
      ghost var content := events.Content();
      ghost var cursor := start;
      writes := [];
      for i := 0 to |page|
        invariant SweptUpTo(before, events.rows, live, now, cursor)
        invariant cursor == if i == 0 then start else page[i - 1]
        invariant events.Content() == ApplyAll(content, writes) && OnlySweeps(writes)
      {
        PassedOver(before, start, page, i);
        ghost var rows := events.rows;
        ghost var done := SweepOne(page[i], live, now);
        SweepMovesOn(before, rows, events.rows, live, now, cursor, page[i]);
        WroteMore(content, writes, done);
        writes := writes + done;
        cursor := page[i];
      }
    }

    /** The sweep: every row in flight is looked at exactly once, in pages, and the table
        becomes the row by row image of the one it started from; it gets there by single-row
        writes of the table, a retention or a deletion each. */
    method Sweep(live: LivePanes, now: int) returns (ghost writes: seq<Write>)
      requires Inv(events.Content())
      modifies events`rows
      ensures events.rows == Swept(old(events.rows), live, now)
      ensures events.Content() == ApplyAll(old(events.Content()), writes)
      ensures forall w | w in writes :: w.RetainInvalidated? || w.DropCandidate?
    {
      ghost var before := events.rows;
      ghost var content := events.Content();
      var cursor := 0;
      writes := [];
      while true
        invariant SweptUpTo(before, events.rows, live, now, cursor)
        invariant events.Content() == ApplyAll(content, writes) && OnlySweeps(writes)
        decreases |CandidatesAfter(before, cursor)|
      {
        var page := ListReconcileCandidates(BATCH_LIMIT, cursor);
        SameCandidates(before, events.rows, live, now, cursor);
        if page == [] {
          break;
        }
        ghost var done := SweepPage(page, live, now, before, cursor);
        WroteAll(content, writes, done);
        writes := writes + done;
        FewerCandidates(before, cursor, page, page[|page| - 1]);
        cursor := page[|page| - 1];
      }
      SweptToTheEnd(before, events.rows, live, now, cursor);
    }
  }

  lemma {:induction false} WroteAll(t: Table, writes: seq<Write>, done: seq<Write>)
    ensures ApplyAll(t, writes + done) == ApplyAll(ApplyAll(t, writes), done)
    decreases |done|
  {
    if done == [] {
      assert writes + done == writes;
    } else {
      var n := |done| - 1;
      WroteAll(t, writes, done[..n]);
      assert writes + done == (writes + done[..n]) + [done[n]];
      ApplyOneMore(t, writes + done[..n], done[n]);
    }
  }

  ghost predicate OnlySweeps(writes: seq<Write>) {
    forall w | w in writes :: w.RetainInvalidated? || w.DropCandidate?
  }

  lemma WroteMore(t: Table, writes: seq<Write>, done: seq<Write>)
    requires |done| <= 1
    ensures ApplyAll(t, writes + done) == if done == [] then ApplyAll(t, writes) else Apply(ApplyAll(t, writes), done[0])
  {
    if done == [] {
      assert writes + done == writes;
    } else {
      assert done == [done[0]];
      ApplyOneMore(t, writes, done[0]);
    }
  }

  lemma OneRowWritten(rows: Rows, id: int)
    requires id in rows && Active(rows[id])
    ensures RetainOne(rows, id) == rows[id := RetainedRow(rows[id])]
    ensures DeleteCandidate(rows, id) == rows - {id}
  {
    SameEntries(RetainOne(rows, id), rows[id := RetainedRow(rows[id])]);
    SameEntries(DeleteCandidate(rows, id), rows - {id});
  }

  lemma ListedLowest(all: set<int>, picked: set<int>, ids: seq<int>)
    requires picked <= all && Ascending(ids) && (forall x :: x in ids <==> x in picked)
    requires forall x, y | x in all - picked && y in picked :: y < x
    ensures forall i | 0 <= i < |ids| :: ids[i] in all
    ensures forall i, x | 0 <= i < |ids| && x in all && x < ids[i] :: x in ids[..i]
  {
    forall i | 0 <= i < |ids| ensures ids[i] in picked {
      var x := ids[i];
      assert x in ids;
    }
    forall i, x | 0 <= i < |ids| && x in all && x < ids[i] ensures x in ids[..i] {
      assert ids[i] in picked;
      assert x in all - picked || x in picked;
      assert x in ids;
      var j :| 0 <= j < |ids| && ids[j] == x;
      assert j < i;
    }
  }

  lemma SameCandidates(before: Rows, rows: Rows, live: LivePanes, now: int, cursor: int)
    requires SweptUpTo(before, rows, live, now, cursor)
    ensures CandidatesAfter(rows, cursor) == CandidatesAfter(before, cursor)
  {
    forall id ensures id in CandidatesAfter(rows, cursor) <==> id in CandidatesAfter(before, cursor) {
    }
  }

  /** What lies between the cursor and the next candidate is not in flight. */
  lemma PassedOver(before: Rows, start: int, page: seq<int>, i: nat)
    requires i < |page| && Ascending(page)
    requires forall k | 0 <= k < |page| :: page[k] in CandidatesAfter(before, start)
    requires forall k, x | 0 <= k < |page| && x in CandidatesAfter(before, start) && x < page[k] :: x in page[..k]
    ensures page[i] in before && Active(before[page[i]])
    ensures page[i] > if i == 0 then start else page[i - 1]
    ensures forall id | id in before && (if i == 0 then start else page[i - 1]) < id < page[i] :: !Active(before[id])
  {
    var cursor := if i == 0 then start else page[i - 1];
    assert i > 0 ==> page[i - 1] in CandidatesAfter(before, start);
    forall id | id in CandidatesAfter(before, start) && id < page[i] ensures id <= cursor {
      assert id in page[..i];
      var k :| 0 <= k < i && page[k] == id;
    }
    forall id | id in before && cursor < id < page[i] ensures !Active(before[id]) {
      assert id in CandidatesAfter(before, start) <==> Active(before[id]);
    }
  }

  lemma FewerCandidates(before: Rows, start: int, page: seq<int>, cursor: int)
    requires page != [] && Ascending(page) && cursor == page[|page| - 1]
    requires forall k | 0 <= k < |page| :: page[k] in CandidatesAfter(before, start)
    ensures |CandidatesAfter(before, cursor)| < |CandidatesAfter(before, start)|
  {
    var left, all := CandidatesAfter(before, cursor), CandidatesAfter(before, start);
    assert page[|page| - 1] in all;
    assert cursor in all - left && left <= all;
    assert all == left + (all - left);
  }

  lemma SweptToTheEnd(before: Rows, rows: Rows, live: LivePanes, now: int, cursor: int)
    requires SweptUpTo(before, rows, live, now, cursor) && CandidatesAfter(before, cursor) == {}
    ensures rows == Swept(before, live, now)
  {
    forall id | id in before && id > cursor ensures !Active(before[id]) {
      assert id !in CandidatesAfter(before, cursor);
    }
    var swept := Swept(before, live, now);
    forall id | id in rows ensures id in swept && rows[id] == swept[id] {
      assert id in before;
    }
    forall id | id in swept ensures id in rows {
      assert id in before && (id > cursor || id <= cursor);
    }
    SameEntries(rows, swept);
  }

  /** Processing the next candidate moves the swept part up to it. */
  lemma SweepMovesOn(before: Rows, rows: Rows, after: Rows, live: LivePanes, now: int, cursor: int, id: int)
    requires SweptUpTo(before, rows, live, now, cursor)
    requires id in before && cursor < id && forall x | x in before && cursor < x < id :: !Active(before[x])
    requires var r := SweptRow(before[id], live, now); after == if r.Some? then rows[id := r.value] else rows - {id}
    ensures SweptUpTo(before, after, live, now, id)
  {
    forall x | x in before && cursor < x < id ensures SweptRow(before[x], live, now) == Some(before[x]) {}
  }

  // ---------------------------------------------------------------------
  // What the sweep guarantees
  // ---------------------------------------------------------------------

  /** Some live pane of the row's session has its name. */
  ghost predicate PaneLives(r: Row, live: LivePanes) {
    r.session in live && exists p :: p in live[r.session] && r.pane == Some(p.pane)
  }

  /** Such a pane does not contradict the row's incarnation. */
  ghost predicate IncarnationLives(r: Row, live: LivePanes) {
    r.session in live && exists p :: p in live[r.session] && r.pane == Some(p.pane)
                                     && (r.generation.Some? && p.generation.Some? ==> r.generation == p.generation)
  }

  lemma LivesExactly(r: Row, live: LivePanes)
    requires r.session in live
    ensures PaneLives(r, live) <==> exists k :: 0 <= k < |live[r.session]| && r.pane == Some(live[r.session][k].pane)
    ensures IncarnationLives(r, live) <==> exists k :: 0 <= k < |live[r.session]| && PaneMatches(live[r.session][k], r)
  {
    var panes := live[r.session];
    if PaneLives(r, live) {
      var p :| p in panes && r.pane == Some(p.pane);
      var k :| 0 <= k < |panes| && panes[k] == p;
      assert r.pane == Some(panes[k].pane);
    }
    if IncarnationLives(r, live) {
      var p :| p in panes && r.pane == Some(p.pane) && (r.generation.Some? && p.generation.Some? ==> r.generation == p.generation);
      var k :| 0 <= k < |panes| && panes[k] == p;
      assert PaneMatches(panes[k], r);
    }
  }

  /** What the sweep makes of every row: a row that is not in flight, whose session does not
      run, or whose incarnation lives stays as it is. Of the others only two kinds survive,
      retained: a failure nobody was handed yet, and, if no pane of its name lives at all, a
      completion that dates from the first five minutes of 1970 (the age is subtracted from
      the clock once more). Everything else is deleted, so is a row of a stale incarnation. */
  lemma SweepExactly(rows: Rows, live: LivePanes, now: int, id: int)
    requires id in rows
    ensures var r := rows[id];
            var stays := !(r.status.Pending? || r.status.Delivered?) || r.session !in live || IncarnationLives(r, live);
            var survives := || (r.kind.Failed? && r.deliverable && r.attempts == 0)
                            || (!PaneLives(r, live) && r.deliverable && r.created <= 300_000 && (r.kind.Done? || r.kind.Idle?) && r.fromWorking);
            && (id in Swept(rows, live, now) <==> stays || survives)
            && (stays ==> Swept(rows, live, now)[id] == r)
            && (!stays && survives ==>
                  var after := Swept(rows, live, now)[id];
                  after.status.Invalidated? && after.deliverable && after.attempts == r.attempts && after.kind == r.kind)
  {
    if rows[id].session in live {
      LivesExactly(rows[id], live);
    }
  }

  /** Over the whole sweep no never-delivered failure is deleted: it stays in flight or
      is retained, deliverable. */
  lemma SweepKeepsUndeliveredFailures(t: Table, live: LivePanes, now: int, id: int)
    requires Inv(t) && id in t.rows && Active(t.rows[id]) && t.rows[id].kind.Failed? && t.rows[id].attempts == 0
    ensures id in Swept(t.rows, live, now)
    ensures var r := Swept(t.rows, live, now)[id]; r.deliverable && r.attempts == 0 && (Active(r) || IsRetained(r))
  {
    SweepExactly(t.rows, live, now, id);
  }

  lemma SweepKeepsInv(t: Table, live: LivePanes, now: int)
    requires Inv(t)
    ensures Inv(t.(rows := Swept(t.rows, live, now)))
    ensures forall id | id in t.rows && Settled(t.rows[id]) :: id in Swept(t.rows, live, now) && Swept(t.rows, live, now)[id] == t.rows[id]
  {
  }
}
