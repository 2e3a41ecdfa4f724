/** Finding the next event an owner may be handed: a paged scan over the SQL filter, with
    the shared delivery predicate on each row. */
module EventScan {
  import opened Common
  import opened Projection
  import opened EventTable

  /** An event row with the payload fields the delivery predicate reads. */
  datatype Record = Record(row: Row, terminal: Option<string>, inFlightToolUse: bool, interactive: bool,
                           payloadAgent: Option<string>, hasMessage: bool)

  datatype LiveAgent = LiveAgent(kind: Option<string>, interactivePi: bool, pane: string, generation: Option<string>, workspace: string)

  /** The owner's scope at one clock reading. lookup is the live agent index when the
      caller provides one, indexed the agents the SQL filter sees. */
  datatype Query = Query(session: string, workspace: string, owner: string, now: int,
                         lookup: Option<map<string, LiveAgent>>, indexed: set<Agent>)

  type Records = map<int, Record>

  const PAGE_SIZE: nat := 1000
  const MAX_PAGES: nat := 50

  // ---------------------------------------------------------------------
  // The delivery predicate
  // ---------------------------------------------------------------------

  predicate IsFailure(e: Record) {
    e.row.kind.Failed? || e.row.kind.Discarded?
  }

  predicate IsOutcome(e: Record) {
    e.row.kind.Done? || e.row.kind.Idle?
  }

  predicate IsOrphanOutcome(e: Record) {
    e.row.agent.None? && e.row.deliverable && IsOutcome(e)
  }

  predicate PiFamily(kind: string) {
    kind == "pi" || kind == "pig"
  }

  /** A turn of an agent outside the pi family needs an assistant message to show. */
  predicate HasWhatToShow(e: Record, kind: string) {
    PiFamily(kind) || !IsOutcome(e) || e.hasMessage
  }

  predicate InOwnersView(e: Record, q: Query) {
    && e.row.workspace == Some(q.workspace) && e.row.session == q.session
    && e.terminal.Some? && e.terminal.value != q.owner
    && !e.row.kind.StatusChanged?
    && (e.row.kind.Idle? ==> e.row.fromWorking && !e.inFlightToolUse)
  }

  /** isDeliverableAgentEvent */
  predicate IsDeliverable(e: Record, agent: Option<LiveAgent>, q: Query) {
    && (Active(e.row) || IsRetained(e.row))
    && InOwnersView(e, q)
    && (e.row.status.Delivered? || Due(e.row.nextAttempt, q.now))
    && (e.row.status.Delivered? ==> e.row.deliveredTo == Some(q.owner))
    && if IsFailure(e) || IsRetained(e.row) || IsOrphanOutcome(e) then
         !(e.interactive && e.row.kind.Idle?) && HasWhatToShow(e, if e.payloadAgent.Some? then e.payloadAgent.value else "pi")
       else
         && agent.Some?
         && !(agent.value.interactivePi && e.row.kind.Idle?)
         && HasWhatToShow(e, if agent.value.kind.Some? then agent.value.kind.value else "pi")
         && e.row.pane == Some(agent.value.pane)
         && (e.row.generation.None? || agent.value.generation == e.row.generation)
         && agent.value.workspace == q.workspace
  }

  // ---------------------------------------------------------------------
  // The scan's two conditions on a row
  // ---------------------------------------------------------------------

  predicate OutlivesAgent(e: Record) {
    IsRetained(e.row) || IsFailure(e) || IsOrphanOutcome(e)
  }

  predicate AgentIndexed(r: Row, q: Query) {
    r.agent.Some? && r.workspace.Some? && r.pane.Some? && Agent(r.agent.value, r.session, r.workspace.value, r.pane.value) in q.indexed
  }

  /** The where clause of the page query, but for the id bound. */
  predicate Admitted(e: Record, q: Query) {
    && Reservable(e.row, q.owner, q.now)
    && e.row.session == q.session && e.row.workspace == Some(q.workspace)
    && e.terminal.Some? && e.terminal.value != q.owner
    && (e.row.agent.Some? || OutlivesAgent(e))
    && (q.lookup.None? ==> OutlivesAgent(e) || AgentIndexed(e.row, q))
  }

  function LiveAgentOf(e: Record, q: Query): Option<LiveAgent> {
    if e.row.agent.Some? && q.lookup.Some? && e.row.agent.value in q.lookup.value then Some(q.lookup.value[e.row.agent.value]) else None
  }

  /** Whether the scan stops at an admitted row. */
  predicate Chosen(e: Record, q: Query) {
    && (e.row.agent.Some? || OutlivesAgent(e))
    && (!(q.lookup.Some? || e.row.agent.None?) || IsDeliverable(e, LiveAgentOf(e, q), q))
  }

  function AdmittedAfter(records: Records, q: Query, after: int): set<int> {
    set id | id in records && id > after && Admitted(records[id], q)
  }

  /** The rows the unpaged filter plus validation would accept. */
  function Wanted(records: Records, q: Query, after: int): set<int> {
    set id | id in AdmittedAfter(records, q, after) && Chosen(records[id], q)
  }

  function Below(ids: set<int>, bound: int): set<int> {
    set id | id in ids && id < bound
  }

  function Above(ids: set<int>, bound: int): set<int> {
    set id | id in ids && id > bound
  }

  // ---------------------------------------------------------------------
  // The paged scan
  // ---------------------------------------------------------------------

  /** nextDeliverableAfter: the lowest row that the filter and the validation accept,
      exactly if fewer than 50,000 filtered rows come before it. */
  method NextDeliverableAfter(records: Records, q: Query, after: int) returns (found: Option<int>)
    ensures found.Some? ==> found.value in Wanted(records, q, after)
    ensures found.Some? ==> forall id | id in Wanted(records, q, after) :: found.value <= id
    ensures found.Some? ==> |Below(AdmittedAfter(records, q, after), found.value)| < MAX_PAGES * PAGE_SIZE
    ensures found.None? ==> forall id | id in Wanted(records, q, after) :: |Below(AdmittedAfter(records, q, after), id)| >= MAX_PAGES * PAGE_SIZE
  {
    var cursor := after;
    ghost var all, wanted := AdmittedAfter(records, q, after), Wanted(records, q, after);
    ghost var passed: set<int> := {};
    for page := 0 to MAX_PAGES
      invariant after <= cursor && Passed(all, wanted, cursor, passed)
      invariant |passed| <= page * PAGE_SIZE && (|passed| == page * PAGE_SIZE || Above(all, cursor) == {})
    {
      var rest := AdmittedAfter(records, q, cursor);
      RestIsAbove(records, q, after, cursor);
      var ids, picked := QueryPage(rest, PAGE_SIZE);
      if |ids| == 0 {
        NothingLeft(all, wanted, cursor, passed, picked);
        return None;
      }
      found := ScanPage(records, q, ids, picked, wanted);
      if found.Some? {
        FoundIsLowest(all, wanted, cursor, passed, picked, found.value);
        return;
      }
      NextPage(all, wanted, cursor, passed, picked, ids[|ids| - 1]);
      passed := passed + picked;
      cursor := ids[|ids| - 1];
    }
    PassedLimit(all, wanted, cursor, passed);
    found := None;
  }

  /** picked are the n lowest of rest. */
  ghost predicate IsPage(rest: set<int>, picked: set<int>, n: nat) {
    && picked <= rest && |picked| <= n && (|picked| < n ==> picked == rest)
    && forall x, y | x in rest - picked && y in picked :: y < x
  }

  /** order by id asc limit n */
  method QueryPage(rest: set<int>, n: nat) returns (ids: seq<int>, ghost picked: set<int>)
    ensures IsPage(rest, picked, n) && Ascending(ids) && |ids| == |picked| && forall id :: id in ids <==> id in picked
  {
    picked := FirstN(rest, n);
    ids := SortedIds(FirstN(rest, n));
  }

  /** The rows of one page in id order. */
  method ScanPage(records: Records, q: Query, ids: seq<int>, ghost picked: set<int>, ghost wanted: set<int>) returns (found: Option<int>)
    requires Ascending(ids) && forall id :: id in ids <==> id in picked
    requires forall id | id in picked :: id in records && (id in wanted <==> Chosen(records[id], q))
    ensures found.Some? ==> found.value in picked * wanted && Below(picked * wanted, found.value) == {}
    ensures found.None? ==> picked !! wanted
    ensures forall id | id in picked && ids != [] :: id <= ids[|ids| - 1]
    ensures ids != [] ==> ids[|ids| - 1] in picked
  {
    Endpoints(ids, picked);
    for i := 0 to |ids|
      invariant forall k | 0 <= k < i :: ids[k] !in wanted
    {
      assert ids[i] in ids && ids[i] in picked;
      if Chosen(records[ids[i]], q) {
        EarlierUnwanted(ids, picked, wanted, i);
        return Some(ids[i]);
      }
    }
    forall id | id in picked ensures id !in wanted {
      assert id in ids;
    }
    found := None;
  }

  lemma Endpoints(ids: seq<int>, picked: set<int>)
    requires Ascending(ids) && forall id :: id in ids <==> id in picked
    ensures ids != [] ==> ids[|ids| - 1] in picked && forall id | id in picked :: id <= ids[|ids| - 1]
  {
    if ids != [] {
      assert ids[|ids| - 1] in ids;
      forall id | id in picked ensures id <= ids[|ids| - 1] {
        assert id in ids;
      }
    }
  }

  lemma EarlierUnwanted(ids: seq<int>, picked: set<int>, wanted: set<int>, i: nat)
    requires i < |ids| && Ascending(ids) && (forall id :: id in ids <==> id in picked)
    requires forall k | 0 <= k < i :: ids[k] !in wanted
    ensures Below(picked * wanted, ids[i]) == {}
  {
    forall id | id in picked && id < ids[i] ensures id !in wanted {
      assert id in ids;
      var k :| 0 <= k < |ids| && ids[k] == id;
    }
  }

  /** The admitted rows up to the cursor, none of them wanted. */
  ghost predicate Passed(all: set<int>, wanted: set<int>, cursor: int, passed: set<int>) {
    wanted <= all && all == passed + Above(all, cursor) && (forall id | id in passed :: id <= cursor) && passed !! wanted
  }

  lemma RestIsAbove(records: Records, q: Query, after: int, cursor: int)
    requires after <= cursor
    ensures AdmittedAfter(records, q, cursor) == Above(AdmittedAfter(records, q, after), cursor)
  {
  }

  lemma NothingLeft(all: set<int>, wanted: set<int>, cursor: int, passed: set<int>, picked: set<int>)
    requires Passed(all, wanted, cursor, passed)
    requires IsPage(Above(all, cursor), picked, PAGE_SIZE) && picked == {}
    ensures wanted == {}
  {
    assert Above(all, cursor) == {};
  }

  lemma FoundIsLowest(all: set<int>, wanted: set<int>, cursor: int, passed: set<int>, picked: set<int>, found: int)
    requires Passed(all, wanted, cursor, passed) && |passed| <= (MAX_PAGES - 1) * PAGE_SIZE
    requires IsPage(Above(all, cursor), picked, PAGE_SIZE)
    requires found in picked * wanted && Below(picked * wanted, found) == {}
    ensures forall id | id in wanted :: found <= id
    ensures |Below(all, found)| < MAX_PAGES * PAGE_SIZE
  {
    forall id | id in all ensures id in passed || id in picked || found < id {
      assert id in passed || id in picked || id in Above(all, cursor) - picked;
    }
    forall id | id in wanted ensures found <= id {
      if id in picked {
        assert id !in Below(picked * wanted, found);
      }
    }
    var before := Below(all, found);
    assert before <= passed + (picked - {found});
    SubsetIsSmaller(before, passed + (picked - {found}));
  }

  lemma NextPage(all: set<int>, wanted: set<int>, cursor: int, passed: set<int>, picked: set<int>, last: int)
    requires Passed(all, wanted, cursor, passed)
    requires IsPage(Above(all, cursor), picked, PAGE_SIZE) && last in picked && picked !! wanted
    requires forall id | id in picked :: id <= last
    ensures last > cursor && Passed(all, wanted, last, passed + picked) && |passed + picked| == |passed| + |picked|
    ensures |picked| == PAGE_SIZE || Above(all, last) == {}
  {
    var rest := Above(all, cursor);
    assert passed !! picked;
    forall id | id in all && id <= last && id !in passed ensures id in picked {
      assert id in rest && (id in picked || id in rest - picked);
    }
  }

  lemma PassedLimit(all: set<int>, wanted: set<int>, cursor: int, passed: set<int>)
    requires Passed(all, wanted, cursor, passed)
    ensures forall id | id in wanted :: id in Above(all, cursor) && |Below(all, id)| >= |passed|
  {
    forall id | id in wanted ensures id in Above(all, cursor) && |Below(all, id)| >= |passed| {
      assert id in Above(all, cursor);
      SubsetIsSmaller(passed, Below(all, id));
    }
  }

  // ---------------------------------------------------------------------
  // The filter loses nothing that may be delivered
  // ---------------------------------------------------------------------

  /** With a live index the scan's conditions are the delivery predicate itself, plus the
      redelivery window of a row in flight: filtering in SQL first loses no deliverable
      row and adds none. */
  lemma FilterIsTheDeliveryPredicate(e: Record, q: Query)
    requires q.lookup.Some?
    ensures Admitted(e, q) && Chosen(e, q) <==>
            && IsDeliverable(e, LiveAgentOf(e, q), q)
            && (e.row.status.Delivered? ==> e.row.lastAttempt.Some? && e.row.lastAttempt.value >= q.now - REDELIVERY_FRESHNESS)
  {
  }

  // ---------------------------------------------------------------------
  // Which rows the scan may return, read off the row and the query
  // ---------------------------------------------------------------------

  /** The row belongs to the owner's scope, comes from another terminal, is no mere status
      change and no idle in the middle of a turn, and is owed: its time has come, or it is in
      flight with this very owner since less than five minutes. */
  ghost predicate OwedToOwner(e: Record, q: Query) {
    var r := e.row;
    && r.session == q.session && r.workspace == Some(q.workspace) && e.terminal.Some? && e.terminal.value != q.owner
    && !r.kind.StatusChanged? && (r.kind.Idle? ==> r.fromWorking && !e.inFlightToolUse)
    && match r.status
       case Pending => r.nextAttempt.Some? ==> r.nextAttempt.value <= q.now
       case Invalidated => r.deliverable && (r.nextAttempt.Some? ==> r.nextAttempt.value <= q.now)
       case Delivered => r.deliveredTo == Some(q.owner) && r.lastAttempt.Some? && q.now - r.lastAttempt.value <= 300_000
       case Acked => false
       case Exhausted => false
  }

  /** It does not need its agent any more: a failure, a discard, a retained row, or a
      deliverable completion without an agent. */
  ghost predicate StandsAlone(e: Record) {
    || e.row.kind.Failed? || e.row.kind.Discarded? || (e.row.status.Invalidated? && e.row.deliverable)
    || (e.row.agent.None? && e.row.deliverable && (e.row.kind.Done? || e.row.kind.Idle?))
  }

  /** A completion shows something: an assistant message, unless its agent is of the pi
      family, as an unknown one is taken to be. */
  ghost predicate ShowsSomething(e: Record, kind: Option<string>) {
    (e.row.kind.Done? || e.row.kind.Idle?) && kind.Some? && kind.value != "pi" && kind.value != "pig" ==> e.hasMessage
  }

  /** The agent is alive where the row says: in its pane, its generation and the workspace. */
  ghost predicate AgentStands(e: Record, agent: LiveAgent, q: Query) {
    && e.row.pane == Some(agent.pane) && (e.row.generation.Some? ==> agent.generation == e.row.generation)
    && agent.workspace == q.workspace
  }

  /** With a live index: a row that stands alone, or whose agent stands. */
  ghost predicate MayBeHanded(e: Record, q: Query)
    requires q.lookup.Some?
  {
    && OwedToOwner(e, q)
    && if StandsAlone(e) then !(e.interactive && e.row.kind.Idle?) && ShowsSomething(e, e.payloadAgent)
       else
         && e.row.agent.Some? && e.row.agent.value in q.lookup.value
         && var agent := q.lookup.value[e.row.agent.value];
            AgentStands(e, agent, q) && !(agent.interactivePi && e.row.kind.Idle?) && ShowsSomething(e, agent.kind)
  }

  /** With a live index the scan looks for exactly these rows after the cursor. */
  lemma WantedExactly(records: Records, q: Query, after: int, id: int)
    requires q.lookup.Some?
    ensures id in Wanted(records, q, after) <==> id in records && id > after && MayBeHanded(records[id], q)
  {
    if id in records {
      FilterIsTheDeliveryPredicate(records[id], q);
      HandedIsDeliverable(records[id], q);
    }
  }

  lemma HandedIsDeliverable(e: Record, q: Query)
    requires q.lookup.Some?
    ensures MayBeHanded(e, q) <==>
            && IsDeliverable(e, LiveAgentOf(e, q), q)
            && (e.row.status.Delivered? ==> e.row.lastAttempt.Some? && e.row.lastAttempt.value >= q.now - REDELIVERY_FRESHNESS)
  {
  }

  /** Without one it trusts the agent table: a row with an agent is taken as owed by the
      filter if it stands alone or its agent is indexed in its pane; only a row without an
      agent is validated. */
  lemma WantedWithoutIndex(records: Records, q: Query, after: int, id: int)
    requires q.lookup.None? && id in records && records[id].row.agent.Some? && id > after
    ensures var r := records[id].row;
            id in Wanted(records, q, after) <==>
              && r.session == q.session && r.workspace == Some(q.workspace) && records[id].terminal.Some? && records[id].terminal.value != q.owner
              && (|| ((r.status.Pending? || (r.status.Invalidated? && r.deliverable)) && (r.nextAttempt.Some? ==> r.nextAttempt.value <= q.now))
                  || (r.status.Delivered? && r.deliveredTo == Some(q.owner) && r.lastAttempt.Some? && q.now - r.lastAttempt.value <= 300_000))
              && (StandsAlone(records[id])
                  || (r.pane.Some? && Agent(r.agent.value, r.session, q.workspace, r.pane.value) in q.indexed))
  {
  }
}
