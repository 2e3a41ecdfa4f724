/** What the hook knows of the daemon at one moment: the listed events merged with
    the retained snapshot, filtered by the live peers, and the snapshot it keeps. */
module WakeView {
  import opened Common
  import opened Projection

  datatype Presence = Presence(session: string, workspace: string, terminal: string)

  datatype ScopeState = ScopeState(acked: int, owner: Option<string>, session: string, workspace: string)

  /** One orchestrator connection state: the listed events and the scope they belong to. */
  datatype Conn = Conn(listed: seq<Event>, presence: Presence, state: Option<ScopeState>)

  /** The live peers of agent.list; None at the use site means the call failed. */
  datatype PeerView = PeerView(workspaces: set<string>, terminals: set<string>, working: set<string>)

  const RETAINED_LIMIT: nat := 100

  function AckedId(conn: Conn): int {
    if conn.state.Some? then conn.state.value.acked else 0
  }

  predicate IsLocalOwner(conn: Conn) {
    && conn.state.Some?
    && conn.state.value.owner == Some(conn.presence.terminal)
    && conn.state.value.session == conn.presence.session
    && conn.state.value.workspace == conn.presence.workspace
  }

  function EventIds(events: seq<Event>): set<int> {
    set e | e in events :: e.id
  }

  // ---------------------------------------------------------------------
  // Records by id. A record list the hook keeps sorted by distinct ids is the
  // map from id to record; InOrder reads it back as the sorted list.
  // ---------------------------------------------------------------------

  ghost predicate Keyed(m: map<int, Event>) {
    forall id | id in m :: m[id].id == id
  }

  type Records = m: map<int, Event> | Keyed(m)

  /** The last record of each id. */
  function ById(events: seq<Event>): Records {
    if events == [] then map[] else
      var last := events[|events| - 1];
      ById(events[..|events| - 1])[last.id := last]
  }

  function RecordsAt(ids: seq<int>, m: Records): (s: seq<Event>)
    requires forall i | 0 <= i < |ids| :: ids[i] in m
    ensures |s| == |ids|
    ensures forall i | 0 <= i < |ids| :: s[i] == m[ids[i]]
  {
    if ids == [] then [] else [m[ids[0]]] + RecordsAt(ids[1..], m)
  }

  function IdsOfMap(m: Records): (ids: seq<int>)
    ensures forall i | 0 <= i < |ids| :: ids[i] in m
  {
    var ids := SortedIds(m.Keys);
    assert forall i | 0 <= i < |ids| :: ids[i] in ids;
    ids
  }

  /** The records of m in ascending id order. */
  function InOrder(m: Records): (s: seq<Event>) {
    RecordsAt(IdsOfMap(m), m)
  }

  lemma InOrderMember(m: Records, e: Event)
    ensures e in InOrder(m) <==> e.id in m && m[e.id] == e
  {
    var ids := IdsOfMap(m);
    var s := InOrder(m);
    if e in s {
      var i :| 0 <= i < |s| && s[i] == e;
    }
    if e.id in m && m[e.id] == e {
      assert e.id in ids;
      var i :| 0 <= i < |ids| && ids[i] == e.id;
      assert s[i] == e;
    }
  }

  lemma InOrderIsDistinct(m: Records)
    ensures DistinctIds(InOrder(m))
  {
    var ids := IdsOfMap(m);
    var s := InOrder(m);
    forall i, j | 0 <= i < j < |s| ensures s[i].id != s[j].id {
      assert ids[i] < ids[j];
    }
  }

  lemma InOrderHas(m: Records, id: int)
    ensures id in m ==> id in EventIds(InOrder(m))
  {
    if id in m {
      InOrderMember(m, m[id]);
      assert m[id] in InOrder(m);
    }
  }

  lemma InOrderHasOnly(m: Records, id: int)
    requires id in EventIds(InOrder(m))
    ensures id in m
  {
    var e :| e in InOrder(m) && e.id == id;
    InOrderMember(m, e);
  }

  lemma InOrderIds(m: Records)
    ensures EventIds(InOrder(m)) == m.Keys
  {
    forall id ensures id in EventIds(InOrder(m)) <==> id in m.Keys {
      InOrderHas(m, id);
      if id in EventIds(InOrder(m)) {
        InOrderHasOnly(m, id);
      }
    }
  }

  // ---------------------------------------------------------------------
  // Known, eligible, candidate and owing records
  // ---------------------------------------------------------------------

  predicate InScope(conn: Conn, e: Event) {
    && e.id > AckedId(conn)
    && e.terminal != Some(conn.presence.terminal)
    && (e.session == "" || e.session == conn.presence.session)
  }

  /** The current record of each id: the daemon's copy wins over the retained one. */
  function Merged(conn: Conn, retained: Records): Records {
    retained + ById(conn.listed)
  }

  function KnownUnacked(conn: Conn, retained: Records): Records {
    Filtered(Merged(conn, retained), (id, e) => InScope(conn, e))
  }

  /** Whether a record may still be presented: the daemon lists it, nothing is known
      of the peers, or its workspace and its terminal are both live. */
  predicate StillDeliverable(e: Event, listed: set<int>, workspace: string, view: Option<PeerView>) {
    || view.None?
    || e.id in listed
    || (&& (Truthy(e.workspace) && e.workspace.value != workspace ==> e.workspace.value in view.value.workspaces)
        && (e.terminal.Some? ==> e.terminal.value in view.value.terminals))
  }

  predicate Reachable(conn: Conn, view: Option<PeerView>, e: Event) {
    InScope(conn, e) && StillDeliverable(e, ById(conn.listed).Keys, conn.presence.workspace, view)
  }

  function Eligible(conn: Conn, retained: Records, view: Option<PeerView>): Records {
    Filtered(Merged(conn, retained), (id, e) => Reachable(conn, view, e))
  }

  function Working(view: Option<PeerView>): set<string> {
    if view.Some? then view.value.working else {}
  }

  /** The records not presented yet. */
  function Candidates(eligible: Records, presented: set<int>): Records {
    Filtered(eligible, (id, e) => id !in presented)
  }

  /** The records that still owe a projection or an acknowledgement. */
  function Owing(eligible: Records, presented: set<int>, delivered: set<int>): Records {
    Filtered(eligible, (id, e) => id !in presented || id in delivered)
  }

  /** The snapshot to persist: the owing records, lowest ids first, up to the limit. */
  function Retain(eligible: Records, presented: set<int>, delivered: set<int>): Records {
    Lowest(Owing(eligible, presented, delivered), RETAINED_LIMIT)
  }

  // ---------------------------------------------------------------------
  // The loops that compute them
  // ---------------------------------------------------------------------

  method CollectById(events: seq<Event>, start: Records) returns (m: Records)
    ensures m == start + ById(events)
  {
    m := start;
    for i := 0 to |events|
      invariant m == start + ById(events[..i])
    {
      assert events[..i + 1][..i] == events[..i];
      m := m[events[i].id := events[i]];
    }
    assert events[..|events|] == events;
  }

  /** mergeKnownUnackedEvents */
  method MergeKnownUnacked(conn: Conn, retained: Records) returns (known: Records)
    ensures known == KnownUnacked(conn, retained)
  {
    var byId := CollectById(conn.listed, retained);
    known := FilterEntries(byId, (id, e) => InScope(conn, e));
  }

  /** filterEligibleRetainedEvents */
  method FilterEligible(known: Records, listed: set<int>, workspace: string, view: Option<PeerView>) returns (eligible: Records)
    ensures eligible == Filtered(known, (id, e) => StillDeliverable(e, listed, workspace, view))
  {
    if view.None? {
      eligible := known;
      assert eligible.Keys == Filtered(known, (id, e) => StillDeliverable(e, listed, workspace, view)).Keys;
      return;
    }
    eligible := FilterEntries(known, (id, e) => StillDeliverable(e, listed, workspace, view));
  }

  /** resolveEligibleWakeEvents: one agent.list answer gives both the eligible
      records and the working terminals. */
  method ResolveEligible(conn: Conn, retained: Records, view: Option<PeerView>) returns (eligible: Records, working: set<string>)
    ensures eligible == Eligible(conn, retained, view)
    ensures eligible != map[] ==> working == Working(view)
  {
    var known := MergeKnownUnacked(conn, retained);
    EligibleFiltersKnown(conn, retained, view);
    if known == map[] {
      return map[], {};
    }
    eligible := FilterEligible(known, ById(conn.listed).Keys, conn.presence.workspace, view);
    working := Working(view);
  }

  lemma EligibleFiltersKnown(conn: Conn, retained: Records, view: Option<PeerView>)
    ensures Eligible(conn, retained, view) ==
            Filtered(KnownUnacked(conn, retained), (id, e) => StillDeliverable(e, ById(conn.listed).Keys, conn.presence.workspace, view))
  {
    SameEntries(Eligible(conn, retained, view),
                Filtered(KnownUnacked(conn, retained), (id, e) => StillDeliverable(e, ById(conn.listed).Keys, conn.presence.workspace, view)));
  }

  /** retainWakeCandidates: walks the records in id order and stops at the limit. */
  method RetainWakeCandidates(eligible: Records, presented: set<int>, delivered: set<int>) returns (retained: Records)
    ensures retained == Retain(eligible, presented, delivered)
  {
    retained := FilterLowest(eligible, (id, e) => id !in presented || id in delivered, RETAINED_LIMIT);
  }

  // ---------------------------------------------------------------------
  // What the view guarantees
  // ---------------------------------------------------------------------

  /** The snapshot suffices: when the daemon stops listing anything, the next merge
      rebuilds the same owing records above the cursor, as long as at most the
      limit are owed; beyond it exactly the lowest ids survive. */
  lemma RetainedRebuildsOwing(conn: Conn, retained: Records, view: Option<PeerView>, presented: set<int>, delivered: set<int>, later: Conn)
    requires later.listed == [] && later.presence == conn.presence && AckedId(later) >= AckedId(conn)
    ensures var owing := Owing(Eligible(conn, retained, view), presented, delivered);
            var kept := Retain(Eligible(conn, retained, view), presented, delivered);
            && KnownUnacked(later, kept) == Filtered(Lowest(owing, RETAINED_LIMIT), (id, e) => id > AckedId(later))
            && (|owing| <= RETAINED_LIMIT ==> kept == owing)
            && (forall id | id in kept :: id > AckedId(conn) && kept[id].id == id)
  {
    var eligible := Eligible(conn, retained, view);
    var owing := Owing(eligible, presented, delivered);
    var kept := Retain(eligible, presented, delivered);
    forall id | id in kept ensures id > AckedId(conn) && kept[id].id == id && (InScope(later, kept[id]) <==> id > AckedId(later)) {
      EligibleRecord(conn, retained, view, id);
      assert kept[id] == eligible[id];
    }
    KnownWithoutListing(later, kept);
    if |owing| <= RETAINED_LIMIT {
      LowestOfFew(owing, RETAINED_LIMIT);
    }
  }

  lemma EligibleRecord(conn: Conn, retained: Records, view: Option<PeerView>, id: int)
    requires id in Eligible(conn, retained, view)
    ensures Eligible(conn, retained, view)[id].id == id && InScope(conn, Eligible(conn, retained, view)[id])
  {
  }

  lemma KnownWithoutListing(later: Conn, kept: Records)
    requires later.listed == []
    requires forall id | id in kept :: InScope(later, kept[id]) <==> id > AckedId(later)
    ensures KnownUnacked(later, kept) == Filtered(kept, (id, e) => id > AckedId(later))
  {
    assert Merged(later, kept) == kept;
    SameEntries(KnownUnacked(later, kept), Filtered(kept, (id, e) => id > AckedId(later)));
  }
}
