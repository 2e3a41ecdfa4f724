/** The daemon's two tables together: what the acknowledgement cursor of a scope says
    about the event rows at or below it. */
module CursorSafety {
  import opened Common
  import Projection
  import opened EventTable
  import opened OrchestratorScopes

  /** base is the cursor a scope row was created with: older rows were never its own. */
  datatype Daemon = Daemon(table: Table, scopes: Scopes, base: map<Scope, int>)

  datatype Command =
    | WriteEvents(write: Write)
    | ClaimScope(key: Scope, pane: string, terminal: string, connected: bool, now: int)
    | AckEvent(key: Scope, terminal: string, id: int, siblings: set<string>, admitted: bool, now: int)
    | MoveScope(from: Scope, to: Scope, pane: string, terminal: string, now: int)
    | ReleaseScope(key: Scope, terminal: string, now: int)
    | ReleaseStale(key: Scope, livePanes: set<string>, liveTerminals: set<string>, now: int)
    | PurgeScopes(before: int)

  function IdsInScope(rows: Rows, key: Scope): set<int> {
    set id | id in rows && InScope(rows[id], key.session, key.workspace)
  }

  /** latestEventId */
  function LatestEventId(rows: Rows, key: Scope): (m: int)
    ensures IdsInScope(rows, key) == {} ==> m == 0
    ensures IdsInScope(rows, key) != {} ==> m in IdsInScope(rows, key)
    ensures forall id | id in IdsInScope(rows, key) :: id <= m
  {
    if IdsInScope(rows, key) == {} then 0 else MaxId(IdsInScope(rows, key))
  }

  function MaxId(s: set<int>): (m: int)
    requires s != {}
    ensures m in s && forall x | x in s :: x <= m
  {
    var low := MinId(s);
    if s == {low} then low else
      assert s == (s - {low}) + {low};
      MaxId(s - {low})
  }

  /** claimCursor: an existing row keeps its cursor, a first claim skips the history. */
  function ClaimCursor(d: Daemon, key: Scope): int {
    if key in d.scopes then d.scopes[key].acked else LatestEventId(d.table.rows, key)
  }

  function Claimed(d: Daemon, key: Scope, pane: string, terminal: string, now: int): Daemon {
    var cursor := ClaimCursor(d, key);
    d.(scopes := d.scopes[key := OwnedRow(cursor, pane, terminal, now)],
       base := if key in d.scopes then d.base else d.base[key := cursor])
  }

  function Released(d: Daemon, key: Scope, now: int): Daemon
    requires key in d.scopes
  {
    d.(scopes := d.scopes[key := ReleasedRow(d.scopes[key], now)])
  }

  /** The service's ack: refused unless the owner acks a known event of its session that
      is in its workspace or an ownerless sibling's; admitted stands for the delivery
      checks. Its own workspace moves the cursor, a sibling settles the one row. */
  function Acknowledged(d: Daemon, c: Command): Daemon
    requires c.AckEvent?
  {
    if !OwnedBy(d.scopes, c.key, c.terminal) || c.id <= d.scopes[c.key].acked then d
    else if c.id !in d.table.rows || d.table.rows[c.id].session != c.key.session || !c.admitted then d
    else if d.table.rows[c.id].workspace == Some(c.key.workspace) then
      d.(table := Apply(d.table, AckCursor(c.key.session, c.key.workspace, c.id)),
         scopes := d.scopes[c.key := d.scopes[c.key].(acked := Max(d.scopes[c.key].acked, c.id), updated := c.now)])
    else if d.table.rows[c.id].workspace.Some? && d.table.rows[c.id].workspace.value in c.siblings then
      d.(table := Apply(d.table, AckRow(c.id)))
    else d
  }

  ghost function Step(d: Daemon, c: Command): Daemon {
    match c
    case WriteEvents(write) => d.(table := Apply(d.table, write))
    case ClaimScope(key, pane, terminal, connected, now) =>
      if key in d.scopes && d.scopes[key].ownerTerminal.Some? && d.scopes[key].ownerTerminal != Some(terminal) && connected then d
      else Claimed(d, key, pane, terminal, now)
    case AckEvent(_, _, _, _, _, _) => Acknowledged(d, c)
    case MoveScope(from, to, pane, terminal, now) =>
      if OwnedBy(d.scopes, from, terminal) then
        var cursor := ClaimCursor(d, to);
        var released := Released(d, from, now);
        released.(scopes := released.scopes[to := OwnedRow(cursor, pane, terminal, now)],
                  base := if to in d.scopes then d.base else d.base[to := cursor])
      else d
    case ReleaseScope(key, terminal, now) => if OwnedBy(d.scopes, key, terminal) then Released(d, key, now) else d
    case ReleaseStale(key, livePanes, liveTerminals, now) =>
      if key in d.scopes && d.scopes[key].ownerPane.Some? && d.scopes[key].ownerTerminal.Some?
         && (d.scopes[key].ownerPane.value !in livePanes || d.scopes[key].ownerTerminal.value !in liveTerminals)
      then Released(d, key, now) else d
    case PurgeScopes(before) =>
      d.(scopes := map key | key in d.scopes && !(d.scopes[key].ownerTerminal.None? && d.scopes[key].updated < before) :: d.scopes[key])
  }

  // ---------------------------------------------------------------------
  // Invariants
  // ---------------------------------------------------------------------

  ghost predicate Tracked(d: Daemon, key: Scope)
    requires key in d.scopes
  {
    key in d.base && d.base[key] <= d.scopes[key].acked < d.table.nextId && Paired(d.scopes[key])
  }

  ghost predicate Sane(d: Daemon) {
    Inv(d.table) && forall key | key in d.scopes :: Tracked(d, key)
  }

  /** The row belongs to the scope's term and its cursor passed it. */
  ghost predicate Passed(d: Daemon, key: Scope, id: int)
    requires key in d.scopes && key in d.base && id in d.table.rows
  {
    InScope(d.table.rows[id], key.session, key.workspace) && d.base[key] < id <= d.scopes[key].acked
  }

  /** Every row of a scope that its cursor passed is settled. */
  ghost predicate Safe(d: Daemon) {
    forall key, id | key in d.scopes && key in d.base && id in d.table.rows && Passed(d, key, id) :: Settled(d.table.rows[id])
  }

  /** A close that consumes nothing finds, below a cursor, a row that an earlier close
      left with its reason and that is still worth keeping. */
  ghost predicate Resurrects(d: Daemon, c: Close, now: int) {
    && !Consumed(d.table.rows, c)
    && exists key, id ::
         && key in d.scopes && key in d.base && id in d.table.rows && Passed(d, key, id)
         && LeftBefore(d.table.rows[id], c) && WorthKeeping(d.table.rows[id], c, now)
  }

  lemma StepKeepsSane(d: Daemon, c: Command)
    requires Sane(d)
    ensures Sane(Step(d, c))
  {
    if c.WriteEvents? {
      ApplyKeepsInv(d.table, c.write);
    } else if c.AckEvent? {
      ApplyKeepsInv(d.table, AckCursor(c.key.session, c.key.workspace, c.id));
      ApplyKeepsInv(d.table, AckRow(c.id));
    }
  }

  /** A settled row stays settled under every write but a close, and under a close
      exactly unless it is brought back. */
  lemma SettledStays(t: Table, w: Write, id: int)
    requires id in t.rows && Settled(t.rows[id]) && id in Apply(t, w).rows && (w.AppendEvent? ==> id < t.nextId)
    ensures !w.InvalidatePane? ==> Settled(Apply(t, w).rows[id])
    ensures w.InvalidatePane? ==>
      (Settled(Apply(t, w).rows[id]) <==> !(!Consumed(t.rows, w.close) && LeftBefore(t.rows[id], w.close) && WorthKeeping(t.rows[id], w.close, w.now)))
  {
  }

  lemma WritesKeepSafe(d: Daemon, w: Write)
    requires Sane(d) && Safe(d)
    requires !(w.InvalidatePane? && Resurrects(d, w.close, w.now))
    ensures Safe(Step(d, WriteEvents(w)))
  {
    var d' := Step(d, WriteEvents(w));
    forall key, id | key in d'.scopes && key in d'.base && id in d'.table.rows && Passed(d', key, id)
      ensures Settled(d'.table.rows[id])
    {
      assert Tracked(d, key);
      if id in d.table.rows {
        WriteIsSound(d.table, w, id);
        assert Passed(d, key, id);
        SettledStays(d.table, w, id);
      } else {
        WriteIssuesNoOldId(d.table, w, id);
      }
    }
  }

  lemma AckKeepsSafe(d: Daemon, c: Command)
    requires Sane(d) && Safe(d) && c.AckEvent?
    ensures Safe(Step(d, c))
  {
    var d' := Step(d, c);
    forall key, id | key in d'.scopes && key in d'.base && id in d'.table.rows && Passed(d', key, id)
      ensures Settled(d'.table.rows[id])
    {
      assert Tracked(d, key);
      assert id in d.table.rows;
      if Passed(d, key, id) {
        SettledStays(d.table, AckCursor(c.key.session, c.key.workspace, c.id), id);
        SettledStays(d.table, AckRow(c.id), id);
      }
    }
  }

  /** An ack never lets a row go that its cursor does not say is settled: if it moves the
      cursor, every row of the scope up to it is settled and no other row changes; if not,
      at most the one acked row changes, and then it belongs to a sibling workspace. */
  lemma AckSettlesExactly(d: Daemon, c: Command, id: int)
    requires Sane(d) && c.AckEvent? && id in d.table.rows
    ensures id in Step(d, c).table.rows
    ensures var before, after := d.table.rows[id], Step(d, c).table.rows[id];
            if c.key in d.scopes && Step(d, c).scopes[c.key].acked != d.scopes[c.key].acked then
              && Step(d, c).scopes[c.key].acked == c.id > d.scopes[c.key].acked
              && if InScope(before, c.key.session, c.key.workspace) && id <= c.id then Settled(after) else after == before
            else
              && Step(d, c).scopes == d.scopes
              && (after != before ==> id == c.id && Settled(after) && before.session == c.key.session
                                      && before.workspace.Some? && before.workspace.value != c.key.workspace && before.workspace.value in c.siblings)
  {
  }

  /** A close breaks safety exactly when it resurrects a row the cursor passed. */
  lemma CloseIsSafeExactly(d: Daemon, c: Close, now: int)
    requires Sane(d) && Safe(d)
    ensures Safe(Step(d, WriteEvents(InvalidatePane(c, now)))) <==> !Resurrects(d, c, now)
  {
    var w := InvalidatePane(c, now);
    if Resurrects(d, c, now) {
      var key, id :| key in d.scopes && key in d.base && id in d.table.rows && Passed(d, key, id)
                     && LeftBefore(d.table.rows[id], c) && WorthKeeping(d.table.rows[id], c, now);
      SettledStays(d.table, w, id);
      WriteIsSound(d.table, w, id);
      assert Passed(Step(d, WriteEvents(w)), key, id);
    } else {
      WritesKeepSafe(d, w);
    }
  }

  lemma StepKeepsSafe(d: Daemon, c: Command)
    requires Sane(d) && Safe(d)
    requires !(c.WriteEvents? && c.write.InvalidatePane? && Resurrects(d, c.write.close, c.write.now))
    ensures Safe(Step(d, c))
  {
    if c.WriteEvents? {
      WritesKeepSafe(d, c.write);
    } else if c.AckEvent? {
      AckKeepsSafe(d, c);
    } else {
      ScopeStepKeepsSafe(d, c);
    }
  }

  lemma ScopeStepKeepsSafe(d: Daemon, c: Command)
    requires Sane(d) && Safe(d) && !c.WriteEvents? && !c.AckEvent?
    ensures Safe(Step(d, c))
  {
    var d' := Step(d, c);
    forall key, id | key in d'.scopes && key in d'.base && id in d'.table.rows && Passed(d', key, id)
      ensures Settled(d'.table.rows[id])
    {
      if key in d.scopes {
        assert Tracked(d, key);
        assert Passed(d, key, id);
      }
    }
  }

  // ---------------------------------------------------------------------
  // Whole runs
  // ---------------------------------------------------------------------

  ghost predicate IsRun(states: seq<Daemon>, commands: seq<Command>) {
    && |states| == |commands| + 1 && Sane(states[0]) && Safe(states[0])
    && forall k | 0 <= k < |commands| :: states[k + 1] == Step(states[k], commands[k])
  }

  ghost predicate ResurrectsAt(d: Daemon, c: Command) {
    c.WriteEvents? && c.write.InvalidatePane? && Resurrects(d, c.write.close, c.write.now)
  }

  lemma {:induction false} RunStaysSane(states: seq<Daemon>, commands: seq<Command>, j: nat)
    requires IsRun(states, commands) && j < |states|
    ensures Sane(states[j])
  {
    if j > 0 {
      RunStaysSane(states, commands, j - 1);
      StepKeepsSane(states[j - 1], commands[j - 1]);
    }
  }

  /** Over every run of appends, reservations, reclaims, closes, acks, claims, moves and
      releases: whatever the cursor of a scope passed in its term is settled or gone, as
      long as no close resurrects such a row. */
  lemma {:induction false} PassedRowsAreSettled(states: seq<Daemon>, commands: seq<Command>, j: nat)
    requires IsRun(states, commands) && j < |states|
    ensures Safe(states[j]) || exists k :: 0 <= k < j && ResurrectsAt(states[k], commands[k])
  {
    if j > 0 {
      PassedRowsAreSettled(states, commands, j - 1);
      RunStaysSane(states, commands, j - 1);
      if Safe(states[j - 1]) && !ResurrectsAt(states[j - 1], commands[j - 1]) {
        StepKeepsSafe(states[j - 1], commands[j - 1]);
      }
    }
  }

  lemma StepKeepsCursor(d: Daemon, c: Command, key: Scope)
    requires key in d.scopes && key in Step(d, c).scopes
    ensures d.scopes[key].acked <= Step(d, c).scopes[key].acked
    ensures d.scopes[key].acked != Step(d, c).scopes[key].acked ==>
            && c.AckEvent? && c.key == key && OwnedBy(d.scopes, key, c.terminal) && Step(d, c).scopes[key].acked == c.id
            && c.id in d.table.rows && InScope(d.table.rows[c.id], key.session, key.workspace)
  {
  }

  /** The cursor of a scope never decreases while its row exists, and only its owner's ack
      of an event of that very workspace moves it; release and move preserve it. */
  lemma {:induction false} CursorNeverDecreases(states: seq<Daemon>, commands: seq<Command>, i: nat, j: nat, key: Scope)
    requires IsRun(states, commands) && i <= j < |states|
    requires forall k | i <= k <= j :: key in states[k].scopes
    ensures states[i].scopes[key].acked <= states[j].scopes[key].acked
    decreases j - i
  {
    if i < j {
      assert key in states[i + 1].scopes;
      StepKeepsCursor(states[i], commands[i], key);
      CursorNeverDecreases(states, commands, i + 1, j, key);
    }
  }

  // ---------------------------------------------------------------------
  // What the ownership commands do
  // ---------------------------------------------------------------------

  /** Where a claim starts: a known scope goes on where its cursor was, an unknown one behind
      every event of the workspace so far. */
  ghost predicate StartsAt(d: Daemon, key: Scope, acked: int) {
    if key in d.scopes then acked == d.scopes[key].acked
    else
      && (acked == 0 || (acked in d.table.rows && InScope(d.table.rows[acked], key.session, key.workspace)))
      && forall id | id in d.table.rows && d.table.rows[id].session == key.session && d.table.rows[id].workspace == Some(key.workspace) :: id <= acked
  }

  ghost predicate OthersStay(d: Daemon, after: Daemon, keys: set<Scope>) {
    after.table == d.table && OnlyChanged(d.scopes, after.scopes, keys)
  }

  ghost predicate OwnedElsewhere(d: Daemon, key: Scope, terminal: string) {
    key in d.scopes && d.scopes[key].ownerTerminal.Some? && d.scopes[key].ownerTerminal.value != terminal
  }

  /** A claim is refused exactly if another connected terminal owns the scope; otherwise the
      claimer owns it from its starting point. */
  lemma ClaimExactly(d: Daemon, c: Command)
    requires Sane(d) && c.ClaimScope?
    ensures var after := Step(d, c);
            if OwnedElsewhere(d, c.key, c.terminal) && c.connected then after == d
            else
              && OthersStay(d, after, {c.key}) && c.key in after.scopes && StartsAt(d, c.key, after.scopes[c.key].acked)
              && after.scopes[c.key].ownerTerminal == Some(c.terminal) && after.scopes[c.key].ownerPane == Some(c.pane)
  {
    var latest := LatestEventId(d.table.rows, c.key);
    forall id | id in d.table.rows && d.table.rows[id].session == c.key.session && d.table.rows[id].workspace == Some(c.key.workspace)
      ensures id <= latest
    {
      assert id in IdsInScope(d.table.rows, c.key);
    }
  }

  /** Only the owner moves: the source loses its owner and keeps its cursor, the target is
      claimed from its starting point, whoever held it. */
  lemma MoveExactly(d: Daemon, c: Command)
    requires Sane(d) && c.MoveScope?
    ensures var after := Step(d, c);
            if !(c.from in d.scopes && d.scopes[c.from].ownerTerminal == Some(c.terminal)) then after == d
            else
              && OthersStay(d, after, {c.from, c.to}) && c.to in after.scopes && StartsAt(d, c.to, after.scopes[c.to].acked)
              && after.scopes[c.to].ownerTerminal == Some(c.terminal) && after.scopes[c.to].ownerPane == Some(c.pane)
              && (c.from != c.to ==> c.from in after.scopes && Freed(d.scopes[c.from], after.scopes[c.from], c.now))
  {
    var latest := LatestEventId(d.table.rows, c.to);
    forall id | id in d.table.rows && d.table.rows[id].session == c.to.session && d.table.rows[id].workspace == Some(c.to.workspace)
      ensures id <= latest
    {
      assert id in IdsInScope(d.table.rows, c.to);
    }
  }

  /** A release frees the scope exactly for its owner, a stale release exactly if the owner's
      pane or terminal is gone; a purge forgets exactly the free scopes that are old. */
  lemma ReleaseExactly(d: Daemon, c: Command)
    requires Sane(d) && (c.ReleaseScope? || c.ReleaseStale?)
    ensures var after := Step(d, c);
            var frees := c.key in d.scopes && d.scopes[c.key].ownerTerminal.Some?
                         && if c.ReleaseScope? then d.scopes[c.key].ownerTerminal.value == c.terminal
                            else d.scopes[c.key].ownerPane.Some? && !(d.scopes[c.key].ownerPane.value in c.livePanes
                                                                      && d.scopes[c.key].ownerTerminal.value in c.liveTerminals);
            if frees then OthersStay(d, after, {c.key}) && c.key in after.scopes && Freed(d.scopes[c.key], after.scopes[c.key], c.now)
            else after == d
  {
  }

  lemma PurgeExactly(d: Daemon, before: int, key: Scope)
    ensures var after := Step(d, PurgeScopes(before));
            && after.table == d.table
            && (key in after.scopes <==> key in d.scopes && (d.scopes[key].ownerTerminal.Some? || d.scopes[key].updated >= before))
            && (key in after.scopes ==> after.scopes[key] == d.scopes[key])
  {
  }

  // ---------------------------------------------------------------------
  // A run that breaks safety
  // ---------------------------------------------------------------------

  /** Two like completions of one pane and its explicit close. */
  ghost predicate ClosesPane(key: Scope, e: NewEvent, c: Close) {
    && e.session == key.session == c.session && e.workspace == Some(key.workspace) && e.pane == Some(c.pane) && e.key.None?
    && (e.kind.Done? || e.kind.Idle?) && e.fromWorking
    && c.explicit && (c.generation.None? || e.generation == c.generation)
  }

  function Seen(e: NewEvent, terminal: string): Row {
    ReservedRow(NewRow(e), terminal, e.created)
  }

  function Left(e: NewEvent, c: Close): Row {
    InvalidatedRow(NewRow(e), CloseReason(c))
  }

  const NOTHING := Daemon(Table(map[], 1), map[], map[])

  function BreakingCommands(key: Scope, e: NewEvent, c: Close, pane: string, terminal: string): seq<Command> {
    [ClaimScope(key, pane, terminal, false, e.created),
     WriteEvents(AppendEvent(e)),
     WriteEvents(AppendEvent(e)),
     WriteEvents(ReservePending(terminal, 1, {2}, e.created)),
     WriteEvents(InvalidatePane(c, e.created)),
     AckEvent(key, terminal, 2, {}, true, e.created),
     WriteEvents(InvalidatePane(c, e.created))]
  }

  function BreakingStates(key: Scope, e: NewEvent, c: Close, pane: string, terminal: string): seq<Daemon> {
    var scopes, base := map[key := OwnedRow(0, pane, terminal, e.created)], map[key := 0];
    var seen := Seen(e, terminal);
    [NOTHING,
     Daemon(Table(map[], 1), scopes, base),
     Daemon(Table(map[1 := NewRow(e)], 2), scopes, base),
     Daemon(Table(map[1 := NewRow(e), 2 := NewRow(e)], 3), scopes, base),
     Daemon(Table(map[1 := NewRow(e), 2 := seen], 3), scopes, base),
     Daemon(Table(map[1 := Left(e, c), 2 := AckedRow(seen)], 3), scopes, base),
     Daemon(Table(map[1 := Left(e, c), 2 := AckedRow(seen)], 3), map[key := OwnedRow(2, pane, terminal, e.created)], base),
     Daemon(Table(map[1 := RetainedRow(NewRow(e)), 2 := AckedRow(seen)], 3), map[key := OwnedRow(2, pane, terminal, e.created)], base)]
  }

  lemma ClaimAndAppend(key: Scope, e: NewEvent, c: Close, pane: string, terminal: string)
    requires ClosesPane(key, e, c)
    ensures var states, commands := BreakingStates(key, e, c, pane, terminal), BreakingCommands(key, e, c, pane, terminal);
            Step(states[0], commands[0]) == states[1] && Step(states[1], commands[1]) == states[2] && Step(states[2], commands[2]) == states[3]
  {
    assert IdsInScope(map[], key) == {};
  }

  lemma ReserveSecond(rows: Rows, e: NewEvent, terminal: string)
    requires rows == map[1 := NewRow(e), 2 := NewRow(e)]
    ensures Reserve(rows, terminal, 1, {2}, e.created) == map[1 := NewRow(e), 2 := Seen(e, terminal)]
  {
    assert Matching(rows, (id, r) => Reservable(r, terminal, e.created) && ({2} == {} || id in {2})) == {2};
    assert |{2}| == 1;
    SameEntries(Reserve(rows, terminal, 1, {2}, e.created), map[1 := NewRow(e), 2 := Seen(e, terminal)]);
  }

  /** The first close consumes the second completion and leaves the first undeliverable. */
  lemma FirstClose(rows: Rows, key: Scope, e: NewEvent, c: Close, terminal: string)
    requires ClosesPane(key, e, c) && rows == map[1 := NewRow(e), 2 := Seen(e, terminal)]
    ensures ClosePane(rows, c, e.created) == map[1 := Left(e, c), 2 := AckedRow(Seen(e, terminal))]
  {
    assert Consumable(rows[2], c);
    SameEntries(ClosePane(rows, c, e.created), map[1 := Left(e, c), 2 := AckedRow(Seen(e, terminal))]);
  }

  lemma SecondClose(rows: Rows, key: Scope, e: NewEvent, c: Close, terminal: string)
    requires ClosesPane(key, e, c) && rows == map[1 := Left(e, c), 2 := AckedRow(Seen(e, terminal))]
    ensures ClosePane(rows, c, e.created) == map[1 := RetainedRow(NewRow(e)), 2 := AckedRow(Seen(e, terminal))]
  {
    assert !Consumed(rows, c);
    SameEntries(ClosePane(rows, c, e.created), map[1 := RetainedRow(NewRow(e)), 2 := AckedRow(Seen(e, terminal))]);
  }

  lemma AckSecond(key: Scope, e: NewEvent, c: Close, pane: string, terminal: string)
    requires ClosesPane(key, e, c)
    ensures Step(BreakingStates(key, e, c, pane, terminal)[5], BreakingCommands(key, e, c, pane, terminal)[5]) == BreakingStates(key, e, c, pane, terminal)[6]
  {
    NothingToAck(map[1 := Left(e, c), 2 := AckedRow(Seen(e, terminal))], key, 2);
  }

  lemma NothingToAck(rows: Rows, key: Scope, id: int)
    requires forall x | x in rows :: Settled(rows[x])
    ensures AckScope(rows, key.session, key.workspace, id) == rows
  {
    SameEntries(AckScope(rows, key.session, key.workspace, id), rows);
  }

  lemma Writes(key: Scope, e: NewEvent, c: Close, pane: string, terminal: string)
    requires ClosesPane(key, e, c)
    ensures var states, commands := BreakingStates(key, e, c, pane, terminal), BreakingCommands(key, e, c, pane, terminal);
            && Step(states[3], commands[3]) == states[4] && Step(states[4], commands[4]) == states[5]
            && Step(states[6], commands[6]) == states[7]
  {
    var states := BreakingStates(key, e, c, pane, terminal);
    ReserveSecond(states[3].table.rows, e, terminal);
    FirstClose(states[4].table.rows, key, e, c, terminal);
    SecondClose(states[6].table.rows, key, e, c, terminal);
  }

  lemma BreakingIsRun(key: Scope, e: NewEvent, c: Close, pane: string, terminal: string)
    requires ClosesPane(key, e, c)
    ensures IsRun(BreakingStates(key, e, c, pane, terminal), BreakingCommands(key, e, c, pane, terminal))
  {
    var states, commands := BreakingStates(key, e, c, pane, terminal), BreakingCommands(key, e, c, pane, terminal);
    ClaimAndAppend(key, e, c, pane, terminal);
    Writes(key, e, c, pane, terminal);
    AckSecond(key, e, c, pane, terminal);
    forall k | 0 <= k < |commands| ensures states[k + 1] == Step(states[k], commands[k]) {
      assert k == 0 || k == 1 || k == 2 || k == 3 || k == 4 || k == 5 || k == 6;
    }
  }

  lemma LastCloseBreaks(d: Daemon, after: Daemon, key: Scope, e: NewEvent, c: Close, terminal: string)
    requires ClosesPane(key, e, c) && key in d.scopes && d.scopes[key].acked == 2 && d.base == map[key := 0]
    requires d.table.rows == map[1 := Left(e, c), 2 := AckedRow(Seen(e, terminal))]
    requires after.scopes == d.scopes && after.base == d.base && after.table.rows == map[1 := RetainedRow(NewRow(e)), 2 := AckedRow(Seen(e, terminal))]
    ensures Safe(d) && !Safe(after)
  {
    assert Passed(after, key, 1) && !Settled(after.table.rows[1]);
  }

  /** It does happen: from an empty daemon the owner claims the scope, a pane completes
      twice, the second completion is reserved, the pane is closed explicitly, which consumes
      it and leaves the first undeliverable, the owner acks the second, and the pane is closed
      once more. Only that last close breaks safety. */
  lemma SecondCloseBreaksSafety(key: Scope, e: NewEvent, c: Close, pane: string, terminal: string)
    requires ClosesPane(key, e, c)
    ensures var states := BreakingStates(key, e, c, pane, terminal);
            && IsRun(states, BreakingCommands(key, e, c, pane, terminal))
            && states[0] == NOTHING && Safe(states[6]) && !Safe(states[7])
  {
    var states := BreakingStates(key, e, c, pane, terminal);
    BreakingIsRun(key, e, c, pane, terminal);
    LastCloseBreaks(states[6], states[7], key, e, c, terminal);
  }
}
