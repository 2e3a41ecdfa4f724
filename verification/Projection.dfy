/** The wake-batch projection: which agent events become outcomes handed to the
    host, which wait for a peer that still works, and which are suppressed. */
module Projection {
  import opened Common

  datatype EventType = Done | Idle | Blocked | Failed | Discarded | StatusChanged | Other

  /** One event record. The payload fields read "" for an absent or non-string
      value; excerpt is the normalised text of the last assistant message. */
  datatype Event = Event(
    id: int,
    kind: EventType,
    session: string,
    workspace: Option<string>,
    terminal: Option<string>,
    pane: Option<string>,
    generation: Option<string>,
    from: string,
    agent: string,
    reason: string,
    fallback: bool,
    excerpt: string,
    stopReason: string)

  datatype OutcomeKind = BlockedOutcome | CompletedOutcome | FailedOutcome | StalledOutcome

  datatype Outcome = Outcome(id: int, kind: OutcomeKind, terminal: string, text: string)

  datatype Why = ToolUse | Outdated | NoOutcome | FallbackCovered | EmptyText

  datatype Verdict = Present(kind: OutcomeKind) | Defer | Suppress(why: Why)

  datatype Projection = Projection(outcomes: seq<Outcome>, deferred: set<int>, suppressed: set<int>)

  const PLAN_WAITING_HISTORY := "PLAN_WAITING_HISTORY"
  const PLAN_STALLED := "PLAN_STALLED"
  const DEGRADED := "degraded"

  predicate Truthy(value: Option<string>) {
    value.Some? && value.value != ""
  }

  predicate InFlightToolUse(e: Event) {
    e.kind.Idle? && e.stopReason == "toolUse"
  }

  predicate IsCompletion(e: Event) {
    e.kind.Done? || (e.kind.Idle? && e.from == "working")
  }

  predicate HasPaneKey(e: Event) {
    Truthy(e.pane) && Truthy(e.generation)
  }

  function PaneKey(e: Event): (string, string)
    requires HasPaneKey(e)
  {
    (e.pane.value, e.generation.value)
  }

  function OutcomeKindOf(e: Event): Option<OutcomeKind> {
    if !Truthy(e.terminal) then None else
      match e.kind
      case Done => Some(CompletedOutcome)
      case Blocked => Some(BlockedOutcome)
      case Failed =>
        if (e.reason == PLAN_WAITING_HISTORY || e.reason == DEGRADED) && !e.fallback then None
        else Some(FailedOutcome)
      case Discarded =>
        if e.agent == "" || e.agent == "agy" then
          if e.reason == PLAN_STALLED then
            Some(if e.fallback then StalledOutcome else FailedOutcome)
          else if e.reason == PLAN_WAITING_HISTORY || e.reason == DEGRADED then
            if e.fallback then Some(StalledOutcome) else None
          else Some(FailedOutcome)
        else Some(FailedOutcome)
      case Idle => if e.from == "working" then Some(CompletedOutcome) else None
      case StatusChanged => None
      case Other => None
  }

  // ---------------------------------------------------------------------
  // What one event means, given the whole candidate list
  // ---------------------------------------------------------------------

  /** Some live completion of the list names this event's pane incarnation. */
  ghost predicate PaneCompleted(events: seq<Event>, e: Event) {
    HasPaneKey(e) &&
    exists c :: c in events && !InFlightToolUse(c) && IsCompletion(c) && HasPaneKey(c) && PaneKey(c) == PaneKey(e)
  }

  ghost predicate FallbackIsCovered(events: seq<Event>, e: Event) {
    e.fallback && PaneCompleted(events, e)
  }

  /** A completion that would itself be presented once its peer stops working. */
  ghost predicate Usable(events: seq<Event>, e: Event) {
    && e in events && !InFlightToolUse(e) && IsCompletion(e)
    && OutcomeKindOf(e) == Some(CompletedOutcome)
    && !FallbackIsCovered(events, e)
    && e.excerpt != ""
  }

  ghost predicate HasNewerUsable(events: seq<Event>, e: Event) {
    exists u :: Usable(events, u) && u.terminal == e.terminal && e.id < u.id
  }

  ghost function VerdictOf(events: seq<Event>, working: set<string>, e: Event): Verdict {
    if InFlightToolUse(e) then Suppress(ToolUse)
    else if IsCompletion(e) && e.terminal.Some? && e.terminal.value in working then Defer
    else if IsCompletion(e) && e.terminal.Some? && HasNewerUsable(events, e) then Suppress(Outdated)
    else if OutcomeKindOf(e).None? then Suppress(NoOutcome)
    else if FallbackIsCovered(events, e) then Suppress(FallbackCovered)
    else if OutcomeKindOf(e).value == CompletedOutcome && e.excerpt == "" then Suppress(EmptyText)
    else Present(OutcomeKindOf(e).value)
  }

  function ToOutcome(e: Event): Outcome
    requires OutcomeKindOf(e).Some?
  {
    Outcome(e.id, OutcomeKindOf(e).value, e.terminal.value, e.excerpt)
  }

  ghost function Judge(events: seq<Event>, working: set<string>): Event -> Verdict {
    e => VerdictOf(events, working, e)
  }

  predicate Shown(judge: Event -> Verdict, e: Event) {
    judge(e).Present? && OutcomeKindOf(e).Some?
  }

  /** The outcomes among list[..n], in list order. */
  function OutcomesAmong(judge: Event -> Verdict, list: seq<Event>, n: nat): seq<Outcome>
    requires n <= |list|
  {
    if n == 0 then [] else
      var before := OutcomesAmong(judge, list, n - 1);
      if Shown(judge, list[n - 1]) then before + [ToOutcome(list[n - 1])] else before
  }

  ghost function OutcomesOf(events: seq<Event>, working: set<string>): seq<Outcome> {
    OutcomesAmong(Judge(events, working), events, |events|)
  }

  ghost function PresentedIds(events: seq<Event>, working: set<string>): set<int> {
    set e | e in events && VerdictOf(events, working, e).Present? :: e.id
  }

  ghost function DeferredIds(events: seq<Event>, working: set<string>): set<int> {
    set e | e in events && VerdictOf(events, working, e).Defer? :: e.id
  }

  ghost function SuppressedIds(events: seq<Event>, working: set<string>): set<int> {
    set e | e in events && VerdictOf(events, working, e).Suppress? :: e.id
  }

  function IdsOf(outcomes: seq<Outcome>): set<int> {
    set o | o in outcomes :: o.id
  }

  ghost predicate DistinctIds(events: seq<Event>) {
    forall i, j | 0 <= i < j < |events| :: events[i].id != events[j].id
  }

  lemma {:induction false} OutcomesAmongMember(judge: Event -> Verdict, list: seq<Event>, n: nat, o: Outcome)
    requires n <= |list|
    ensures o in OutcomesAmong(judge, list, n) <==> exists i :: 0 <= i < n && Shown(judge, list[i]) && o == ToOutcome(list[i])
  {
    if n > 0 {
      OutcomesAmongMember(judge, list, n - 1, o);
    }
  }

  lemma OutcomeIdsArePresented(events: seq<Event>, working: set<string>)
    ensures IdsOf(OutcomesOf(events, working)) == PresentedIds(events, working)
  {
    var judge, outcomes := Judge(events, working), OutcomesOf(events, working);
    forall x | x in IdsOf(outcomes) ensures x in PresentedIds(events, working) {
      var o :| o in outcomes && o.id == x;
      OutcomesAmongMember(judge, events, |events|, o);
      var i :| 0 <= i < |events| && Shown(judge, events[i]) && o == ToOutcome(events[i]);
      assert events[i] in events;
    }
    forall x | x in PresentedIds(events, working) ensures x in IdsOf(outcomes) {
      var e :| e in events && VerdictOf(events, working, e).Present? && e.id == x;
      var i :| 0 <= i < |events| && events[i] == e;
      assert Shown(judge, events[i]);
      OutcomesAmongMember(judge, events, |events|, ToOutcome(e));
      assert ToOutcome(e) in outcomes;
    }
  }

  // ---------------------------------------------------------------------
  // The four passes
  // ---------------------------------------------------------------------

  /** The live part of the list: toolUse idles are taken out before anything else. */
  method SplitToolUse(events: seq<Event>, ghost judge: Event -> Verdict) returns (live: seq<Event>, toolUse: set<int>)
    requires forall e | InFlightToolUse(e) :: !judge(e).Present?
    ensures forall e :: e in live <==> e in events && !InFlightToolUse(e)
    ensures toolUse == set e | e in events && InFlightToolUse(e) :: e.id
    ensures OutcomesAmong(judge, events, |events|) == OutcomesAmong(judge, live, |live|)
  {
    live, toolUse := [], {};
    for i := 0 to |events|
      invariant forall e :: e in live <==> e in events[..i] && !InFlightToolUse(e)
      invariant toolUse == set e | e in events[..i] && InFlightToolUse(e) :: e.id
      invariant OutcomesAmong(judge, events, i) == OutcomesAmong(judge, live, |live|)
    {
      var e := events[i];
      assert events[..i + 1] == events[..i] + [e];
      if InFlightToolUse(e) {
        toolUse := toolUse + {e.id};
      } else {
        OutcomesAmongPrefix(judge, judge, live, [e], |live|);
        live := live + [e];
      }
    }
    assert events[..|events|] == events;
  }

  lemma {:induction false} OutcomesAmongPrefix(judge: Event -> Verdict, same: Event -> Verdict, list: seq<Event>, more: seq<Event>, n: nat)
    requires n <= |list|
    requires forall e | e in list :: judge(e) == same(e)
    ensures OutcomesAmong(judge, list + more, n) == OutcomesAmong(same, list, n)
  {
    if n > 0 {
      assert list[n - 1] in list;
      OutcomesAmongPrefix(judge, same, list, more, n - 1);
    }
  }

  method CollectCompletedPanes(live: seq<Event>) returns (panes: set<(string, string)>)
    ensures panes == set c | c in live && IsCompletion(c) && HasPaneKey(c) :: PaneKey(c)
  {
    panes := {};
    for i := 0 to |live|
      invariant panes == set c | c in live[..i] && IsCompletion(c) && HasPaneKey(c) :: PaneKey(c)
    {
      var c := live[i];
      assert live[..i + 1] == live[..i] + [c];
      if IsCompletion(c) && HasPaneKey(c) {
        panes := panes + {PaneKey(c)};
      }
    }
    assert live[..|live|] == live;
  }

  predicate UsableAmong(panes: set<(string, string)>, e: Event) {
    && IsCompletion(e) && e.terminal.Some?
    && OutcomeKindOf(e) == Some(CompletedOutcome)
    && !(e.fallback && HasPaneKey(e) && PaneKey(e) in panes)
    && e.excerpt != ""
  }

  /** The greatest usable completion id of each terminal. */
  method NewestCompletions(live: seq<Event>, panes: set<(string, string)>) returns (newest: map<string, int>)
    ensures forall t :: t in newest ==> exists u :: u in live && UsableAmong(panes, u) && u.terminal == Some(t) && u.id == newest[t]
    ensures forall u | u in live && UsableAmong(panes, u) :: u.terminal.value in newest && u.id <= newest[u.terminal.value]
  {
    newest := map[];
    for i := 0 to |live|
      invariant forall t :: t in newest ==> exists u :: u in live && UsableAmong(panes, u) && u.terminal == Some(t) && u.id == newest[t]
      invariant forall u | u in live[..i] && UsableAmong(panes, u) :: u.terminal.value in newest && u.id <= newest[u.terminal.value]
    {
      var u := live[i];
      assert live[..i + 1] == live[..i] + [u];
      if UsableAmong(panes, u) {
        var t := u.terminal.value;
        if t !in newest || newest[t] < u.id {
          newest := newest[t := u.id];
        }
      }
    }
    assert live[..|live|] == live;
  }

  /** VerdictOf read off the two tables the passes built. */
  ghost function TableVerdict(panes: set<(string, string)>, newest: map<string, int>, working: set<string>, e: Event): Verdict {
    if IsCompletion(e) && e.terminal.Some? && e.terminal.value in working then Defer
    else if IsCompletion(e) && e.terminal.Some? && e.terminal.value in newest && e.id < newest[e.terminal.value] then
      Suppress(Outdated)
    else if OutcomeKindOf(e).None? then Suppress(NoOutcome)
    else if e.fallback && HasPaneKey(e) && PaneKey(e) in panes then Suppress(FallbackCovered)
    else if OutcomeKindOf(e).value == CompletedOutcome && e.excerpt == "" then Suppress(EmptyText)
    else Present(OutcomeKindOf(e).value)
  }

  lemma TablesDecide(events: seq<Event>, live: seq<Event>, panes: set<(string, string)>, newest: map<string, int>,
                     working: set<string>, e: Event)
    requires forall x :: x in live <==> x in events && !InFlightToolUse(x)
    requires panes == set c | c in live && IsCompletion(c) && HasPaneKey(c) :: PaneKey(c)
    requires forall t :: t in newest ==> exists u :: u in live && UsableAmong(panes, u) && u.terminal == Some(t) && u.id == newest[t]
    requires forall u | u in live && UsableAmong(panes, u) :: u.terminal.value in newest && u.id <= newest[u.terminal.value]
    requires e in live
    ensures VerdictOf(events, working, e) == TableVerdict(panes, newest, working, e)
  {
    assert forall x :: PaneCompleted(events, x) <==> HasPaneKey(x) && PaneKey(x) in panes;
    assert forall x :: Usable(events, x) <==> x in live && UsableAmong(panes, x);
    if e.terminal.Some? && e.terminal.value in newest && e.id < newest[e.terminal.value] {
      var u :| u in live && UsableAmong(panes, u) && u.terminal == e.terminal && u.id == newest[e.terminal.value];
      assert HasNewerUsable(events, e);
    }
  }

  /** The last pass: one verdict per live event, read off the tables. */
  method ClassifyLive(live: seq<Event>, panes: set<(string, string)>, newest: map<string, int>, working: set<string>) returns (p: Projection)
    ensures var judge := e => TableVerdict(panes, newest, working, e);
            && p.outcomes == OutcomesAmong(judge, live, |live|)
            && p.deferred == (set e | e in live && TableVerdict(panes, newest, working, e).Defer? :: e.id)
            && p.suppressed == (set e | e in live && TableVerdict(panes, newest, working, e).Suppress? :: e.id)
  {
    ghost var judge := e => TableVerdict(panes, newest, working, e);
    var outcomes: seq<Outcome>, deferred: set<int>, suppressed: set<int> := [], {}, {};
    for i := 0 to |live|
      invariant outcomes == OutcomesAmong(judge, live, i)
      invariant deferred == set e | e in live[..i] && TableVerdict(panes, newest, working, e).Defer? :: e.id
      invariant suppressed == set e | e in live[..i] && TableVerdict(panes, newest, working, e).Suppress? :: e.id
    {
      var e := live[i];
      assert live[..i + 1] == live[..i] + [e];
      var kind := OutcomeKindOf(e);
      if IsCompletion(e) && e.terminal.Some? && e.terminal.value in working {
        deferred := deferred + {e.id};
      } else if IsCompletion(e) && e.terminal.Some? && e.terminal.value in newest && e.id < newest[e.terminal.value] {
        suppressed := suppressed + {e.id};
      } else if kind.None? {
        suppressed := suppressed + {e.id};
      } else if e.fallback && HasPaneKey(e) && PaneKey(e) in panes {
        suppressed := suppressed + {e.id};
      } else if kind.value == CompletedOutcome && e.excerpt == "" {
        suppressed := suppressed + {e.id};
      } else {
        outcomes := outcomes + [ToOutcome(e)];
      }
    }
    assert live[..|live|] == live;
    p := Projection(outcomes, deferred, suppressed);
  }

  /** projectAgyOutcomes: splits the candidates into outcomes, deferrals and
      suppressions exactly as VerdictOf judges each event. */
  method ProjectOutcomes(events: seq<Event>, working: set<string>) returns (p: Projection)
    ensures p.outcomes == OutcomesOf(events, working)
    ensures p.deferred == DeferredIds(events, working)
    ensures p.suppressed == SuppressedIds(events, working)
  {
    ghost var judge := Judge(events, working);
    var live, toolUse := SplitToolUse(events, judge);
    var panes := CollectCompletedPanes(live);
    var newest := NewestCompletions(live, panes);
    p := ClassifyLive(live, panes, newest, working);
    forall e | e in live ensures VerdictOf(events, working, e) == TableVerdict(panes, newest, working, e) {
      TablesDecide(events, live, panes, newest, working, e);
    }
    OutcomesAmongPrefix(judge, e => TableVerdict(panes, newest, working, e), live, [], |live|);
    assert live + [] == live;
    p := p.(suppressed := p.suppressed + toolUse);
    JoinToolUse(events, live, working);
  }

  lemma JoinToolUse(events: seq<Event>, live: seq<Event>, working: set<string>)
    requires forall e :: e in live <==> e in events && !InFlightToolUse(e)
    ensures DeferredIds(events, working) == set e | e in live && VerdictOf(events, working, e).Defer? :: e.id
    ensures SuppressedIds(events, working)
         == (set e | e in live && VerdictOf(events, working, e).Suppress? :: e.id) + (set e | e in events && InFlightToolUse(e) :: e.id)
  {
  }

  // ---------------------------------------------------------------------
  // What the projection guarantees
  // ---------------------------------------------------------------------

  /** Each distinct input id lands in exactly one of the three groups. */
  lemma ProjectionPartitions(events: seq<Event>, working: set<string>)
    requires DistinctIds(events)
    ensures PresentedIds(events, working) + DeferredIds(events, working) + SuppressedIds(events, working)
         == set e | e in events :: e.id
    ensures PresentedIds(events, working) !! DeferredIds(events, working) !! SuppressedIds(events, working)
  {
    forall e, f | e in events && f in events && e.id == f.id ensures e == f {
      var i :| 0 <= i < |events| && events[i] == e;
      var j :| 0 <= j < |events| && events[j] == f;
    }
    forall x | x in (set e | e in events :: e.id)
      ensures x in PresentedIds(events, working) + DeferredIds(events, working) + SuppressedIds(events, working)
    {
      var e :| e in events && e.id == x;
      var v := VerdictOf(events, working, e);
      assert v.Present? || v.Defer? || v.Suppress?;
    }
  }

  lemma GreatestUsable(events: seq<Event>, bound: Event) returns (u: Event)
    requires Usable(events, bound)
    ensures Usable(events, u) && u.terminal == bound.terminal && !HasNewerUsable(events, u)
  {
    var ids := set e | e in events && Usable(events, e) && e.terminal == bound.terminal :: e.id;
    assert bound.id in ids;
    u := bound;
    var todo := set x | x in ids && u.id <= x;
    while HasNewerUsable(events, u)
      invariant Usable(events, u) && u.terminal == bound.terminal
      invariant todo == set x | x in ids && u.id <= x
      decreases todo
    {
      var v :| Usable(events, v) && v.terminal == u.terminal && u.id < v.id;
      assert v.id in ids && u.id in todo;
      u := v;
      var less := set x | x in ids && u.id <= x;
      assert less < todo;
      todo := less;
    }
  }

  /** A terminal gets a completed outcome exactly when it is not working and some
      completion of it is usable; the one it gets is the newest usable one. */
  lemma CompletedOutcomeExactly(events: seq<Event>, working: set<string>, t: string)
    ensures (exists e :: e in events && e.terminal == Some(t) && VerdictOf(events, working, e) == Present(CompletedOutcome))
       <==> (t !in working && exists u :: Usable(events, u) && u.terminal == Some(t))
    ensures forall e | e in events && e.terminal == Some(t) && VerdictOf(events, working, e) == Present(CompletedOutcome) ::
              Usable(events, e) && forall u | Usable(events, u) && u.terminal == Some(t) :: u.id <= e.id
  {
    forall e | e in events && e.terminal == Some(t) && VerdictOf(events, working, e) == Present(CompletedOutcome)
      ensures Usable(events, e) && forall u | Usable(events, u) && u.terminal == Some(t) :: u.id <= e.id
    {
      assert IsCompletion(e);
    }
    if t !in working && exists u :: Usable(events, u) && u.terminal == Some(t) {
      var u :| Usable(events, u) && u.terminal == Some(t);
      var g := GreatestUsable(events, u);
      assert VerdictOf(events, working, g) == Present(CompletedOutcome);
    }
  }

  /** At most one completed outcome per terminal, and none for a working peer, an
      empty text or a mid-tool-call idle. */
  lemma AtMostOneCompletion(events: seq<Event>, working: set<string>, e: Event, f: Event)
    requires DistinctIds(events)
    requires e in events && VerdictOf(events, working, e) == Present(CompletedOutcome)
    requires f in events && VerdictOf(events, working, f) == Present(CompletedOutcome)
    requires e.terminal == f.terminal
    ensures e == f
    ensures e.excerpt != "" && !InFlightToolUse(e) && e.terminal.value !in working
  {
    CompletedOutcomeExactly(events, working, e.terminal.value);
    var i :| 0 <= i < |events| && events[i] == e;
    var j :| 0 <= j < |events| && events[j] == f;
    assert e.id == f.id;
  }

  /** A completion that carries the fallback flag covers itself exactly if its pane and
      generation are known. It is presented only without them, and then exactly if it has a
      terminal that is not working, a text, and no newer usable completion beside it. */
  lemma FallbackCompletionExactly(events: seq<Event>, working: set<string>, e: Event)
    requires e in events && IsCompletion(e) && !InFlightToolUse(e) && e.fallback
    ensures FallbackIsCovered(events, e) <==> HasPaneKey(e)
    ensures VerdictOf(events, working, e).Present? <==>
            && !HasPaneKey(e) && Truthy(e.terminal) && e.terminal.value !in working && e.excerpt != ""
            && !HasNewerUsable(events, e)
  {
    if HasPaneKey(e) {
      assert PaneCompleted(events, e);
    }
  }

  // ---------------------------------------------------------------------
  // What each event becomes, read off its own fields
  // ---------------------------------------------------------------------

  /** Done, or back to idle from work; a toolUse idle is the middle of a turn. */
  predicate Completes(e: Event) {
    e.kind.Done? || (e.kind.Idle? && e.from == "working" && e.stopReason != "toolUse")
  }

  /** It only stands in for a completion of its own pane incarnation that is in the list. */
  ghost predicate StandsIn(events: seq<Event>, e: Event) {
    && e.fallback && e.pane.Some? && e.pane.value != "" && e.generation.Some? && e.generation.value != ""
    && exists c :: c in events && Completes(c) && c.pane == e.pane && c.generation == e.generation
  }

  predicate HasTerminal(e: Event) {
    e.terminal.Some? && e.terminal.value != ""
  }

  lemma StandsInIsCovered(events: seq<Event>, e: Event)
    ensures StandsIn(events, e) <==> FallbackIsCovered(events, e)
  {
    if StandsIn(events, e) {
      var c :| c in events && Completes(c) && c.pane == e.pane && c.generation == e.generation;
      assert PaneKey(c) == PaneKey(e);
    }
    if FallbackIsCovered(events, e) {
      var c :| c in events && !InFlightToolUse(c) && IsCompletion(c) && HasPaneKey(c) && PaneKey(c) == PaneKey(e);
      assert Completes(c) && c.pane == e.pane && c.generation == e.generation;
    }
  }

  /** Every blocked worker, every failure and every discard that is more than a plan waiting
      for its history, or degraded, is presented as what it is, unless it stands in for a
      completion in the list; nothing else that is no completion is. */
  lemma ReportExactly(events: seq<Event>, working: set<string>, e: Event)
    requires e in events && !Completes(e)
    ensures var v, waits := VerdictOf(events, working, e), e.reason == "PLAN_WAITING_HISTORY" || e.reason == "degraded";
            && !v.Defer?
            && (v.Present? <==>
                  && HasTerminal(e) && !StandsIn(events, e)
                  && (e.kind.Blocked? || (e.kind.Failed? && (!waits || e.fallback))
                      || (e.kind.Discarded? && ((e.agent != "" && e.agent != "agy") || !waits || e.fallback))))
            && (v.Present? ==>
                  v.kind == if e.kind.Blocked? then BlockedOutcome
                            else if e.kind.Discarded? && (e.agent == "" || e.agent == "agy") && e.fallback && (waits || e.reason == "PLAN_STALLED")
                            then StalledOutcome
                            else FailedOutcome)
  {
    StandsInIsCovered(events, e);
  }

  /** A completion with a text that takes its terminal's place from older ones. */
  ghost predicate Supplants(events: seq<Event>, u: Event, e: Event) {
    && u in events && Completes(u) && u.terminal == e.terminal && HasTerminal(u) && e.id < u.id
    && u.excerpt != "" && !StandsIn(events, u)
  }

  lemma SupplantsIsNewer(events: seq<Event>, e: Event)
    ensures HasNewerUsable(events, e) <==> exists u :: Supplants(events, u, e)
  {
    forall u ensures Supplants(events, u, e) <==> Usable(events, u) && u.terminal == e.terminal && e.id < u.id {
      StandsInIsCovered(events, u);
    }
  }

  /** A completion waits exactly while its terminal works. Otherwise it is presented, as
      completed, exactly if it has a terminal and a text, does not stand in for another, and
      nothing supplants it. */
  lemma CompletionExactly(events: seq<Event>, working: set<string>, e: Event)
    requires e in events && Completes(e)
    ensures var v := VerdictOf(events, working, e);
            && (v.Defer? <==> e.terminal.Some? && e.terminal.value in working)
            && (v.Present? <==>
                  && HasTerminal(e) && e.terminal.value !in working && e.excerpt != ""
                  && !StandsIn(events, e) && !(exists u :: Supplants(events, u, e)))
            && (v.Present? ==> v.kind == CompletedOutcome)
  {
    StandsInIsCovered(events, e);
    SupplantsIsNewer(events, e);
  }

  /** The outcome o tells of the event e. */
  ghost predicate Tells(o: Outcome, e: Event, verdict: Verdict) {
    verdict == Present(o.kind) && o.id == e.id && Some(o.terminal) == e.terminal && o.text == e.excerpt
  }

  lemma ShownTells(events: seq<Event>, working: set<string>, e: Event)
    requires VerdictOf(events, working, e).Present?
    ensures OutcomeKindOf(e).Some? && Tells(ToOutcome(e), e, VerdictOf(events, working, e))
  {
  }

  /** The batch tells of exactly the presented events, each once, in the order of the list. */
  lemma OutcomesTellExactly(events: seq<Event>, working: set<string>)
    requires forall i, j | 0 <= i < j < |events| :: events[i].id < events[j].id
    ensures var outcomes := OutcomesOf(events, working);
            && (forall e | e in events && VerdictOf(events, working, e).Present? :: exists o :: o in outcomes && Tells(o, e, VerdictOf(events, working, e)))
            && (forall o | o in outcomes :: exists e :: e in events && Tells(o, e, VerdictOf(events, working, e)))
            && InIdOrder(outcomes)
  {
    var judge, outcomes := Judge(events, working), OutcomesOf(events, working);
    forall e | e in events && VerdictOf(events, working, e).Present?
      ensures exists o :: o in outcomes && Tells(o, e, VerdictOf(events, working, e))
    {
      ShownTells(events, working, e);
      var i :| 0 <= i < |events| && events[i] == e;
      assert Shown(judge, events[i]);
      OutcomesAmongMember(judge, events, |events|, ToOutcome(e));
    }
    forall o | o in outcomes ensures exists e :: e in events && Tells(o, e, VerdictOf(events, working, e)) {
      OutcomesAmongMember(judge, events, |events|, o);
      var i :| 0 <= i < |events| && Shown(judge, events[i]) && o == ToOutcome(events[i]);
      ShownTells(events, working, events[i]);
    }
    OutcomesAscend(judge, events, |events|);
  }

  ghost predicate InIdOrder(outcomes: seq<Outcome>) {
    forall i, j | 0 <= i < j < |outcomes| :: outcomes[i].id < outcomes[j].id
  }

  ghost predicate UpTo(outcomes: seq<Outcome>, id: int) {
    forall i | 0 <= i < |outcomes| :: outcomes[i].id <= id
  }

  lemma {:induction false} OutcomesAscend(judge: Event -> Verdict, list: seq<Event>, n: nat)
    requires n <= |list| && forall i, j | 0 <= i < j < |list| :: list[i].id < list[j].id
    ensures InIdOrder(OutcomesAmong(judge, list, n))
    ensures if n == 0 then OutcomesAmong(judge, list, n) == [] else UpTo(OutcomesAmong(judge, list, n), list[n - 1].id)
  {
    if n > 0 {
      OutcomesAscend(judge, list, n - 1);
      var before := OutcomesAmong(judge, list, n - 1);
      assert n > 1 ==> list[n - 2].id < list[n - 1].id;
      assert forall i | 0 <= i < |before| :: before[i].id < list[n - 1].id;
    }
  }
}
