/** Where the races of DeliveryProtocol come from: between the moment a waiter reads the
    file, or re-arms a batch, and the moment it commits what it decided, another process
    changed what the file says of the event. */
module Races {
  import opened Common
  import opened Projection
  import opened WakeView
  import opened HookSpec
  import opened FlushSafety
  import opened OwedEvents
  import opened DeliveryProtocol
  import opened WaiterGenerations

  ghost predicate By(a: Action, waiter: Waiter) {
    OfWaiter(a) && a.waiter == waiter
  }

  /** What the file says of one event. */
  datatype Standing = Standing(retained: bool, delivered: bool, presented: bool)

  ghost function StandingOf(s: Session, x: int): Standing {
    Standing(x in s.retained, x in s.delivered, x in s.presented)
  }

  /** Another process changes the standing of x while the waiter is in an iteration. */
  ghost predicate Disturbs(y: System, a: Action, waiter: Waiter, x: int) {
    waiter in y.memory && !By(a, waiter) && StandingOf(Step(y, a).file, x) != StandingOf(y.file, x)
  }

  // ---------------------------------------------------------------------
  // What a waiter remembers
  // ---------------------------------------------------------------------

  lemma MemoryIsOwn(y: System, a: Action, waiter: Waiter)
    requires !By(a, waiter)
    ensures waiter in Step(y, a).memory <==> waiter in y.memory
    ensures waiter in y.memory ==> Step(y, a).memory[waiter] == y.memory[waiter]
  {
    if (a.PreInvocation? || a.Stop?) && Owns(a) {
      if a.PreInvocation? { OwnedPreInvocation(y, a); } else { OwnedStop(y, a); }
    }
  }

  lemma StageAfter(y: System, a: Action, waiter: Waiter)
    requires Enabled(y, a) && By(a, waiter) && waiter in Step(y, a).memory
    ensures var m := Step(y, a).memory[waiter];
            && (m.stage.Looked? || m.stage.Reread? <==> a.Look?)
            && (a.Look? ==> m.seen == y.file && Step(y, a).file == y.file)
            && (m.stage.Reread? ==> waiter in y.memory && y.memory[waiter].stage.Rearmed? && m.targets == y.memory[waiter].targets)
            && (m.stage.Rearmed? ==> a.RearmBatch? && m.targets == y.memory[waiter].seen.delivered && Step(y, a).file == Rearm(y.file))
            && (m.stage.Empty? ==> a.Poll? && y.memory[waiter].stage.Reread? && m.targets == y.memory[waiter].targets)
            && (m.stage.Checked? ==> a.Check? && !Superseded(y.file, waiter))
  {
  }

  /** The waiter's copy is the file as it was when it last read it, and it has not acted
      since. */
  lemma {:induction false} CopyIsFromLook(states: seq<System>, actions: seq<Action>, k: nat, waiter: Waiter) returns (m: nat)
    requires IsRun(states, actions) && states[0].memory == map[] && k < |states|
    requires waiter in states[k].memory && (states[k].memory[waiter].stage.Looked? || states[k].memory[waiter].stage.Reread?)
    ensures m < k && actions[m] == Look(waiter)
    ensures states[m].file == states[m + 1].file == states[k].memory[waiter].seen
    ensures forall n | m < n < k :: !By(actions[n], waiter) && waiter in states[n].memory
  {
    m := k - 1;
    assert Valid(states[m], actions[m]) && states[m + 1] == Step(states[m], actions[m]);
    if By(actions[m], waiter) {
      StageAfter(states[m], actions[m], waiter);
    } else {
      MemoryIsOwn(states[m], actions[m], waiter);
      m := CopyIsFromLook(states, actions, m, waiter);
    }
  }

  ghost predicate SinceRearm(stage: Stage) {
    stage.Rearmed? || stage.Reread? || stage.Empty?
  }

  /** What the waiter may clear is what its copy had delivered when it re-armed, and since
      then it only read the file and verified. */
  lemma {:induction false} TargetsAreFromRearm(states: seq<System>, actions: seq<Action>, k: nat, waiter: Waiter) returns (m: nat)
    requires IsRun(states, actions) && states[0].memory == map[] && k < |states|
    requires waiter in states[k].memory && SinceRearm(states[k].memory[waiter].stage)
    ensures m < k && actions[m] == RearmBatch(waiter) && waiter in states[m].memory
    ensures states[m + 1].file == Rearm(states[m].file)
    ensures states[k].memory[waiter].targets == states[m].memory[waiter].seen.delivered
    ensures forall n | m < n < k :: waiter in states[n].memory && (By(actions[n], waiter) ==> actions[n].Look? || actions[n].Poll?)
  {
    m := k - 1;
    assert Valid(states[m], actions[m]) && states[m + 1] == Step(states[m], actions[m]);
    if By(actions[m], waiter) {
      StageAfter(states[m], actions[m], waiter);
      if !states[k].memory[waiter].stage.Rearmed? {
        m := TargetsAreFromRearm(states, actions, m, waiter);
      }
    } else {
      MemoryIsOwn(states[m], actions[m], waiter);
      m := TargetsAreFromRearm(states, actions, m, waiter);
    }
  }

  // ---------------------------------------------------------------------
  // The disturbing step
  // ---------------------------------------------------------------------

  lemma {:induction false} SomeStepChanged(states: seq<System>, x: int, i: nat, j: nat) returns (n: nat)
    requires i <= j < |states| && StandingOf(states[i].file, x) != StandingOf(states[j].file, x)
    ensures i <= n < j && StandingOf(states[n].file, x) != StandingOf(states[n + 1].file, x)
    decreases j - i
  {
    if StandingOf(states[i].file, x) != StandingOf(states[i + 1].file, x) {
      n := i;
    } else {
      n := SomeStepChanged(states, x, i + 1, j);
    }
  }

  /** A waiter's copy that says something else of x than the file does was overtaken. */
  lemma CopyIsOvertaken(states: seq<System>, actions: seq<Action>, k: nat, waiter: Waiter, x: int) returns (m: nat, n: nat)
    requires IsRun(states, actions) && states[0].memory == map[] && k < |states|
    requires waiter in states[k].memory && (states[k].memory[waiter].stage.Looked? || states[k].memory[waiter].stage.Reread?)
    requires StandingOf(states[k].memory[waiter].seen, x) != StandingOf(states[k].file, x)
    ensures m < n < k && actions[m] == Look(waiter) && Disturbs(states[n], actions[n], waiter, x)
    ensures forall i | m < i < k :: !By(actions[i], waiter)
  {
    m := CopyIsFromLook(states, actions, k, waiter);
    n := SomeStepChanged(states, x, m + 1, k);
    assert states[n + 1] == Step(states[n], actions[n]);
  }

  lemma StaleDiffers(seen: Session, file: Session, cursor: int, conn: Conn, x: int)
    requires Stale(seen, file, conn, x) && Owed(file, cursor, x)
    ensures StandingOf(seen, x) != StandingOf(file, x)
  {
  }

  /** A poll loses an event only if, between the waiter's last look and this poll, another
      process changed what the file says of it. */
  lemma PollRaceIsDisturbed(states: seq<System>, actions: seq<Action>, k: nat, x: int) returns (m: nat, n: nat)
    requires IsRun(states, actions) && states[0].memory == map[] && k < |actions|
    requires actions[k].Poll? && OwedAt(states[k], x) && RaceLoses(states[k], actions[k], x)
    ensures m < n < k && actions[m] == Look(actions[k].waiter) && Disturbs(states[n], actions[n], actions[k].waiter, x)
  {
    assert Valid(states[k], actions[k]);
    StaleDiffers(states[k].memory[actions[k].waiter].seen, states[k].file, states[k].cursor, actions[k].pollConn, x);
    m, n := CopyIsOvertaken(states, actions, k, actions[k].waiter, x);
  }

  ghost predicate Clearable(y: System, x: int) {
    x in y.file.delivered && x in y.file.presented
  }

  lemma {:induction false} SomeStepMadeClearable(states: seq<System>, x: int, i: nat, j: nat) returns (n: nat)
    requires i <= j < |states| && !Clearable(states[i], x) && Clearable(states[j], x)
    ensures i <= n < j && !Clearable(states[n], x) && Clearable(states[n + 1], x)
    decreases j - i
  {
    if Clearable(states[i + 1], x) {
      n := i;
    } else {
      n := SomeStepMadeClearable(states, x, i + 1, j);
    }
  }

  lemma WritePresents(seen: Session, file: Session, conn: Conn, eligible: Records, deferred: set<int>, t: Settling, hasOutcomes: bool,
                      waiter: Waiter, x: int)
    requires x in PeekWrite(seen, file, conn, eligible, deferred, t, hasOutcomes, waiter).file.presented && x !in file.presented
    ensures x in t.presented
  {
  }

  lemma SettlingPresentsOnly(list: seq<Event>, working: set<string>, bound: set<int>, presented: set<int>, cursor: int, replies: Replies)
    ensures PeekSettling(list, working, bound, presented, cursor, replies).presented <= presented + SuppressedIds(list, working)
  {
    if OutcomesOf(list, working) == [] {
      SortedIdsList(SuppressedIds(list, working));
      SettleFromStart(Settling(presented, {}, {}, cursor), SortedIds(SuppressedIds(list, working)),
                      LowestId(DeferredIds(list, working) + bound), replies);
    }
  }

  /** What a peek newly presents its copy held so, or it judged suppressed. */
  lemma PeekPresents(seen: Session, file: Session, cursor: int, conn: Conn, view: Option<PeerView>, waiter: Waiter, replies: Replies, x: int)
    requires x in Peek(seen, file, cursor, conn, view, waiter, replies).file.presented && x !in file.presented
    ensures x in seen.presented || JudgedSuppressed(seen, conn, view, x)
  {
    if CandidateMap(seen, conn, view) == map[] {
      PeekWithoutCandidates(seen, file, cursor, conn, view, waiter, replies);
    } else {
      var list, bound, presented := CandidateList(seen, conn, view), seen.delivered + file.delivered, PresentedAbove(seen, conn);
      var t := PeekSettling(list, Working(view), bound, presented, cursor, replies);
      SettlingPresentsOnly(list, Working(view), bound, presented, cursor, replies);
      WritePresents(seen, file, conn, Eligible(conn, seen.retained, view), DeferredIds(list, Working(view)), t,
                    OutcomesOf(list, Working(view)) != [], waiter, x);
    }
  }

  lemma PeekDelivers(seen: Session, file: Session, cursor: int, conn: Conn, view: Option<PeerView>, waiter: Waiter, replies: Replies)
    ensures Peek(seen, file, cursor, conn, view, waiter, replies).file.delivered <= file.delivered
  {
    if CandidateMap(seen, conn, view) == map[] {
      PeekWithoutCandidates(seen, file, cursor, conn, view, waiter, replies);
    }
  }

  /** The waiter's own verification makes x clearable only by suppressing it, or from a
      copy that was overtaken since look m. */
  lemma OwnStepMadeClearable(states: seq<System>, actions: seq<Action>, n: nat, waiter: Waiter, x: int) returns (m: nat, d: nat)
    requires IsRun(states, actions) && states[0].memory == map[] && n < |actions|
    requires By(actions[n], waiter) && (actions[n].Look? || actions[n].Poll?)
    requires !Clearable(states[n], x) && Clearable(states[n + 1], x)
    ensures Suppresses(states[n], actions[n], waiter, x)
            || (m < d < n && Disturbs(states[d], actions[d], waiter, x)
                && actions[m] == Look(waiter) && forall i | m < i < n :: !By(actions[i], waiter))
  {
    var y, a := states[n], actions[n];
    assert Valid(y, a) && states[n + 1] == Step(y, a);
    m, d := n, n;
    assert a.Poll? && Owns(a);
    PollIsPeek(y, a);
    var seen := y.memory[waiter].seen;
    PeekDelivers(seen, y.file, y.cursor, a.pollConn, a.view, waiter, a.replies);
    PeekPresents(seen, y.file, y.cursor, a.pollConn, a.view, waiter, a.replies, x);
    if x in seen.presented {
      m, d := CopyIsOvertaken(states, actions, n, waiter, x);
    }
  }

  /** The waiter's own peek judges x suppressed. */
  ghost predicate Suppresses(y: System, a: Action, waiter: Waiter, x: int) {
    a.Poll? && Owns(a) && a.waiter == waiter && waiter in y.memory && JudgedSuppressed(y.memory[waiter].seen, a.pollConn, a.view, x)
  }

  lemma RearmedIsNotClearable(y: System, before: Session, x: int)
    requires y.file == Rearm(before)
    ensures !Clearable(y, x)
  {
  }

  lemma ClearRaceIsClearable(y: System, a: Action, x: int)
    requires a.Clear? && Valid(y, a) && RaceLoses(y, a, x)
    ensures Clearable(y, x) && a.waiter in y.memory && y.memory[a.waiter].stage.Empty?
  {
  }

  lemma MadeClearableDisturbs(y: System, a: Action, waiter: Waiter, x: int)
    requires waiter in y.memory && !By(a, waiter) && !Clearable(y, x) && Clearable(Step(y, a), x)
    ensures Disturbs(y, a, waiter, x)
  {
  }

  /** Clearing loses an event only if another process changed what the file says of it since
      the re-arm, or the waiter's own verification suppressed it. */
  lemma ClearRaceIsDisturbed(states: seq<System>, actions: seq<Action>, k: nat, x: int) returns (m: nat, n: nat)
    requires IsRun(states, actions) && states[0].memory == map[] && k < |actions|
    requires actions[k].Clear? && RaceLoses(states[k], actions[k], x)
    ensures m < n < k && actions[m] == RearmBatch(actions[k].waiter)
    ensures Disturbs(states[n], actions[n], actions[k].waiter, x) || Suppresses(states[n], actions[n], actions[k].waiter, x)
  {
    var w := actions[k].waiter;
    assert Valid(states[k], actions[k]);
    ClearRaceIsClearable(states[k], actions[k], x);
    m := TargetsAreFromRearm(states, actions, k, w);
    RearmedIsNotClearable(states[m + 1], states[m].file, x);
    n := SomeStepMadeClearable(states, x, m + 1, k);
    n := WhoMadeClearable(states, actions, m, n, w, x);
  }

  lemma WhoMadeClearable(states: seq<System>, actions: seq<Action>, m: nat, n: nat, waiter: Waiter, x: int) returns (d: nat)
    requires IsRun(states, actions) && states[0].memory == map[] && m < n < |actions| && actions[m] == RearmBatch(waiter)
    requires waiter in states[n].memory && (By(actions[n], waiter) ==> actions[n].Look? || actions[n].Poll?)
    requires !Clearable(states[n], x) && Clearable(states[n + 1], x)
    ensures m < d <= n
    ensures Disturbs(states[d], actions[d], waiter, x) || Suppresses(states[d], actions[d], waiter, x)
  {
    d := n;
    assert states[n + 1] == Step(states[n], actions[n]);
    if !By(actions[n], waiter) {
      MadeClearableDisturbs(states[n], actions[n], waiter, x);
    } else {
      var look, e := OwnStepMadeClearable(states, actions, n, waiter, x);
      if !Suppresses(states[n], actions[n], waiter, x) {
        assert By(actions[m], waiter);
        assert look >= m;
        d := e;
      }
    }
  }

  // ---------------------------------------------------------------------
  // Within one turn
  // ---------------------------------------------------------------------

  lemma FollowsFrom(states: seq<System>, actions: seq<Action>)
    requires IsRun(states, actions)
    ensures Follows(states, actions)
  {
  }

  /** A waiter that is in an iteration is not of a turn still to come. */
  lemma {:induction false} MemoryIsOfThePast(states: seq<System>, actions: seq<Action>, k: nat, waiter: Waiter)
    requires IsRun(states, actions) && states[0].memory == map[] && states[0].file.turnEpoch.Some?
    requires k < |states| && waiter in states[k].memory
    ensures waiter.epoch <= TurnNumber(states[k].file)
  {
    assert k > 0;
    var p := k - 1;
    assert Valid(states[p], actions[p]) && states[p + 1] == Step(states[p], actions[p]);
    FollowsFrom(states, actions);
    EpochsNeverFall(states, actions, 0, p);
    StepEpochs(states[p], actions[p]);
    if waiter in states[p].memory {
      MemoryIsOfThePast(states, actions, p, waiter);
    } else {
      NewMemoryIsOfThisTurn(states[p], actions[p], waiter);
    }
  }

  lemma NewMemoryIsOfThisTurn(y: System, a: Action, waiter: Waiter)
    requires Valid(y, a) && y.file.turnEpoch.Some? && waiter !in y.memory && waiter in Step(y, a).memory
    ensures a.Look? && waiter.epoch == TurnNumber(y.file)
  {
    if !By(a, waiter) {
      MemoryIsOwn(y, a, waiter);
    }
  }

  /** While a waiter that is in an iteration at step i is still not superseded at step k,
      no step in between begins a turn or parks a new waiter: what overtakes it is a Stop
      that keeps no waiter, an abnormal Stop, an invocation of the turn that runs, or
      another waiter. */
  lemma RaceStaysInTurn(states: seq<System>, actions: seq<Action>, i: nat, n: nat, k: nat, waiter: Waiter)
    requires IsRun(states, actions) && states[0].memory == map[] && states[0].file.turnEpoch.Some?
    requires i <= n < k < |states| && waiter in states[i].memory && !Superseded(states[k].file, waiter)
    ensures TurnNumber(states[n].file) == TurnNumber(states[n + 1].file) == waiter.epoch
    ensures actions[n].PreInvocation? ==> !states[n].file.awaiting && !actions[n].newTurn
    ensures actions[n].Stop? && Owns(actions[n]) ==> !actions[n].keepWaiter
  {
    FollowsFrom(states, actions);
    MemoryIsOfThePast(states, actions, i, waiter);
    EpochsNeverFall(states, actions, 0, k);
    EpochsNeverFall(states, actions, i, n);
    EpochsNeverFall(states, actions, n, n + 1);
    EpochsNeverFall(states, actions, n + 1, k);
    TurnStands(states[n], actions[n]);
  }

  lemma TurnStands(y: System, a: Action)
    requires TurnNumber(y.file) == TurnNumber(Step(y, a).file)
    ensures a.PreInvocation? ==> !y.file.awaiting && !a.newTurn
    ensures a.Stop? && Owns(a) ==> !a.keepWaiter
  {
    if (a.PreInvocation? || a.Stop?) && Owns(a) {
      OwnedTurnGeneration(y, a);
    }
  }

  /** The check behind a re-arm: the waiter was not superseded then, and has done nothing
      since. */
  lemma {:induction false} CheckIsBehindRearm(states: seq<System>, actions: seq<Action>, k: nat, waiter: Waiter) returns (m: nat)
    requires IsRun(states, actions) && states[0].memory == map[] && k < |states|
    requires waiter in states[k].memory && states[k].memory[waiter].stage.Checked?
    ensures m < k && actions[m] == Check(waiter) && !Superseded(states[m].file, waiter)
    ensures forall i | m < i < k :: !By(actions[i], waiter)
  {
    m := k - 1;
    assert Valid(states[m], actions[m]) && states[m + 1] == Step(states[m], actions[m]);
    if By(actions[m], waiter) {
      StageAfter(states[m], actions[m], waiter);
    } else {
      MemoryIsOwn(states[m], actions[m], waiter);
      m := CheckIsBehindRearm(states, actions, m, waiter);
    }
  }

  /** A waiter that a turn has passed re-arms at most once more, and by
      SupersededWaiterWritesNothing that is all it still writes. */
  lemma PastWaiterRearmsOnce(states: seq<System>, actions: seq<Action>, i: nat, j: nat, k: nat, waiter: Waiter)
    requires IsRun(states, actions) && states[0].memory == map[] && i <= j < |actions| && i <= k < |actions|
    requires states[i].file.turnEpoch.Some? && waiter.epoch < states[i].file.turnEpoch.value
    requires actions[j] == RearmBatch(waiter) && actions[k] == RearmBatch(waiter)
    ensures j == k
  {
    var a, b := if j < k then j else k, if j < k then k else j;
    assert Valid(states[b], actions[b]);
    FollowsFrom(states, actions);
    var m := CheckIsBehindRearm(states, actions, b, waiter);
    if a < b {
      assert By(actions[a], waiter);
      OldWaiterStaysSuperseded(states, actions, i, m, waiter);
      assert false;
    }
  }

  // ---------------------------------------------------------------------
  // Runs without disturbance
  // ---------------------------------------------------------------------

  lemma SuppressingIsExcused(y: System, a: Action, waiter: Waiter, x: int)
    requires Suppresses(y, a, waiter, x)
    ensures Excused(y, a, x)
  {
  }

  /** In a run of n steps some step had a reason to let x go, or another process changed
      what the file says of x while a waiter was in an iteration. */
  ghost predicate LetGoOrDisturbed(states: seq<System>, actions: seq<Action>, j: nat, x: int)
    requires IsRun(states, actions) && j <= |actions|
  {
    || (exists k :: 0 <= k < j && Excused(states[k], actions[k], x))
    || (exists k, w :: 0 <= k < j && Disturbs(states[k], actions[k], w, x))
  }

  lemma RaceIsDisturbed(states: seq<System>, actions: seq<Action>, k: nat, x: int)
    requires IsRun(states, actions) && states[0].memory == map[] && k < |actions|
    requires OwedAt(states[k], x) && RaceLoses(states[k], actions[k], x)
    ensures LetGoOrDisturbed(states, actions, k, x)
  {
    var m, n;
    if actions[k].Poll? {
      m, n := PollRaceIsDisturbed(states, actions, k, x);
    } else {
      m, n := ClearRaceIsDisturbed(states, actions, k, x);
      if !Disturbs(states[n], actions[n], actions[k].waiter, x) {
        SuppressingIsExcused(states[n], actions[n], actions[k].waiter, x);
      }
    }
  }

  /** Over every run that starts between the waiters' iterations: an owed event stays owed
      unless a step had a reason to let it go, or another process changed what the file
      says of it in the middle of an iteration. */
  lemma {:induction false} UndisturbedRunLosesNothing(states: seq<System>, actions: seq<Action>, j: nat, x: int)
    requires IsRun(states, actions) && states[0].memory == map[] && j < |states|
    requires OwedAt(states[0], x)
    ensures OwedAt(states[j], x) || LetGoOrDisturbed(states, actions, j, x)
  {
    if j > 0 {
      var y, a := states[j - 1], actions[j - 1];
      assert Valid(y, a) && states[(j - 1) + 1] == Step(y, a);
      UndisturbedRunLosesNothing(states, actions, j - 1, x);
      if OwedAt(y, x) && !Excused(y, a, x) {
        StepKeepsOwedExactly(y, a, x);
        if RaceLoses(y, a, x) {
          RaceIsDisturbed(states, actions, j - 1, x);
        }
      }
    }
  }
}
