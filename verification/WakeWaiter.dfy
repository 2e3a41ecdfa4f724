/** The standby waiter: one process per parked turn that polls the daemon and types a
    wake prompt into the host. Between its steps other processes may move the system in
    any way; every point at which the waiter reads or writes the state file therefore takes
    the system it finds there as an input. What the waiter does in between is kept as a
    history of DeliveryProtocol's own steps. */
module WakeWaiter {
  import opened Common
  import opened Projection
  import opened WakeView
  import opened HookSpec
  import opened OwedEvents
  import opened DeliveryProtocol
  import opened HookSession
  import opened WakeAgreement

  const MAX_ATTEMPTS: nat := 3

  /** inspectWorkspaceAgents: ready is the own pane's readiness, None when it is not
      listed. */
  datatype Peers = Peers(ready: Option<bool>, active: bool, any: bool)

  /** What one iteration meets: the system at each point where the waiter reads or writes
      the state file, the daemon's answers (None for a failed call), the composer draft and
      the prompt's success. */
  datatype Iteration = Iteration(
    now: int,
    before: System,
    peers: Option<Peers>,
    pushed: bool,
    latest: Option<Conn>,
    atPeek: System,
    view: Option<PeerView>,
    replies: Replies,
    preTrigger: System,
    draft: bool,
    postRead: System,
    atRearm: System,
    reread: System,
    atVerify: System,
    verifyView: Option<PeerView>,
    verifyReplies: Replies,
    atClear: System,
    promptOk: bool,
    postTrigger: System,
    atExit: System)

  /** The inputs of one peek: the waiter's copy, the state file, the cursor and the
      daemon's answers. */
  datatype Glance = Glance(seen: Session, file: Session, cursor: int, conn: Conn, view: Option<PeerView>, replies: Replies)

  /** One wake prompt: the iteration it belongs to, whether it was typed, the state file
      checked last before it, the look it rests on, and whether that look verified a
      re-armed batch. */
  datatype Prompt = Prompt(at: nat, ok: bool, checked: Session, look: Glance, rearmed: bool)

  ghost predicate HasOutcomes(look: Glance, id: Waiter) {
    Peek(look.seen, look.file, look.cursor, look.conn, look.view, id, look.replies).result.hasOutcomes
  }

  /** The looks that find a batch to hand over. */
  ghost function Fruitful(id: Waiter): iset<Glance> {
    iset look: Glance | HasOutcomes(look, id)
  }

  /** The iteration's poll, on the copy read at its start. */
  function PollGlance(it: Iteration, conn: Conn): Glance {
    Glance(it.before.file, it.atPeek.file, it.atPeek.cursor, conn, it.view, it.replies)
  }

  /** The iteration's verification, on the copy read after its re-arm. */
  function VerifyGlance(it: Iteration, conn: Conn): Glance {
    Glance(it.reread.file, it.atVerify.file, it.atVerify.cursor, conn, it.verifyView, it.verifyReplies)
  }

  /** The prompt belongs to the iteration it: no draft was in the composer, the generation
      was the waiter's at the last check before it, the scope was owned, and the look of the
      same iteration that it rests on had outcomes. That look is the verification exactly if
      a batch was delivered already when the iteration began. */
  ghost predicate Justified(p: Prompt, it: Iteration, id: Waiter, fruitful: iset<Glance>) {
    && p.ok == it.promptOk && !it.draft
    && p.checked == it.postRead.file && !Superseded(p.checked, id)
    && it.latest == Some(p.look.conn) && IsLocalOwner(p.look.conn)
    && p.look == (if p.rearmed then VerifyGlance(it, p.look.conn) else PollGlance(it, p.look.conn))
    && p.look in fruitful
    && (p.rearmed <==> it.before.file.delivered != {})
  }

  // ---------------------------------------------------------------------
  // When an iteration must type a prompt
  // ---------------------------------------------------------------------

  ghost predicate HasDeferred(look: Glance, id: Waiter) {
    Peek(look.seen, look.file, look.cursor, look.conn, look.view, id, look.replies).result.hasDeferred
  }

  /** The looks that find a completion whose peer still works. */
  ghost function Deferring(id: Waiter): iset<Glance> {
    iset look: Glance | HasDeferred(look, id)
  }

  /** The waiter may poll in the iteration, and its poll is not superseded: the turn and the
      recorded waiter are its own when the iteration begins, its pane is ready, or was never
      listed, and the terminal still owns the scope. */
  ghost predicate CanPoll(it: Iteration, id: Waiter, first: bool, sawSelf: bool) {
    !MustStop(it, id, first) && PaneReady(it, sawSelf) && PollsOn(it, id)
  }

  ghost predicate PaneReady(it: Iteration, sawSelf: bool) {
    it.peers.Some? && (it.peers.value.ready == Some(true) || (it.peers.value.ready.None? && !sawSelf))
  }

  ghost predicate PollsOn(it: Iteration, id: Waiter) {
    it.latest.Some? && IsLocalOwner(it.latest.value) && !Superseded(it.atPeek.file, id)
  }

  /** What is left from earlier iterations that calls for a poll: the first look, a
      notification, a retry, the grace poll of a delivered batch. */
  datatype Calls = Calls(first: bool, pushed: bool, retry: bool, grace: bool)

  predicate Waiting(c: Calls) {
    c.first || c.pushed || c.retry || c.grace
  }

  /** Something in the iteration itself calls for a poll: a notification, no active peer, or a
      batch that waits for its confirmation. */
  ghost predicate CallsForPoll(it: Iteration)
    requires it.peers.Some?
  {
    it.pushed || !it.peers.value.active || it.before.file.delivered != {}
  }

  /** Nothing stands between the poll and the prompt: the generation still stands before and
      after the composer is read, and there is no draft in it. */
  ghost predicate WayIsClear(it: Iteration, id: Waiter) {
    !TurnMoved(it.preTrigger.file, id) && !it.draft && !Superseded(it.postRead.file, id)
  }

  /** The iteration has something to wake the host for: a fresh batch; or a batch that was
      delivered before, after its grace poll unless there are outcomes beside it, and only if
      the verification finds it injectable. */
  ghost predicate WorthWaking(it: Iteration, fruitful: iset<Glance>, grace: bool)
    requires it.latest.Some?
  {
    if it.before.file.delivered == {} then PollGlance(it, it.latest.value) in fruitful
    else (grace || PollGlance(it, it.latest.value) in fruitful) && VerifyGlance(it, it.latest.value) in fruitful
  }

  /** What the iteration must type a prompt for, once it has polled; grace says whether a
      delivered batch had its grace poll. */
  ghost predicate Due(it: Iteration, grace: bool, id: Waiter, fruitful: iset<Glance>) {
    WayIsClear(it, id) && it.latest.Some? && WorthWaking(it, fruitful, grace)
  }

  /** What the waiter leaves in the file after a prompt that was typed: it takes itself off the
      record, unless the turn the prompt started moved on already. */
  function PromptedFile(it: Iteration, id: Waiter): Session {
    if TurnMoved(it.postTrigger.file, id) || it.postTrigger.file.waiterPid != Some(id.pid) then it.postTrigger.file
    else it.postTrigger.file.(waiterPid := None)
  }

  ghost predicate PromptedAt(prompts: seq<Prompt>, k: nat) {
    exists j :: 0 <= j < |prompts| && prompts[j].at == k
  }

  /** The k-th iteration finds a fresh batch and nothing in its way. */
  ghost predicate FindsFresh(it: Iteration, k: nat, id: Waiter, fruitful: iset<Glance>) {
    && it.before.file.delivered == {} && CanPoll(it, id, k == 0, true) && (k == 0 || CallsForPoll(it)) && WayIsClear(it, id)
    && PollGlance(it, it.latest.value) in fruitful
  }

  /** The k-th iteration finds a batch that was delivered before, injectable again, and nothing
      in its way. */
  ghost predicate FindsDelivered(it: Iteration, k: nat, id: Waiter, fruitful: iset<Glance>) {
    && it.before.file.delivered != {} && CanPoll(it, id, k == 0, true) && WayIsClear(it, id)
    && VerifyGlance(it, it.latest.value) in fruitful
  }

  /** Every fresh batch the first n iterations find is prompted for in that iteration, every
      delivered one in that iteration or the next. */
  ghost predicate NoneSlept(prompts: seq<Prompt>, iterations: seq<Iteration>, n: nat, id: Waiter, fruitful: iset<Glance>)
    requires n <= |iterations|
  {
    && (forall k | 0 <= k < n && FindsFresh(iterations[k], k, id, fruitful) :: PromptedAt(prompts, k))
    && (forall k | 0 < k < n && FindsDelivered(iterations[k - 1], k - 1, id, fruitful) && FindsDelivered(iterations[k], k, id, fruitful) ::
          PromptedAt(prompts, k - 1) || PromptedAt(prompts, k))
  }

  /** A fresh batch that is found is due, whatever the waiter remembers. */
  lemma FreshIsDue(it: Iteration, k: nat, id: Waiter, fruitful: iset<Glance>, sawSelf: bool, waiting: bool, grace: bool)
    requires FindsFresh(it, k, id, fruitful) && (k == 0 ==> waiting)
    ensures CanPoll(it, id, k == 0, sawSelf) && (waiting || CallsForPoll(it)) && Due(it, grace, id, fruitful)
  {
  }

  /** A delivered batch that is found is due at the latest after its grace poll. */
  lemma DeliveredIsDue(it: Iteration, k: nat, id: Waiter, fruitful: iset<Glance>, sawSelf: bool, grace: bool)
    requires FindsDelivered(it, k, id, fruitful)
    ensures CanPoll(it, id, k == 0, sawSelf) && CallsForPoll(it)
    ensures grace || PollGlance(it, it.latest.value) in fruitful ==> Due(it, grace, id, fruitful)
  {
  }

  lemma NoneSleptGrows(before: seq<Prompt>, after: seq<Prompt>, iterations: seq<Iteration>, n: nat, id: Waiter, fruitful: iset<Glance>,
                       justified: iset<(Prompt, Iteration)>)
    requires n < |iterations| && NoneSlept(before, iterations, n, id, fruitful)
    requires Grown(before, after, iterations[n], n, justified)
    requires FindsFresh(iterations[n], n, id, fruitful) ==> |after| > |before|
    requires n > 0 && FindsDelivered(iterations[n - 1], n - 1, id, fruitful) && FindsDelivered(iterations[n], n, id, fruitful) ==>
               PromptedAt(before, n - 1) || |after| > |before|
    ensures NoneSlept(after, iterations, n + 1, id, fruitful)
  {
    forall k | PromptedAt(before, k) ensures PromptedAt(after, k) {
      var j :| 0 <= j < |before| && before[j].at == k;
      assert after[..|before|][j] == before[j];
    }
    if |after| > |before| {
      assert after[|before|].at == n;
    }
  }

  /** Every prompt is justified by an iteration of its own among the first n, in order. */
  ghost predicate AllJustified(prompts: seq<Prompt>, iterations: seq<Iteration>, n: nat, justified: iset<(Prompt, Iteration)>)
    requires n <= |iterations|
  {
    && (forall k | 0 <= k < |prompts| :: prompts[k].at < n && (prompts[k], iterations[prompts[k].at]) in justified)
    && (forall j, k | 0 <= j < k < |prompts| :: prompts[j].at < prompts[k].at)
  }

  /** The prompts after one more iteration: none more, or one that belongs to it. */
  ghost predicate Grown(before: seq<Prompt>, after: seq<Prompt>, it: Iteration, at: nat, justified: iset<(Prompt, Iteration)>) {
    || after == before
    || (|after| == |before| + 1 && after[..|before|] == before && after[|before|].at == at && after[|before|].ok == it.promptOk && (after[|before|], it) in justified)
  }

  lemma JustifiedStays(before: seq<Prompt>, after: seq<Prompt>, iterations: seq<Iteration>, n: nat, justified: iset<(Prompt, Iteration)>)
    requires n < |iterations| && AllJustified(before, iterations, n, justified)
    requires Grown(before, after, iterations[n], n, justified)
    ensures AllJustified(after, iterations, n + 1, justified)
  {
    forall k | 0 <= k < |before| ensures after[k] == before[k] {
      assert after[..|before|][k] == before[k];
    }
  }

  /** An iteration that typed a prompt exactly if it polled and one was due keeps up. */
  lemma PromptsKeepUp(before: seq<Prompt>, after: seq<Prompt>, iterations: seq<Iteration>, k: nat, id: Waiter, fruitful: iset<Glance>,
                      justified: iset<(Prompt, Iteration)>, was: Calls, saw: bool, grace: bool, goesOn: bool)
    requires k < |iterations| && NoneSlept(before, iterations, k, id, fruitful) && Grown(before, after, iterations[k], k, justified)
    requires (k == 0 ==> was.first)
    requires k > 0 && FindsDelivered(iterations[k - 1], k - 1, id, fruitful) && !PromptedAt(before, k - 1) ==> was.grace
    requires var it := iterations[k];
             var polls := CanPoll(it, id, k == 0, saw) && (Waiting(was) || CallsForPoll(it));
             && (|after| > |before| <==> polls && Due(it, was.grace, id, fruitful))
             && (goesOn && polls && it.before.file.delivered != {} && PollGlance(it, it.latest.value) !in fruitful && !was.grace ==> grace)
    ensures NoneSlept(after, iterations, k + 1, id, fruitful)
    ensures goesOn && FindsDelivered(iterations[k], k, id, fruitful) && !PromptedAt(after, k) ==> grace
  {
    if FindsFresh(iterations[k], k, id, fruitful) {
      FreshIsDue(iterations[k], k, id, fruitful, saw, Waiting(was), was.grace);
    }
    if FindsDelivered(iterations[k], k, id, fruitful) {
      DeliveredIsDue(iterations[k], k, id, fruitful, saw, was.grace);
    }
    NoneSleptGrows(before, after, iterations, k, id, fruitful, justified);
    assert |after| > |before| ==> after[|before|].at == k;
  }

  // ---------------------------------------------------------------------
  // The history of a waiter
  // ---------------------------------------------------------------------

  datatype Move = Own(action: Action) | Others

  ghost predicate OwnAction(y: System, a: Action, id: Waiter) {
    || (OfWaiter(a) && a.waiter == id && Enabled(y, a))
    || (a == RecordWaiterPid(None) && y.file.waiterPid == Some(id.pid))
  }

  /** An own move is a step of the protocol; others leave the waiter's memory alone. */
  ghost predicate Moves(y: System, m: Move, z: System, id: Waiter) {
    match m
    case Own(a) => OwnAction(y, a, id) && z == Step(y, a)
    case Others => (id in z.memory <==> id in y.memory) && (id in y.memory ==> z.memory[id] == y.memory[id])
  }

  /** The systems a waiter left and found, and the moves between them. */
  datatype History = History(states: seq<System>, moves: seq<Move>)

  ghost predicate Linked(h: History, id: Waiter) {
    && |h.states| == |h.moves| + 1
    && forall k | 0 <= k < |h.moves| :: Moves(h.states[k], h.moves[k], h.states[k + 1], id)
  }

  function Last(h: History): System
    requires h.states != []
  {
    h.states[|h.states| - 1]
  }

  function Extended(h: History, m: Move, z: System): History {
    History(h.states + [z], h.moves + [m])
  }

  lemma LinkedExtends(h: History, m: Move, z: System, id: Waiter)
    requires Linked(h, id) && Moves(Last(h), m, z, id)
    ensures Linked(Extended(h, m, z), id)
  {
    var e := Extended(h, m, z);
    forall k | 0 <= k < |e.moves| ensures Moves(e.states[k], e.moves[k], e.states[k + 1], id) {
      assert k < |h.moves| ==> e.moves[k] == h.moves[k] && e.states[k] == h.states[k] && e.states[k + 1] == h.states[k + 1];
    }
  }

  /** The waiter checked its generation on this file. */
  ghost predicate IsCheck(y: System, m: Move, s: Session, id: Waiter) {
    m == Own(Check(id)) && y.file == s
  }

  /** The waiter peeked at this; rearmed says whether it was the verification of a batch it
      had re-armed. */
  ghost predicate IsPeek(y: System, m: Move, look: Glance, rearmed: bool, id: Waiter) {
    && m == Own(Poll(id, look.conn, look.view, look.replies))
    && id in y.memory && y.memory[id].seen == look.seen && y.file == look.file && y.cursor == look.cursor
    && (rearmed <==> y.memory[id].stage.Reread?)
  }

  ghost predicate HasCheck(h: History, s: Session, id: Waiter)
    requires |h.states| == |h.moves| + 1
  {
    exists k :: 0 <= k < |h.moves| && IsCheck(h.states[k], h.moves[k], s, id)
  }

  ghost predicate HasPeek(h: History, look: Glance, rearmed: bool, id: Waiter)
    requires |h.states| == |h.moves| + 1
  {
    exists k :: 0 <= k < |h.moves| && IsPeek(h.states[k], h.moves[k], look, rearmed, id)
  }

  datatype Peeking = Peeking(look: Glance, rearmed: bool)

  /** A history from this system, with files the waiter checked and peeks it made in it. */
  ghost predicate Kept(h: History, checks: iset<Session>, peeks: iset<Peeking>, id: Waiter, start: System) {
    && Linked(h, id) && h.states[0] == start
    && (forall s | s in checks :: HasCheck(h, s, id))
    && (forall p | p in peeks :: HasPeek(h, p.look, p.rearmed, id))
  }

  lemma StartIsKept(id: Waiter, start: System)
    ensures Kept(History([start], []), iset{}, iset{}, id, start)
  {
  }

  /** One more move, which may be one more check or peek. */
  lemma KeptExtends(h: History, checks: iset<Session>, peeks: iset<Peeking>, m: Move, z: System, id: Waiter, start: System,
                    moreChecks: iset<Session>, morePeeks: iset<Peeking>)
    requires Kept(h, checks, peeks, id, start) && Moves(Last(h), m, z, id)
    requires forall s | s in moreChecks :: s in checks || IsCheck(Last(h), m, s, id)
    requires forall p | p in morePeeks :: p in peeks || IsPeek(Last(h), m, p.look, p.rearmed, id)
    ensures Kept(Extended(h, m, z), moreChecks, morePeeks, id, start)
  {
    var e := Extended(h, m, z);
    LinkedExtends(h, m, z, id);
    forall s | s in moreChecks ensures HasCheck(e, s, id) {
      var k := |h.moves|;
      if s in checks {
        k :| 0 <= k < |h.moves| && IsCheck(h.states[k], h.moves[k], s, id);
      }
      assert IsCheck(e.states[k], e.moves[k], s, id);
    }
    forall p | p in morePeeks ensures HasPeek(e, p.look, p.rearmed, id) {
      var k := |h.moves|;
      if p in peeks {
        k :| 0 <= k < |h.moves| && IsPeek(h.states[k], h.moves[k], p.look, p.rearmed, id);
      }
      assert IsPeek(e.states[k], e.moves[k], p.look, p.rearmed, id);
    }
  }

  datatype Next = Continue | Stopped | GaveUp

  datatype Wake = Halt | GoOn | NothingInjectable

  predicate TurnMoved(s: Session, id: Waiter) {
    s.turnEpoch.Some? && s.turnEpoch.value != id.epoch
  }

  predicate PidMoved(s: Session, id: Waiter) {
    s.waiterPid.Some? && s.waiterPid.value != id.pid
  }

  /** The turn moved on before the iteration, or another waiter is recorded. */
  ghost predicate MustStop(it: Iteration, id: Waiter, first: bool) {
    TurnMoved(it.before.file, id) || (!first && PidMoved(it.before.file, id))
  }

  /** Why an iteration may end the loop: a new turn or waiter at one of its reads, the own
      pane or the ownership gone, its last prompt, or idleness where that ends it. */
  ghost predicate MayStop(it: Iteration, id: Waiter, first: bool, sawSelf: bool, prompts: seq<Prompt>, exitWhenNoPeers: bool) {
    || TurnMoved(it.before.file, id) || (!first && PidMoved(it.before.file, id))
    || (sawSelf && it.peers.Some? && it.peers.value.ready.None?)
    || (it.latest.Some? && !IsLocalOwner(it.latest.value))
    || Superseded(it.atPeek.file, id) || TurnMoved(it.preTrigger.file, id)
    || Superseded(it.postRead.file, id) || Superseded(it.atVerify.file, id)
    || (prompts != [] && (prompts[|prompts| - 1].ok || |prompts| == MAX_ATTEMPTS))
    || (exitWhenNoPeers && it.peers.Some? && !it.peers.value.active)
  }

  class WakeWaiter {
    const id: Waiter
    const runner: Runner
    const exitWhenNoPeers: bool
    const settleGrace: nat
    var firstIteration: bool
    var firstEventCheck: bool
    var pushNotification: bool
    var retryWakePending: bool
    var gracePending: bool
    var promptFailures: nat
    var rpcFailures: nat
    var sawActivePeers: bool
    var sawSelf: bool
    var settleDeadline: Option<int>
    var prompts: seq<Prompt>
    ghost const fruitful: iset<Glance>
    ghost const deferring: iset<Glance>
    ghost const due: iset<(Iteration, bool)>
    ghost const justified: iset<(Prompt, Iteration)>
    ghost const logs: iset<(History, iset<Session>, iset<Peeking>)>
    ghost const start: System
    ghost var history: History
    ghost var checks: iset<Session>
    ghost var peeks: iset<Peeking>

    constructor (id: Waiter, runner: Runner, exitWhenNoPeers: bool, settleGrace: nat)
      requires id !in runner.memory
      ensures this.id == id && this.runner == runner && fruitful == Fruitful(id) && prompts == [] && firstIteration && firstEventCheck
      ensures this.exitWhenNoPeers == exitWhenNoPeers
      ensures Running() && Between() && Knows() && start == runner.System()
    {
      this.id, this.runner, this.exitWhenNoPeers, this.settleGrace := id, runner, exitWhenNoPeers, settleGrace;
      firstIteration, firstEventCheck, pushNotification := true, true, false;
      retryWakePending, gracePending, promptFailures, rpcFailures := false, false, 0, 0;
      sawActivePeers, sawSelf, settleDeadline, prompts := false, false, None, [];
      fruitful, deferring := Fruitful(id), Deferring(id);
      due := iset it: Iteration, grace: bool | Due(it, grace, id, Fruitful(id)) :: (it, grace);
      justified := iset p: Prompt, it: Iteration | Justified(p, it, id, Fruitful(id)) :: (p, it);
      start, history, checks, peeks := runner.System(), History([runner.System()], []), iset{}, iset{};
      logs := iset h: History, c: iset<Session>, p: iset<Peeking> | Kept(h, c, p, id, runner.System()) :: (h, c, p);
      new;
      StartIsKept(id, start);
    }

    /** What the sets of looks, prompts and logs hold. */
    ghost predicate Knows() {
      && (forall look {:trigger HasOutcomes(look, id)} :: HasOutcomes(look, id) <==> look in fruitful)
      && (forall look {:trigger HasDeferred(look, id)} :: HasDeferred(look, id) <==> look in deferring)
      && (forall it: Iteration, grace: bool {:trigger Due(it, grace, id, fruitful)} :: (it, grace) in due <==> Due(it, grace, id, fruitful))
      && (forall p, it {:trigger Justified(p, it, id, fruitful)} :: (p, it) in justified <==> Justified(p, it, id, fruitful))
      && (forall h, c, p {:trigger Kept(h, c, p, id, start)} :: (h, c, p) in logs <==> Kept(h, c, p, id, start))
    }

    /** While the loop goes on every prompt so far failed, and there is an attempt left. */
    ghost predicate Running()
      reads this`promptFailures, this`prompts, this`rpcFailures
    {
      && promptFailures == |prompts| < MAX_ATTEMPTS && rpcFailures < MAX_ATTEMPTS
      && (forall k | 0 <= k < |prompts| :: !prompts[k].ok)
    }

    ghost predicate Ended()
      reads this`prompts
    {
      && |prompts| <= MAX_ATTEMPTS
      && (forall k | 0 <= k < |prompts| :: prompts[k].ok ==> k == |prompts| - 1)
    }

    /** The history is one of own steps and moves of others, it ends where the system is,
        and every prompt's check and peek is in it. */
    ghost predicate Tracks()
      reads this`history, this`checks, this`peeks, this`prompts, runner
    {
      && history.states != [] && Last(history) == runner.System() && (history, checks, peeks) in logs
      && forall k | 0 <= k < |prompts| :: prompts[k].checked in checks && Peeking(prompts[k].look, prompts[k].rearmed) in peeks
    }

    /** Not between a re-arm and the read behind it. */
    ghost predicate Between()
      reads this`history, this`checks, this`peeks, this`prompts, runner
    {
      Tracks() && (id in runner.memory ==> !runner.memory[id].stage.Rearmed?)
    }

    ghost predicate At(stage: Stage)
      reads this`history, this`checks, this`peeks, this`prompts, runner
    {
      Tracks() && id in runner.memory && runner.memory[id].stage == stage
    }

    /** At most one prompt was added to the log, and it belongs to this iteration. */
    twostate predicate Logged(it: Iteration, at: nat)
      reads this
    {
      Grown(old(prompts), prompts, it, at, justified)
    }

    /** A prompt was added exactly if that is so, and a typed one ends the waiter's record. */
    ghost predicate Woke(it: Iteration, must: bool, before: seq<Prompt>)
      reads this`prompts, runner
    {
      (|prompts| > |before| <==> must) && (must && it.promptOk ==> runner.file == PromptedFile(it, id))
    }

    ghost predicate Recordable(m: Move)
      reads this`history, this`checks, this`peeks, this`prompts, runner
    {
      && Knows() && history.states != [] && (history, checks, peeks) in logs && Moves(Last(history), m, runner.System(), id)
      && forall k | 0 <= k < |prompts| :: prompts[k].checked in checks && Peeking(prompts[k].look, prompts[k].rearmed) in peeks
    }

    ghost method Record(m: Move)
      requires Recordable(m)
      modifies this`history
      ensures Tracks()
    {
      assert Kept(history, checks, peeks, id, start);
      KeptExtends(history, checks, peeks, m, runner.System(), id, start, checks, peeks);
      history := Extended(history, m, runner.System());
      assert Kept(history, checks, peeks, id, start);
    }

    ghost method RecordCheck(s: Session)
      requires Recordable(Own(Check(id))) && Last(history).file == s
      modifies this`history, this`checks
      ensures Tracks() && checks == old(checks) + iset{s}
    {
      assert Kept(history, checks, peeks, id, start);
      KeptExtends(history, checks, peeks, Own(Check(id)), runner.System(), id, start, checks + iset{s}, peeks);
      history, checks := Extended(history, Own(Check(id)), runner.System()), checks + iset{s};
      assert Kept(history, checks, peeks, id, start);
    }

    ghost method RecordPeek(p: Peeking)
      requires Recordable(Own(Poll(id, p.look.conn, p.look.view, p.look.replies)))
      requires IsPeek(Last(history), Own(Poll(id, p.look.conn, p.look.view, p.look.replies)), p.look, p.rearmed, id)
      modifies this`history, this`peeks
      ensures Tracks() && peeks == old(peeks) + iset{p}
    {
      ghost var m := Own(Poll(id, p.look.conn, p.look.view, p.look.replies));
      assert Kept(history, checks, peeks, id, start);
      KeptExtends(history, checks, peeks, m, runner.System(), id, start, checks, peeks + iset{p});
      history, peeks := Extended(history, m, runner.System()), peeks + iset{p};
      assert Kept(history, checks, peeks, id, start);
    }

    /** Other processes moved on: this is the system now. */
    method Find(world: System)
      requires Knows() && Tracks()
      modifies this`history, runner
      ensures Tracks() && runner.file == world.file && runner.cursor == world.cursor
      ensures id in runner.memory <==> id in old(runner.memory)
      ensures id in runner.memory ==> runner.memory[id] == old(runner.memory[id])
    {
      ghost var mine := runner.memory;
      runner.file, runner.cursor := world.file, world.cursor;
      runner.memory := if id in mine then world.memory[id := mine[id]] else world.memory - {id};
      Record(Others);
    }

    method ClearOwnWaiterPid(world: System)
      requires Knows() && Between()
      modifies this`history, runner
      ensures Between()
      ensures runner.file == if world.file.waiterPid == Some(id.pid) then world.file.(waiterPid := None) else world.file
    {
      Find(world);
      if runner.file.waiterPid == Some(id.pid) {
        runner.file := runner.file.(waiterPid := None);
        Record(Own(RecordWaiterPid(None)));
      }
    }

    /** The read at the start of an iteration. */
    method LookFirst(world: System) returns (state: SessionHookState)
      requires Knows() && Between()
      modifies this`history, runner
      ensures Between() && fresh(state) && state.Value() == runner.file == world.file
      ensures !TurnMoved(world.file, id) ==> At(Looked) && runner.Holds(id, state)
    {
      Find(world);
      state := runner.Look(id);
      Record(Own(DeliveryProtocol.Look(id)));
    }

    /** The read behind a re-arm. */
    method LookAgain(world: System) returns (state: SessionHookState)
      requires Knows() && At(Rearmed)
      modifies this`history, runner
      ensures At(Reread) && fresh(state) && state.Value() == world.file && runner.Holds(id, state)
      ensures runner.memory[id].targets == old(runner.memory[id].targets)
    {
      Find(world);
      state := runner.Look(id);
      Record(Own(DeliveryProtocol.Look(id)));
    }

    /** One peek as this waiter. */
    method PeekBatch(world: System, state: SessionHookState, conn: Conn, view: Option<PeerView>, replies: Replies)
      returns (result: PeekResult, look: Glance)
      requires Knows() && IsLocalOwner(conn) && runner.Holds(id, state) && Between()
      modifies this`history, this`peeks, runner, state
      ensures Between() && peeks == old(peeks) + iset{Peeking(look, old(runner.memory[id].stage.Reread?))}
      ensures look == Glance(old(state.Value()), world.file, world.cursor, conn, view, replies)
      ensures (result.hasOutcomes <==> look in fruitful) && (result.hasDeferred <==> look in deferring)
      ensures (result.superseded <==> Superseded(world.file, id)) && (result.superseded ==> !result.hasOutcomes)
      ensures !result.superseded && old(runner.memory[id].stage.Looked?) ==> At(Polled) && runner.memory[id].seen == state.Value()
      ensures !result.superseded && !result.hasOutcomes && old(runner.memory[id].stage.Reread?) ==>
                At(Empty) && runner.memory[id].targets == old(runner.memory[id].targets)
    {
      Find(world);
      ghost var y, a := runner.System(), Poll(id, conn, view, replies);
      look := Glance(state.Value(), runner.file, runner.cursor, conn, view, replies);
      result := runner.Poll(id, state, conn, view, replies);
      PollRemembers(y, a);
      PollIsGlance(y, a, look);
      RecordPeek(Peeking(look, y.memory[id].stage.Reread?));
    }

    method CountRpcFailure() returns (next: Next)
      requires Running() && Between()
      modifies this`rpcFailures
      ensures prompts == old(prompts) && rpcFailures == old(rpcFailures) + 1 && Between()
      ensures if rpcFailures == MAX_ATTEMPTS then next == GaveUp && Ended() else next == Continue && Running()
    {
      rpcFailures := rpcFailures + 1;
      next := if rpcFailures >= MAX_ATTEMPTS then GaveUp else Continue;
    }

    /** The prompt itself and its bookkeeping. */
    method TriggerWakePrompt(it: Iteration, evidence: Prompt) returns (wake: Wake)
      requires Knows() && Running() && Between() && evidence.ok == it.promptOk
      requires evidence.checked in checks && Peeking(evidence.look, evidence.rearmed) in peeks
      requires Justified(evidence, it, id, fruitful)
      modifies this`promptFailures, this`retryWakePending, this`prompts, this`history, runner
      ensures prompts == old(prompts) + [evidence] && (evidence, it) in justified && !wake.NothingInjectable? && Between()
      ensures if wake.Halt? then Ended() && (evidence.ok || |prompts| == MAX_ATTEMPTS) else Running() && retryWakePending
      ensures it.promptOk ==> runner.file == PromptedFile(it, id)
      ensures wake.Halt? <==> it.promptOk || |prompts| == MAX_ATTEMPTS
    {
      prompts := prompts + [evidence];
      if !it.promptOk {
        promptFailures := promptFailures + 1;
        if promptFailures >= MAX_ATTEMPTS {
          return Halt;
        }
        retryWakePending := true;
        return GoOn;
      }
      if TurnMoved(it.postTrigger.file, id) {
        Find(it.postTrigger);
        return Halt;
      }
      ClearOwnWaiterPid(it.postTrigger);
      return Halt;
    }

    /** The generation checks around the composer read. */
    method CheckAroundDraft(it: Iteration) returns (halt: bool, draft: bool)
      requires Knows() && At(Polled)
      modifies this`history, this`checks, runner
      ensures Between() && draft == it.draft
      ensures old(checks) <= checks
      ensures halt <==> TurnMoved(it.preTrigger.file, id) || (!it.draft && Superseded(it.postRead.file, id))
      ensures !halt && !draft ==> At(Checked) && it.postRead.file in checks && runner.memory[id].seen == old(runner.memory[id].seen)
    {
      halt, draft := false, it.draft;
      Find(it.preTrigger);
      if TurnMoved(runner.file, id) {
        halt := true;
      } else if !draft {
        Find(it.postRead);
        halt := runner.Check(id);
        RecordCheck(it.postRead.file);
      }
    }

    /** From a batch worth waking for to the prompt: the generation is checked before and
        after the composer is read, and a batch that was delivered before is re-armed and
        verified first. */
    method WakeHost(it: Iteration, at: nat, latest: Conn, targets: set<int>, unacked: bool, polled: Glance, ghost before: seq<Prompt>) returns (wake: Wake)
      requires Running() && Knows() && IsLocalOwner(latest) && it.latest == Some(latest)
      requires At(Polled) && runner.memory[id].seen.delivered == targets
      requires (unacked <==> it.before.file.delivered != {}) && polled == PollGlance(it, latest)
      requires !unacked ==> polled in fruitful && Peeking(polled, false) in peeks
      requires before == prompts
      modifies this`promptFailures, this`retryWakePending, this`gracePending, this`prompts, this`history, this`checks, this`peeks, runner
      ensures Grown(before, prompts, it, at, justified) && Between()
      ensures Woke(it, WayIsClear(it, id) && (unacked ==> VerifyGlance(it, latest) in fruitful), before)
      ensures it.draft ==> !wake.NothingInjectable?
      ensures if wake.GoOn? then retryWakePending else wake.NothingInjectable? ==> retryWakePending == old(retryWakePending) && prompts == before
      ensures if wake.Halt? then Ended() && MayStop(it, id, true, false, prompts, false) else Running()
      ensures wake.NothingInjectable? ==> runner.file.delivered !! targets || Superseded(runner.file, id)
    {
      var halt, draft := CheckAroundDraft(it);
      if halt {
        return Halt;
      }
      if draft {
        retryWakePending := true;
        return GoOn;
      }
      if unacked {
        wake := WakeRearmed(it, at, latest, targets, before);
      } else {
        wake := TriggerWakePrompt(it, Prompt(at, it.promptOk, it.postRead.file, polled, false));
      }
    }

    /** The way to the prompt for a batch that was delivered before. */
    method WakeRearmed(it: Iteration, at: nat, latest: Conn, targets: set<int>, ghost before: seq<Prompt>) returns (wake: Wake)
      requires Running() && Knows() && IsLocalOwner(latest) && it.latest == Some(latest)
      requires At(Checked) && !Superseded(it.postRead.file, id) && !it.draft && runner.memory[id].seen.delivered == targets && it.postRead.file in checks
      requires it.before.file.delivered != {}
      requires before == prompts
      modifies this`promptFailures, this`retryWakePending, this`gracePending, this`prompts, this`history, this`peeks, runner
      ensures Grown(before, prompts, it, at, justified) && Between() && Woke(it, VerifyGlance(it, latest) in fruitful, before)
      ensures if wake.GoOn? then retryWakePending else wake.NothingInjectable? ==> retryWakePending == old(retryWakePending) && prompts == before
      ensures if wake.Halt? then Ended() && MayStop(it, id, true, false, prompts, false) else Running()
      ensures wake.NothingInjectable? ==> runner.file.delivered !! targets || Superseded(runner.file, id)
    {
      var verify, look := RearmAndVerify(it, latest);
      if verify.superseded {
        return Halt;
      }
      if !verify.hasOutcomes {
        ClearRearmed(it.atClear, targets);
        gracePending := false;
        return NothingInjectable;
      }
      wake := TriggerWakePrompt(it, Prompt(at, it.promptOk, it.postRead.file, look, true));
    }

    method ClearRearmed(world: System, targets: set<int>)
      requires Knows() && At(Empty) && runner.memory[id].targets == targets
      modifies this`history, runner
      ensures Between() && (runner.file.delivered !! targets || Superseded(runner.file, id))
    {
      Find(world);
      runner.Clear(id, targets);
      Record(Own(Clear(id)));
    }

    /** The re-arm of a delivered batch and its verification, each on the file it finds. */
    method RearmAndVerify(it: Iteration, latest: Conn) returns (verify: PeekResult, look: Glance)
      requires Knows() && IsLocalOwner(latest) && At(Checked)
      modifies this`history, this`peeks, runner
      ensures Between() && look == VerifyGlance(it, latest)
      ensures verify.hasOutcomes <==> look in fruitful
      ensures Peeking(look, true) in peeks
      ensures (verify.superseded <==> Superseded(it.atVerify.file, id)) && (verify.superseded ==> !verify.hasOutcomes)
      ensures !verify.superseded && !verify.hasOutcomes ==>
                At(Empty) && runner.memory[id].targets == old(runner.memory[id].seen.delivered)
    {
      Find(it.atRearm);
      runner.RearmBatch(id);
      Record(Own(RearmBatch(id)));
      var rearmed := LookAgain(it.reread);
      verify, look := PeekBatch(it.atVerify, rearmed, latest, it.verifyView, it.verifyReplies);
    }

    /** The exit decision at the end of an iteration: only exitWhenNoPeers ends an idle
        waiter, after the settle grace when peers were seen. */
    method Settle(it: Iteration, idle: bool, anyPeers: bool) returns (next: Next)
      requires Knows() && Running() && Between()
      modifies this`settleDeadline, this`history, runner
      ensures Running() && Ended() && Between() && next != GaveUp
      ensures next.Stopped? <==>
              && exitWhenNoPeers && idle
              && ((old(sawActivePeers) || anyPeers) && settleGrace > 0 ==>
                    old(settleDeadline).Some? && it.now >= old(settleDeadline).value)
      ensures settleDeadline == if !idle || !exitWhenNoPeers then None
                                else if (old(sawActivePeers) || anyPeers) && settleGrace > 0 && old(settleDeadline).None? then Some(it.now + settleGrace)
                                else old(settleDeadline)
    {
      next := Continue;
      if !idle || !exitWhenNoPeers {
        settleDeadline := None;
        return;
      }
      if (sawActivePeers || anyPeers) && settleGrace > 0 {
        if settleDeadline.None? {
          settleDeadline := Some(it.now + settleGrace);
        }
        if it.now >= settleDeadline.value {
          ClearOwnWaiterPid(it.atExit);
          next := Stopped;
        }
      } else {
        ClearOwnWaiterPid(it.atExit);
        next := Stopped;
      }
    }

    /** One iteration of the standby loop: one prompt exactly if the iteration polls, finds
        something worth waking for and nothing in the way, and else none. It ends the loop only for one
        of the listed reasons, and always when the turn moved on before it, when another
        waiter is recorded, or after a prompt that worked or was the last attempt. */
    method Iterate(it: Iteration, at: nat, ghost first: bool, ghost polls: bool, ghost was: Calls, ghost before: seq<Prompt>) returns (next: Next)
      requires Running() && Knows() && Between() && (it.pushed ==> pushNotification)
      requires first == firstIteration && was == Pending() && before == prompts
      requires polls <==> CanPoll(it, id, first, sawSelf) && (Waiting(was) || CallsForPoll(it))
      modifies this`firstIteration, this`firstEventCheck, this`pushNotification, this`retryWakePending, this`gracePending, this`promptFailures,
               this`rpcFailures, this`sawSelf, this`sawActivePeers, this`settleDeadline, this`prompts, this`history, this`checks, this`peeks, runner
      ensures Ended() && Grown(before, prompts, it, at, justified) && Between() && !firstIteration
      ensures Concluded(it, polls, was, before, next.Continue?)
      ensures next.Continue? ==> Running()
      ensures next.GaveUp? ==> rpcFailures == MAX_ATTEMPTS
      ensures next.Stopped? ==> MayStop(it, id, first, sawSelf, prompts, exitWhenNoPeers)
      ensures MustStop(it, id, first) ==> next.Stopped? && prompts == before && runner.file == it.before.file
    {
      var state, moved := LookAndCheck(it);
      if moved {
        return Stopped;
      }
      next := LookAtPeers(it, at, state, polls, was, before);
    }

    /** A notification may arrive at any time; it is looked at when the iteration decides. */
    method NotePush(it: Iteration)
      modifies this`pushNotification
      ensures pushNotification == (old(pushNotification) || it.pushed)
    {
      pushNotification := pushNotification || it.pushed;
    }

    /** The read at the start, and whether the turn or the recorded waiter is another's. */
    method LookAndCheck(it: Iteration) returns (state: SessionHookState, moved: bool)
      requires Knows() && Between()
      modifies this`history, this`firstIteration, runner
      ensures Between() && fresh(state) && state.Value() == runner.file == it.before.file && !firstIteration
      ensures (moved <==> MustStop(it, id, old(firstIteration))) && (!moved ==> At(Looked) && runner.Holds(id, state))
    {
      state := LookFirst(it.before);
      moved := TurnMoved(state.Value(), id) || (!firstIteration && PidMoved(state.Value(), id));
      firstIteration := false;
    }

    /** The part of an iteration after the generation was read. */
    method LookAtPeers(it: Iteration, at: nat, state: SessionHookState, ghost polls: bool, ghost was: Calls, ghost before: seq<Prompt>) returns (next: Next)
      requires Running() && Knows() && (it.pushed ==> pushNotification)
      requires At(Looked) && runner.Holds(id, state) && state.Value() == it.before.file
      requires was == Pending() && before == prompts && (polls <==> PaneReady(it, sawSelf) && PollsOn(it, id) && (Waiting(was) || CallsForPoll(it)))
      modifies this`firstEventCheck, this`pushNotification, this`retryWakePending, this`gracePending, this`promptFailures,
               this`rpcFailures, this`sawSelf, this`sawActivePeers, this`settleDeadline, this`prompts, this`history, this`checks, this`peeks, runner, state
      ensures Ended() && Grown(before, prompts, it, at, justified) && Between()
      ensures Concluded(it, polls, was, before, next.Continue?)
      ensures next.Continue? ==> Running()
      ensures next.GaveUp? ==> rpcFailures == MAX_ATTEMPTS
      ensures next.Stopped? ==> MayStop(it, id, true, sawSelf, prompts, exitWhenNoPeers)
    {
      if it.peers.None? {
        next := CountRpcFailure();
        return;
      }
      var peers := it.peers.value;
      var gone := NotePeers(peers);
      if gone {
        ClearOwnWaiterPid(it.atExit);
        return Stopped;
      }
      next := LookForBatch(it, at, peers, state, polls, was, before);
    }

    /** Whether the own pane, once listed, left the index. */
    method NotePeers(peers: Peers) returns (gone: bool)
      modifies this`sawSelf, this`sawActivePeers, this`settleDeadline
      ensures sawSelf == (old(sawSelf) || peers.ready.Some?) && (gone <==> sawSelf && peers.ready.None?)
      ensures sawActivePeers == (old(sawActivePeers) || (!gone && peers.active))
      ensures settleDeadline == if !gone && peers.active then None else old(settleDeadline)
    {
      sawSelf := sawSelf || peers.ready.Some?;
      gone := sawSelf && peers.ready.None?;
      if !gone && peers.active {
        sawActivePeers, settleDeadline := true, None;
      }
    }

    ghost function Pending(): Calls
      reads this`firstEventCheck, this`pushNotification, this`retryWakePending, this`gracePending
    {
      Calls(firstEventCheck, pushNotification, retryWakePending, gracePending)
    }

    /** What a poll leaves for the next iteration: one more look at a delivered batch without
        outcomes, and at completions that wait for their peers. */
    ghost predicate AfterPoll(it: Iteration, grace: bool)
      requires it.latest.Some?
      reads this`gracePending, this`retryWakePending
    {
      && (it.before.file.delivered != {} && PollGlance(it, it.latest.value) !in fruitful && !grace ==> gracePending)
      && (PollGlance(it, it.latest.value) in deferring ==> retryWakePending)
    }

    /** Since these calls and prompts, the iteration typed a prompt exactly if it polled and one
        was due; if it goes on, it left behind what calls for the next poll. */
    ghost predicate Concluded(it: Iteration, polls: bool, was: Calls, before: seq<Prompt>, goesOn: bool)
      requires polls ==> it.latest.Some?
      reads this`prompts, this`firstEventCheck, this`pushNotification, this`retryWakePending, this`gracePending, runner
    {
      && (|prompts| > |before| <==> polls && (it, was.grace) in due)
      && (|prompts| > |before| && it.promptOk ==> runner.file == PromptedFile(it, id))
      && (goesOn ==> if polls then AfterPoll(it, was.grace) && (|prompts| > |before| ==> retryWakePending) else Pending() == was)
    }

    /** The part of an iteration after the peers are known. */
    method LookForBatch(it: Iteration, at: nat, peers: Peers, state: SessionHookState, ghost polls: bool, ghost was: Calls, ghost before: seq<Prompt>) returns (next: Next)
      requires Running() && Knows() && it.peers == Some(peers) && (it.pushed ==> pushNotification)
      requires At(Looked) && runner.Holds(id, state) && state.Value() == it.before.file
      requires was == Pending() && before == prompts && (polls <==> (peers.ready.Some? ==> peers.ready.value) && PollsOn(it, id) && (Waiting(was) || CallsForPoll(it)))
      modifies this`firstEventCheck, this`pushNotification, this`retryWakePending, this`gracePending, this`promptFailures,
               this`rpcFailures, this`settleDeadline, this`prompts, this`history, this`checks, this`peeks, runner, state
      ensures Ended() && Grown(before, prompts, it, at, justified) && Between()
      ensures Concluded(it, polls, was, before, next.Continue?)
      ensures next.Continue? ==> Running()
      ensures next.GaveUp? ==> rpcFailures == MAX_ATTEMPTS
      ensures next.Stopped? ==> MayStop(it, id, true, false, prompts, exitWhenNoPeers)
    {
      var ready := peers.ready.None? || peers.ready.value;
      var settle, hasWakeBatch;
      next, settle, hasWakeBatch := PollIfTriggered(it, at, peers, state, ready, polls, was, before);
      if settle {
        next := Settle(it, !peers.active && !hasWakeBatch && ready && !retryWakePending, peers.any);
      }
    }

    /** The poll, if something calls for it; settle says whether the iteration goes on to the
        exit decision. */
    method PollIfTriggered(it: Iteration, at: nat, peers: Peers, state: SessionHookState, ready: bool, ghost polls: bool, ghost was: Calls, ghost before: seq<Prompt>)
      returns (next: Next, settle: bool, hasWakeBatch: bool)
      requires Running() && Knows() && it.peers == Some(peers) && (it.pushed ==> pushNotification)
      requires At(Looked) && runner.Holds(id, state) && state.Value() == it.before.file
      requires was == Pending() && before == prompts && (polls <==> ready && PollsOn(it, id) && (Waiting(was) || CallsForPoll(it)))
      modifies this`firstEventCheck, this`pushNotification, this`retryWakePending, this`gracePending, this`promptFailures,
               this`rpcFailures, this`prompts, this`history, this`checks, this`peeks, runner, state
      ensures Ended() && Grown(before, prompts, it, at, justified) && Between()
      ensures Concluded(it, polls, was, before, next.Continue?)
      ensures settle ==> next.Continue? && (it.promptOk ==> prompts == before)
      ensures next.Continue? ==> Running()
      ensures next.GaveUp? ==> rpcFailures == MAX_ATTEMPTS
      ensures next.Stopped? ==> MayStop(it, id, true, false, prompts, exitWhenNoPeers)
    {
      assert state.delivered == state.Value().delivered;
      next, settle, hasWakeBatch := Continue, true, false;
      if !(ready && (firstEventCheck || pushNotification || retryWakePending || gracePending || !peers.active || state.delivered != {})) {
        rpcFailures := 0;
      } else if it.latest.None? {
        next := CountRpcFailure();
        settle := false;
      } else {
        next, hasWakeBatch := PollNow(it, at, it.latest.value, state, was, before);
        settle := next.Continue?;
      }
    }

    method PollNow(it: Iteration, at: nat, latest: Conn, state: SessionHookState, ghost was: Calls, ghost before: seq<Prompt>)
      returns (next: Next, hasWakeBatch: bool)
      requires Running() && Knows() && it.latest == Some(latest)
      requires At(Looked) && runner.Holds(id, state) && state.Value() == it.before.file
      requires was == Pending() && before == prompts
      modifies this`firstEventCheck, this`pushNotification, this`retryWakePending, this`gracePending, this`promptFailures,
               this`rpcFailures, this`prompts, this`history, this`checks, this`peeks, runner, state
      ensures Ended() && Grown(before, prompts, it, at, justified) && Between() && next != GaveUp
      ensures Concluded(it, PollsOn(it, id), was, before, next.Continue?) && (next.Continue? ==> PollsOn(it, id))
      ensures next.Continue? ==> Running() && (it.promptOk ==> prompts == before)
      ensures next.Stopped? ==> MayStop(it, id, true, false, prompts, false)
    {
      var wake;
      wake, hasWakeBatch := PollAndWake(it, at, latest, state, before, was.grace);
      next := if wake.Halt? then Stopped else Continue;
      if wake.GoOn? {
        rpcFailures := 0;
      }
    }

    /** Poll the latest view and decide whether the host must be woken. */
    method PollAndWake(it: Iteration, at: nat, latest: Conn, state: SessionHookState, ghost before: seq<Prompt>, ghost grace: bool) returns (wake: Wake, hasWakeBatch: bool)
      requires Running() && Knows() && it.latest == Some(latest)
      requires At(Looked) && runner.Holds(id, state) && state.Value() == it.before.file
      requires before == prompts && grace == gracePending
      modifies this`firstEventCheck, this`pushNotification, this`retryWakePending, this`gracePending, this`promptFailures,
               this`prompts, this`history, this`checks, this`peeks, runner, state
      ensures Grown(before, prompts, it, at, justified) && Between()
      ensures !PollsOn(it, id) ==> wake.Halt?
      ensures Woke(it, IsLocalOwner(latest) && !Superseded(it.atPeek.file, id) && (it, grace) in due, before)
      ensures !wake.Halt? && it.before.file.delivered != {} && PollGlance(it, latest) !in fruitful && !grace ==> gracePending
      ensures !wake.Halt? && (PollGlance(it, latest) in deferring || |prompts| > |before|) ==> retryWakePending
      ensures if wake.Halt? then Ended() && MayStop(it, id, true, false, prompts, false) else Running()
    {
      var unacked := state.delivered != {};
      var halt, hasOutcomes, polled := PollOnce(it, latest, state);
      if halt {
        return Halt, false;
      }
      wake, hasWakeBatch := DecideWake(it, at, latest, state.delivered, unacked, hasOutcomes, polled, before, grace);
    }

    /** The poll itself, which ends the waiter that lost the ownership or its generation. */
    method PollOnce(it: Iteration, latest: Conn, state: SessionHookState) returns (halt: bool, hasOutcomes: bool, polled: Glance)
      requires Knows() && it.latest == Some(latest)
      requires At(Looked) && runner.Holds(id, state) && state.Value() == it.before.file
      modifies this`firstEventCheck, this`pushNotification, this`retryWakePending, this`history, this`peeks, runner, state
      ensures Between() && (halt <==> !PollsOn(it, id))
      ensures !halt ==>
                && At(Polled) && runner.memory[id].seen == state.Value() && polled == PollGlance(it, latest)
                && Peeking(polled, false) in peeks && (hasOutcomes <==> polled in fruitful) && (retryWakePending <==> polled in deferring)
                && !firstEventCheck && !pushNotification
    {
      polled := PollGlance(it, latest);
      if !IsLocalOwner(latest) {
        return true, false, polled;
      }
      var peek;
      peek, polled := PeekBatch(it.atPeek, state, latest, it.view, it.replies);
      halt, hasOutcomes := peek.superseded, peek.hasOutcomes;
      if !halt {
        firstEventCheck, pushNotification, retryWakePending := false, false, peek.hasDeferred;
      }
    }

    /** A delivered batch without outcomes gets one more poll before the host is woken. */
    method DecideWake(it: Iteration, at: nat, latest: Conn, targets: set<int>, unacked: bool, hasOutcomes: bool, polled: Glance, ghost before: seq<Prompt>, ghost grace: bool)
      returns (wake: Wake, hasWakeBatch: bool)
      requires Running() && Knows() && IsLocalOwner(latest) && it.latest == Some(latest)
      requires At(Polled) && runner.memory[id].seen.delivered == targets
      requires (unacked <==> it.before.file.delivered != {}) && polled == PollGlance(it, latest) && Peeking(polled, false) in peeks
      requires hasOutcomes <==> polled in fruitful
      requires before == prompts && grace == gracePending
      modifies this`promptFailures, this`retryWakePending, this`gracePending, this`prompts, this`history, this`checks, this`peeks, runner
      ensures Grown(before, prompts, it, at, justified) && Between()
      ensures Woke(it, (it, grace) in due, before)
      ensures unacked && !hasOutcomes && !grace ==> gracePending
      ensures !wake.Halt? ==> (old(retryWakePending) ==> retryWakePending)
      ensures !wake.Halt? && (|prompts| > |before| || (it.draft && (hasOutcomes || (unacked && grace)))) ==> retryWakePending
      ensures if wake.Halt? then Ended() && MayStop(it, id, true, false, prompts, false) else Running()
    {
      assert (it, gracePending) in due <==> Due(it, gracePending, id, fruitful);
      if unacked && !hasOutcomes && !gracePending {
        gracePending := true;
        return GoOn, true;
      }
      if !unacked && !hasOutcomes {
        return GoOn, false;
      }
      gracePending := false;
      wake := WakeHost(it, at, latest, targets, unacked, polled, before);
      hasWakeBatch := !wake.NothingInjectable?;
    }

    /** What the loop knows after k iterations that did not end it. */
    ghost predicate GoneThrough(iterations: seq<Iteration>, k: nat)
      reads this`prompts, this`firstIteration, this`firstEventCheck, this`gracePending
      requires k <= |iterations|
    {
      && AllJustified(prompts, iterations, k, justified) && NoneSlept(prompts, iterations, k, id, fruitful)
      && (if k == 0 then firstIteration && firstEventCheck else !firstIteration)
      && (k > 0 && FindsDelivered(iterations[k - 1], k - 1, id, fruitful) && !PromptedAt(prompts, k - 1) ==> gracePending)
    }

    /** One iteration of the loop. */
    method Advance(iterations: seq<Iteration>, k: nat) returns (next: Next)
      requires Running() && Knows() && Between() && k < |iterations| && GoneThrough(iterations, k)
      modifies this, runner
      ensures Ended() && Between() && (next.Continue? ==> Running() && GoneThrough(iterations, k + 1))
      ensures AllJustified(prompts, iterations, k + 1, justified) && NoneSlept(prompts, iterations, k + 1, id, fruitful)
      ensures next.GaveUp? ==> rpcFailures == MAX_ATTEMPTS
      ensures next.Stopped? ==> MayStop(iterations[k], id, k == 0, sawSelf, prompts, exitWhenNoPeers)
    {
      NotePush(iterations[k]);
      ghost var was, before, saw := Pending(), prompts, sawSelf;
      ghost var polls := CanPoll(iterations[k], id, k == 0, saw) && (Waiting(was) || CallsForPoll(iterations[k]));
      assert (iterations[k], was.grace) in due <==> Due(iterations[k], was.grace, id, fruitful);
      next := Iterate(iterations[k], k, k == 0, polls, was, before);
      JustifiedStays(before, prompts, iterations, k, justified);
      PromptsKeepUp(before, prompts, iterations, k, id, fruitful, justified, was, saw, gracePending, next.Continue?);
    }

    lemma PromptsAreJustified(iterations: seq<Iteration>, n: nat)
      requires Knows() && n <= |iterations| && AllJustified(prompts, iterations, n, justified)
      ensures forall k | 0 <= k < |prompts| :: prompts[k].at < n && Justified(prompts[k], iterations[prompts[k].at], id, fruitful)
      ensures forall j, k | 0 <= j < k < |prompts| :: prompts[j].at < prompts[k].at
    {
      forall k | 0 <= k < |prompts| ensures prompts[k].at < n && Justified(prompts[k], iterations[prompts[k].at], id, fruitful) {
        assert Justified(prompts[k], iterations[prompts[k].at], id, fruitful) <==> (prompts[k], iterations[prompts[k].at]) in justified;
      }
    }

    lemma PromptsAreRecorded()
      requires Knows() && Tracks()
      ensures Linked(history, id) && history.states[0] == start
      ensures forall k | 0 <= k < |prompts| :: HasCheck(history, prompts[k].checked, id) && HasPeek(history, prompts[k].look, prompts[k].rearmed, id)
    {
      assert Kept(history, checks, peeks, id, start);
      forall k | 0 <= k < |prompts| ensures HasPeek(history, prompts[k].look, prompts[k].rearmed, id) {
        assert Peeking(prompts[k].look, prompts[k].rearmed) in peeks;
      }
    }

    /** The loop until its deadline. */
    method Loop(iterations: seq<Iteration>) returns (failed: bool, ghost reached: nat)
      requires Running() && Knows() && Between() && prompts == [] && firstIteration && firstEventCheck
      modifies this, runner
      ensures reached <= |iterations| && Ended() && Between() && AllJustified(prompts, iterations, reached, justified)
      ensures NoneSlept(prompts, iterations, reached, id, fruitful)
      ensures reached < |iterations| ==>
                reached > 0 && (failed || MayStop(iterations[reached - 1], id, reached == 1, sawSelf, prompts, exitWhenNoPeers))
      ensures failed ==> rpcFailures == MAX_ATTEMPTS
    {
      failed, reached := false, 0;
      for k := 0 to |iterations|
        invariant reached == k && Running() && Between() && GoneThrough(iterations, k)
      {
        var next := Advance(iterations, k);
        reached := k + 1;
        if !next.Continue? {
          failed := next.GaveUp?;
          return;
        }
      }
    }
  }

  lemma PollIsGlance(y: System, a: Action, look: Glance)
    requires a.Poll? && a.waiter in y.memory
    requires look == Glance(y.memory[a.waiter].seen, y.file, y.cursor, a.pollConn, a.view, a.replies)
    ensures PeekAt(y, a).result.hasOutcomes <==> HasOutcomes(look, a.waiter)
    ensures PeekAt(y, a).result.hasDeferred <==> HasDeferred(look, a.waiter)
  {
  }

  lemma PollRemembers(y: System, a: Action)
    requires a.Poll? && Owns(a) && a.waiter in y.memory
    ensures var p, memory := PeekAt(y, a), Step(y, a).memory;
            && (p.result.superseded <==> Superseded(y.file, a.waiter)) && (p.result.superseded ==> !p.result.hasOutcomes)
            && (p.result.superseded || (y.memory[a.waiter].stage.Reread? && p.result.hasOutcomes) ==> a.waiter !in memory)
            && (!p.result.superseded && !y.memory[a.waiter].stage.Reread? ==>
                  a.waiter in memory && memory[a.waiter] == Memory(p.seen, y.memory[a.waiter].targets, Polled))
            && (!p.result.superseded && y.memory[a.waiter].stage.Reread? && !p.result.hasOutcomes ==>
                  a.waiter in memory && memory[a.waiter] == Memory(p.seen, y.memory[a.waiter].targets, Empty))
  {
    PollIsPeek(y, a);
    var m := y.memory[a.waiter];
    if Superseded(y.file, a.waiter) {
      SupersededPeek(m.seen, y.file, y.cursor, a.pollConn, a.view, a.waiter, a.replies);
    } else {
      CurrentPeek(m.seen, y.file, y.cursor, a.pollConn, a.view, a.waiter, a.replies);
    }
  }

  lemma CurrentPeek(seen: Session, file: Session, cursor: int, conn: Conn, view: Option<PeerView>, waiter: Waiter, replies: Replies)
    requires !Superseded(file, waiter)
    ensures !Peek(seen, file, cursor, conn, view, waiter, replies).result.superseded
  {
  }

  /** runWakeWaiter: over its whole life a waiter types at most three prompts, at most one
      succeeds and it is the last; each belongs to an iteration of its own, in order, and is
      justified by that iteration's check and look. Of the iterations it reaches, none that
      finds a fresh batch and nothing in its way goes by without a prompt, and no two in a row
      that find a delivered one; it ends early only for a listed reason. Everything the waiter
      did is a step of the protocol. */
  method StandBy(id: Waiter, start: System, exitWhenNoPeers: bool, settleGrace: nat, iterations: seq<Iteration>)
    returns (failed: bool, prompts: seq<Prompt>, ghost history: History, ghost reached: nat)
    ensures |prompts| <= MAX_ATTEMPTS
    ensures forall k | 0 <= k < |prompts| :: prompts[k].ok ==> k == |prompts| - 1
    ensures reached <= |iterations| && forall j, k | 0 <= j < k < |prompts| :: prompts[j].at < prompts[k].at
    ensures forall k | 0 <= k < |prompts| :: prompts[k].at < reached && Justified(prompts[k], iterations[prompts[k].at], id, Fruitful(id))
    ensures NoneSlept(prompts, iterations, reached, id, Fruitful(id))
    ensures reached < |iterations| ==>
              reached > 0 && (failed || MayStop(iterations[reached - 1], id, reached == 1, true, prompts, exitWhenNoPeers))
    ensures Linked(history, id) && history.states[0] == System(start.file, start.cursor, start.memory - {id})
    ensures forall k | 0 <= k < |prompts| :: HasCheck(history, prompts[k].checked, id) && HasPeek(history, prompts[k].look, prompts[k].rearmed, id)
  {
    var runner := new Runner(start.file, start.cursor);
    runner.memory := start.memory - {id};
    var waiter := new WakeWaiter(id, runner, exitWhenNoPeers, settleGrace);
    failed, reached := waiter.Loop(iterations);
    prompts, history := waiter.prompts, waiter.history;
    waiter.PromptsAreJustified(iterations, reached);
    waiter.PromptsAreRecorded();
  }
}
