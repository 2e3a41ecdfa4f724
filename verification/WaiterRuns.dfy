/** The waiter's own code inside the runs of the protocol: a history of StandBy, with what
    the others did filled in, is a run, so everything proved over runs holds of it. */
module WaiterRuns {
  import opened Common
  import opened Projection
  import opened WakeView
  import opened HookSpec
  import opened DeliveryProtocol
  import opened Races
  import opened WakeAgreement
  import opened WakeWaiter

  /** What happened in one move: the waiter's own action, or a run of the others that leads
      to where the waiter found the system. */
  ghost predicate Fills(y: System, m: Move, z: System, actions: seq<Action>, id: Waiter) {
    match m
    case Own(a) => actions == [a] && Valid(y, a)
    case Others => RunFrom(y, actions) && After(y, actions) == z && forall a | a in actions :: !By(a, id)
  }

  ghost function Joined(parts: seq<seq<Action>>): seq<Action> {
    if parts == [] then [] else Joined(parts[..|parts| - 1]) + parts[|parts| - 1]
  }

  /** Up to every point k of the history, the filled-in actions are a run that leads from its
      start to exactly where the waiter was then. */
  lemma {:induction false} HistoryIsRun(h: History, id: Waiter, parts: seq<seq<Action>>, k: nat)
    requires Linked(h, id) && |parts| == |h.moves| && k <= |h.moves|
    requires forall i | 0 <= i < |h.moves| :: Fills(h.states[i], h.moves[i], h.states[i + 1], parts[i], id)
    ensures RunFrom(h.states[0], Joined(parts[..k])) && After(h.states[0], Joined(parts[..k])) == h.states[k]
  {
    if k > 0 {
      var i := k - 1;
      HistoryIsRun(h, id, parts, i);
      assert parts[..k][..i] == parts[..i] && parts[..k][i] == parts[i];
      MoveIsRun(h.states[i], h.moves[i], h.states[i + 1], parts[i], id);
      RunConcat(h.states[0], Joined(parts[..i]), parts[i]);
    }
  }

  lemma MoveIsRun(y: System, m: Move, z: System, actions: seq<Action>, id: Waiter)
    requires Moves(y, m, z, id) && Fills(y, m, z, actions, id)
    ensures RunFrom(y, actions) && After(y, actions) == z
  {
    if m.Own? {
      var a := m.action;
      assert [a][1..] == [];
      assert RunFrom(Step(y, a), []) && After(Step(y, a), []) == Step(y, a);
    }
  }

  /** In any history, behind a memory that verifies a re-armed batch there is the re-arm,
      which a generation check had allowed. */
  lemma {:induction false} RearmIsBehind(h: History, id: Waiter, k: nat) returns (m: nat)
    requires Linked(h, id) && id !in h.states[0].memory && k < |h.states|
    requires id in h.states[k].memory && (h.states[k].memory[id].stage.Rearmed? || h.states[k].memory[id].stage.Reread?)
    ensures m < k && h.moves[m] == Own(RearmBatch(id)) && h.states[m + 1].file == Rearm(h.states[m].file)
    ensures id in h.states[m].memory && h.states[m].memory[id].stage.Checked?
  {
    assert k > 0;
    m := k - 1;
    assert Moves(h.states[m], h.moves[m], h.states[m + 1], id);
    if h.moves[m].Own? && By(h.moves[m].action, id) {
      StageAfter(h.states[m], h.moves[m].action, id);
      if h.states[k].memory[id].stage.Reread? {
        m := RearmIsBehind(h, id, m);
      }
    } else {
      if h.moves[m].Own? {
        MemoryIsOwn(h.states[m], h.moves[m].action, id);
      }
      m := RearmIsBehind(h, id, m);
    }
  }

  /** A prompt for a batch that was delivered before follows the re-arm of that batch: the
      peek it rests on is in the history behind it. */
  lemma PromptFollowsRearm(h: History, id: Waiter, p: Prompt) returns (m: nat, k: nat)
    requires Linked(h, id) && id !in h.states[0].memory
    requires p.rearmed && HasPeek(h, p.look, p.rearmed, id)
    ensures m < k < |h.moves| && h.moves[m] == Own(RearmBatch(id)) && h.states[m + 1].file == Rearm(h.states[m].file)
    ensures IsPeek(h.states[k], h.moves[k], p.look, true, id)
  {
    k :| 0 <= k < |h.moves| && IsPeek(h.states[k], h.moves[k], p.look, p.rearmed, id);
    m := RearmIsBehind(h, id, k);
  }

  /** The states of a filled-in history present no more than the limit. */
  lemma FewInHistory(h: History, id: Waiter, parts: seq<seq<Action>>, k: nat)
    requires Linked(h, id) && |parts| == |h.moves| && k <= |h.moves|
    requires forall i | 0 <= i < |h.moves| :: Fills(h.states[i], h.moves[i], h.states[i + 1], parts[i], id)
    requires FewPresented(h.states[0])
    ensures FewPresented(h.states[k])
  {
    HistoryIsRun(h, id, parts, k);
    var actions := Joined(parts[..k]);
    var states := RunStates(h.states[0], actions);
    FewOverRuns(states, actions, |actions|);
  }

  /** The batch a prompt rests on is still there for the turn it starts: if nobody committed
      between the read and the peek, a take from the state the peek wrote, on the same daemon
      and peer view, returns exactly that batch. */
  lemma PromptDeliversBatch(h: History, id: Waiter, parts: seq<seq<Action>>, k: nat, p: Prompt, newTurn: bool, takeReplies: Replies)
    requires Linked(h, id) && |parts| == |h.moves| && k < |h.moves|
    requires forall i | 0 <= i < |h.moves| :: Fills(h.states[i], h.moves[i], h.states[i + 1], parts[i], id)
    requires FewPresented(h.states[0]) && IsPeek(h.states[k], h.moves[k], p.look, p.rearmed, id)
    requires HasOutcomes(p.look, id) && IsLocalOwner(p.look.conn) && p.look.seen == p.look.file
    requires CandidatesSurvive(p.look.file, p.look.conn, p.look.view)
    ensures var look, after := p.look, h.states[k + 1];
            var t := Take(BeginTurn(after.file, newTurn), after.cursor, look.conn, look.view, {}, takeReplies);
            t.batch == Some(OutcomesOf(CandidateList(look.file, look.conn, look.view), Working(look.view))) && t.batch.value != []
  {
    var look, y := p.look, h.states[k];
    var a := Poll(id, look.conn, look.view, look.replies);
    FewInHistory(h, id, parts, k);
    FewAbove(look.file, look.conn);
    assert Moves(y, h.moves[k], h.states[k + 1], id);
    PollIsPeek(y, a);
    PeekPredictsTake(look.file, look.cursor, look.conn, look.view, id, look.replies, newTurn, {}, takeReplies);
  }
}
