/** The turn-completion registry: recorded signals meet pending waits, each at most once.
    Every method is one critical section of the registry's lock. */
module TurnRegistry {
  import opened Common

  datatype Key = Key(session: string, terminal: string)

  /** serial numbers the signals in recording order. */
  datatype Signal = Signal(serial: nat, key: Key, confirmed: bool, text: Option<string>, at: int)

  datatype Wait = Wait(key: Key, after: int)

  datatype Result = NotReceived | Received(serial: nat, confirmed: bool, text: Option<string>)

  /** latest and pending are the registry's tables; asked are all waits that had to park
      or were answered at once, results the answered ones, recorded every signal. */
  datatype Registry = Registry(latest: map<Key, Signal>, pending: map<nat, Wait>, asked: seq<Wait>,
                               results: map<nat, Result>, recorded: seq<Signal>)

  const EMPTY := Registry(map[], map[], [], map[], [])

  datatype Action =
    | Record(key: Key, confirmed: bool, text: Option<string>, at: int, cutoff: int, order: seq<nat>)
    | Ask(key: Key, after: int, aborted: bool)
    | GiveUp(id: nat)

  predicate NewFor(r: Registry, w: Wait) {
    w.key in r.latest && r.latest[w.key].at >= w.after
  }

  /** consumeResult: an empty text counts as none. */
  function ResultOf(s: Signal): Result {
    Received(s.serial, s.confirmed, if s.text == Some("") then None else s.text)
  }

  /** finishLocked: resolves a pending wait by a new signal, or empty-handed when it timed
      out or was aborted. */
  function Finish(r: Registry, id: nat, timedOut: bool): Registry {
    if id !in r.pending then r
    else if NewFor(r, r.pending[id]) then
      r.(latest := r.latest - {r.pending[id].key}, pending := r.pending - {id},
         results := r.results[id := ResultOf(r.latest[r.pending[id].key])])
    else if timedOut then r.(pending := r.pending - {id}, results := r.results[id := NotReceived])
    else r
  }

  /** The wake loop, over the waiters in whatever order the map yields them. */
  function WakeAll(r: Registry, order: seq<nat>): Registry
    decreases |order|
  {
    if order == [] then r else WakeAll(Finish(r, order[0], false), order[1..])
  }

  function Pruned(latest: map<Key, Signal>, cutoff: int): map<Key, Signal> {
    if |latest| <= 1 then latest else map key | key in latest && latest[key].at >= cutoff :: latest[key]
  }

  function Stored(r: Registry, a: Action): Registry
    requires a.Record?
  {
    var signal := Signal(|r.recorded|, a.key, a.confirmed, a.text, a.at);
    r.(latest := Pruned(r.latest[a.key := signal], a.cutoff), recorded := r.recorded + [signal])
  }

  /** order lists the waiters of the recorded key. */
  ghost predicate Enabled(r: Registry, a: Action) {
    a.Record? ==> forall id :: id in a.order <==> id in r.pending && r.pending[id].key == a.key
  }

  function Step(r: Registry, a: Action): Registry {
    match a
    case Record(_, _, _, _, _, order) => WakeAll(Stored(r, a), order)
    case Ask(key, after, aborted) =>
      var id, w := |r.asked|, Wait(key, after);
      var asked := r.(asked := r.asked + [w]);
      if NewFor(r, w) then asked.(latest := r.latest - {key}, results := r.results[id := ResultOf(r.latest[key])])
      else if aborted then asked.(results := r.results[id := NotReceived])
      else asked.(pending := r.pending[id := w])
    case GiveUp(id) => Finish(r, id, true)
  }

  // ---------------------------------------------------------------------
  // The invariant
  // ---------------------------------------------------------------------

  ghost predicate WaitsOk(r: Registry) {
    && (forall id | id in r.pending :: id < |r.asked| && r.pending[id] == r.asked[id] && id !in r.results)
    && (forall id | id in r.results :: id < |r.asked|)
    && (forall id | 0 <= id < |r.asked| :: id in r.pending || id in r.results)
  }

  ghost predicate SignalsOk(r: Registry) {
    && (forall k | 0 <= k < |r.recorded| :: r.recorded[k].serial == k)
    && (forall key | key in r.latest :: var s := r.latest[key]; s.key == key && s.serial < |r.recorded| && r.recorded[s.serial] == s)
  }

  /** An answer was recorded for the very terminal, no earlier than asked for. */
  ghost predicate Justified(r: Registry, id: nat)
    requires id in r.results && id < |r.asked|
  {
    r.results[id].Received? ==>
      && r.results[id].serial < |r.recorded|
      && r.recorded[r.results[id].serial].key == r.asked[id].key
      && r.recorded[r.results[id].serial].at >= r.asked[id].after
      && r.results[id] == ResultOf(r.recorded[r.results[id].serial])
  }

  /** A signal is consumed at most once, and what is consumed is not kept. */
  ghost predicate ConsumedOnce(r: Registry) {
    && (forall i, j | i in r.results && j in r.results && i != j && r.results[i].Received? && r.results[j].Received? ::
          r.results[i].serial != r.results[j].serial)
    && (forall id, key | id in r.results && r.results[id].Received? && key in r.latest :: r.results[id].serial != r.latest[key].serial)
  }

  ghost predicate Sound(r: Registry) {
    WaitsOk(r) && SignalsOk(r) && ConsumedOnce(r) && forall id | id in r.results :: Justified(r, id)
  }

  /** No wait is parked beside a signal that would answer it. */
  ghost predicate NoneMissed(r: Registry) {
    forall id | id in r.pending :: !NewFor(r, r.pending[id])
  }

  ghost predicate Inv(r: Registry) {
    Sound(r) && NoneMissed(r)
  }

  lemma FinishKeepsSound(r: Registry, id: nat, timedOut: bool)
    requires Sound(r)
    ensures Sound(Finish(r, id, timedOut))
  {
  }

  /** Waking one waiter leaves every wait of another terminal alone, and this waiter with
      nothing to wait for. */
  lemma FinishMissesNone(r: Registry, id: nat, timedOut: bool)
    ensures var r' := Finish(r, id, timedOut);
            && (id in r'.pending ==> !NewFor(r', r'.pending[id]))
            && (timedOut ==> id !in r'.pending)
            && r'.latest.Keys <= r.latest.Keys && (forall key | key in r'.latest :: r'.latest[key] == r.latest[key])
            && r'.pending.Keys <= r.pending.Keys && (forall w | w in r'.pending :: r'.pending[w] == r.pending[w])
  {
  }

  /** The wake loop keeps the registry sound and leaves no listed waiter beside a signal
      that is new for it. */
  lemma {:induction false} WakeAllMissesNone(r: Registry, order: seq<nat>)
    requires Sound(r)
    requires forall id | id in r.pending && NewFor(r, r.pending[id]) :: id in order
    ensures Inv(WakeAll(r, order))
    decreases |order|
  {
    if order != [] {
      FinishKeepsSound(r, order[0], false);
      FinishMissesNone(r, order[0], false);
      var next := Finish(r, order[0], false);
      forall id | id in next.pending && NewFor(next, next.pending[id]) ensures id in order[1..] {
        assert id in order && id != order[0];
      }
      WakeAllMissesNone(next, order[1..]);
    }
  }

  lemma StoredLatest(r: Registry, a: Action, key: Key)
    requires a.Record? && key in Stored(r, a).latest
    ensures if key == a.key then Stored(r, a).latest[key] == Signal(|r.recorded|, a.key, a.confirmed, a.text, a.at)
            else key in r.latest && Stored(r, a).latest[key] == r.latest[key]
  {
  }

  /** Storing a signal disturbs no answer; only waits of its terminal can be woken by it. */
  lemma StoredIsSound(r: Registry, a: Action)
    requires Inv(r) && a.Record?
    ensures Sound(Stored(r, a))
    ensures forall id | id in r.pending && NewFor(Stored(r, a), r.pending[id]) :: r.pending[id].key == a.key
  {
    if a.key in Stored(r, a).latest {
      StoredLatest(r, a, a.key);
    }
    forall key | key in Stored(r, a).latest && key != a.key ensures key in r.latest && Stored(r, a).latest[key] == r.latest[key] {
      StoredLatest(r, a, key);
    }
    StoredAmong(r, Stored(r, a), Signal(|r.recorded|, a.key, a.confirmed, a.text, a.at));
  }

  lemma StoredAmong(r: Registry, after: Registry, signal: Signal)
    requires Inv(r) && signal.serial == |r.recorded|
    requires after == r.(latest := after.latest, recorded := r.recorded + [signal])
    requires forall key | key in after.latest && key != signal.key :: key in r.latest && after.latest[key] == r.latest[key]
    requires signal.key in after.latest ==> after.latest[signal.key] == signal
    ensures Sound(after)
    ensures forall id | id in r.pending && NewFor(after, r.pending[id]) :: r.pending[id].key == signal.key
  {
    assert after.recorded[..|r.recorded|] == r.recorded;
    forall id | id in r.results ensures Justified(after, id) {
      assert Justified(r, id);
    }
  }

  lemma ParkKeepsSound(r: Registry, w: Wait)
    requires Inv(r)
    ensures Sound(r.(asked := r.asked + [w], pending := r.pending[|r.asked| := w]))
  {
    assert (r.asked + [w])[..|r.asked|] == r.asked;
    var r' := r.(asked := r.asked + [w], pending := r.pending[|r.asked| := w]);
    forall id | id in r'.results ensures Justified(r', id) {
      assert Justified(r, id);
    }
  }

  lemma NewWait(r: Registry, a: Action)
    requires Inv(r) && a.Ask?
    ensures var w, parked := Wait(a.key, a.after), r.(asked := r.asked + [Wait(a.key, a.after)], pending := r.pending[|r.asked| := Wait(a.key, a.after)]);
            Step(r, a) == if NewFor(r, w) || a.aborted then Finish(parked, |r.asked|, true) else parked
  {
    var id := |r.asked|;
    assert id !in r.pending;
    assert r.pending[id := Wait(a.key, a.after)] - {id} == r.pending;
  }

  /** Asking is parking, and being woken at once when a signal is there or the caller is
      aborted already. */
  lemma AskKeepsInv(r: Registry, a: Action)
    requires Inv(r) && a.Ask?
    ensures Inv(Step(r, a))
  {
    var w := Wait(a.key, a.after);
    var parked := r.(asked := r.asked + [w], pending := r.pending[|r.asked| := w]);
    NewWait(r, a);
    ParkKeepsSound(r, w);
    if NewFor(r, w) || a.aborted {
      FinishKeepsSound(parked, |r.asked|, true);
      FinishMissesNone(parked, |r.asked|, true);
    }
  }

  lemma StepKeepsInv(r: Registry, a: Action)
    requires Inv(r) && Enabled(r, a)
    ensures Inv(Step(r, a))
  {
    match a {
      case Record(_, _, _, _, _, order) =>
        StoredIsSound(r, a);
        WakeAllMissesNone(Stored(r, a), order);
      case Ask(_, _, _) =>
        AskKeepsInv(r, a);
      case GiveUp(id) =>
        FinishKeepsSound(r, id, true);
        FinishMissesNone(r, id, true);
    }
  }

  // ---------------------------------------------------------------------
  // Whole runs
  // ---------------------------------------------------------------------

  ghost predicate IsRun(states: seq<Registry>, actions: seq<Action>) {
    && |states| == |actions| + 1 && states[0] == EMPTY
    && forall k | 0 <= k < |actions| :: Enabled(states[k], actions[k]) && states[k + 1] == Step(states[k], actions[k])
  }

  /** Under any order of records, waits, timeouts and aborts: every wait is pending or
      answered, each answer comes from a signal of its terminal that is new enough and
      answers nobody else, and no wait is parked beside such a signal. */
  lemma {:induction false} EveryReachableRegistryIsSound(states: seq<Registry>, actions: seq<Action>, j: nat)
    requires IsRun(states, actions) && j < |states|
    ensures Inv(states[j])
  {
    if j > 0 {
      EveryReachableRegistryIsSound(states, actions, j - 1);
      StepKeepsInv(states[j - 1], actions[j - 1]);
    }
  }

  lemma {:induction false} WakeAllKeepsResults(r: Registry, order: seq<nat>, id: nat)
    requires WaitsOk(r) && id in r.results
    ensures id in WakeAll(r, order).results && WakeAll(r, order).results[id] == r.results[id]
    decreases |order|
  {
    if order != [] {
      WakeAllKeepsResults(Finish(r, order[0], false), order[1..], id);
    }
  }

  /** An answer is final, and a wait that times out or is aborted is answered. */
  lemma {:induction false} ResolvedExactlyOnce(states: seq<Registry>, actions: seq<Action>, i: nat, j: nat, id: nat)
    requires IsRun(states, actions) && i <= j < |states|
    requires id in states[i].results
    ensures id in states[j].results && states[j].results[id] == states[i].results[id]
    decreases j - i
  {
    if i < j {
      ResolvedExactlyOnce(states, actions, i, j - 1, id);
      EveryReachableRegistryIsSound(states, actions, j - 1);
      StepKeepsResults(states[j - 1], actions[j - 1], id);
    }
  }

  lemma StepKeepsResults(r: Registry, a: Action, id: nat)
    requires Inv(r) && id in r.results
    ensures id in Step(r, a).results && Step(r, a).results[id] == r.results[id]
  {
    if a.Record? {
      WakeAllKeepsResults(Stored(r, a), a.order, id);
    }
  }

  lemma GiveUpResolves(r: Registry, id: nat)
    requires Inv(r) && id < |r.asked|
    ensures id in Step(r, GiveUp(id)).results && id !in Step(r, GiveUp(id)).pending
  {
  }

  // ---------------------------------------------------------------------
  // What one call achieves
  // ---------------------------------------------------------------------

  /** The wait is parked for this key and a signal recorded at that time is new for it. */
  predicate Awaits(r: Registry, id: nat, key: Key, at: int) {
    id in r.pending && r.pending[id].key == key && r.pending[id].after <= at
  }

  ghost predicate SomeListed(r: Registry, order: seq<nat>, key: Key, at: int) {
    exists i :: 0 <= i < |order| && Awaits(r, order[i], key, at)
  }

  ghost predicate SomeAwaits(r: Registry, key: Key, at: int) {
    exists id :: Awaits(r, id, key, at)
  }

  /** The wake loop over waiters of one key: nobody is answered if no signal of the key is
      there or nobody listed awaits it, and else one of those who do, who takes the signal. */
  lemma {:induction false} WakeAllAnswersOne(r: Registry, order: seq<nat>, key: Key) returns (id: nat)
    requires forall i | 0 <= i < |order| && order[i] in r.pending :: r.pending[order[i]].key == key
    ensures if key in r.latest && SomeListed(r, order, key, r.latest[key].at) then
              && Awaits(r, id, key, r.latest[key].at)
              && WakeAll(r, order) == r.(latest := r.latest - {key}, pending := r.pending - {id}, results := r.results[id := ResultOf(r.latest[key])])
            else WakeAll(r, order) == r
    decreases |order|
  {
    id := 0;
    if order != [] {
      var next := Finish(r, order[0], false);
      if key in r.latest && Awaits(r, order[0], key, r.latest[key].at) {
        id := order[0];
        var rest := WakeAllAnswersOne(next, order[1..], key);
      } else {
        assert next == r;
        assert forall i | 0 <= i < |order| :: i > 0 ==> order[i] == order[1..][i - 1];
        id := WakeAllAnswersOne(r, order[1..], key);
        if key in r.latest && SomeListed(r, order, key, r.latest[key].at) {
          var i :| 0 <= i < |order| && Awaits(r, order[i], key, r.latest[key].at);
          assert i > 0 && Awaits(r, order[1..][i - 1], key, r.latest[key].at);
        }
      }
    }
  }

  /** The tables after a record, before the wake loop. */
  lemma StoredExactly(r: Registry, a: Action, key: Key)
    requires a.Record?
    ensures var after, alone := Stored(r, a).latest, r.latest.Keys <= {a.key};
            && (key in after <==> if key == a.key then alone || a.at >= a.cutoff else key in r.latest && r.latest[key].at >= a.cutoff)
            && (key in after ==> after[key] == if key == a.key then Signal(|r.recorded|, a.key, a.confirmed, a.text, a.at) else r.latest[key])
  {
    var all := r.latest[a.key := Signal(|r.recorded|, a.key, a.confirmed, a.text, a.at)];
    assert all.Keys == r.latest.Keys + {a.key};
    if r.latest.Keys <= {a.key} {
      assert all.Keys == {a.key};
      assert |all| == |all.Keys| == 1;
    } else {
      var other := SomeMember(r.latest.Keys - {a.key});
      SubsetIsSmaller({a.key, other}, all.Keys);
      assert |{a.key, other}| == 2;
      assert |all| == |all.Keys|;
    }
  }

  /** What an answer by this signal says: an empty text counts as none. */
  function AnswerBy(serial: nat, confirmed: bool, text: Option<string>): Result {
    Received(serial, confirmed, if text.Some? && text.value == "" then None else text)
  }

  /** A recorded signal that is not stale already reaches somebody who awaits it, if anybody
      does, exactly one, and nobody else changes; otherwise it is kept for the next who asks. */
  lemma RecordReachesOne(r: Registry, a: Action) returns (id: nat)
    requires Inv(r) && Enabled(r, a) && a.Record? && a.at >= a.cutoff
    ensures var after := Step(r, a);
            if SomeAwaits(r, a.key, a.at) then
              && Awaits(r, id, a.key, a.at) && a.key !in after.latest
              && after.results == r.results[id := AnswerBy(|r.recorded|, a.confirmed, a.text)] && after.pending == r.pending - {id}
            else
              && after.results == r.results && after.pending == r.pending
              && a.key in after.latest && after.latest[a.key] == Signal(|r.recorded|, a.key, a.confirmed, a.text, a.at)
  {
    StoredExactly(r, a, a.key);
    WaitersAreListed(r, a);
    id := WakeAllAnswersOne(Stored(r, a), a.order, a.key);
  }

  lemma WaitersAreListed(r: Registry, a: Action)
    requires Enabled(r, a) && a.Record?
    ensures SomeListed(Stored(r, a), a.order, a.key, a.at) <==> SomeAwaits(r, a.key, a.at)
  {
    if SomeAwaits(r, a.key, a.at) {
      var w :| Awaits(r, w, a.key, a.at);
      assert w in a.order;
      var i :| 0 <= i < |a.order| && a.order[i] == w;
      assert Awaits(Stored(r, a), a.order[i], a.key, a.at);
    }
    if SomeListed(Stored(r, a), a.order, a.key, a.at) {
      var i :| 0 <= i < |a.order| && Awaits(Stored(r, a), a.order[i], a.key, a.at);
      assert Awaits(r, a.order[i], a.key, a.at);
    }
  }

  /** A record keeps the signals of other terminals exactly if they are not older than the
      cutoff; it never looks at the age of a signal that is the only one. */
  lemma RecordRetainsExactly(r: Registry, a: Action, key: Key)
    requires Inv(r) && Enabled(r, a) && a.Record? && key != a.key
    ensures key in Step(r, a).latest <==> key in r.latest && r.latest[key].at >= a.cutoff
    ensures key in Step(r, a).latest ==> Step(r, a).latest[key] == r.latest[key]
    ensures a.key in Step(r, a).latest && a.at < a.cutoff ==> r.latest.Keys <= {a.key}
  {
    StoredExactly(r, a, key);
    StoredExactly(r, a, a.key);
    var id := WakeAllAnswersOne(Stored(r, a), a.order, a.key);
  }

  /** Who asks is answered at once by a new enough signal of the terminal, which is used up;
      else empty-handed if aborted already; else parked. */
  lemma AskExactly(r: Registry, a: Action)
    requires Inv(r) && a.Ask?
    ensures var after, id := Step(r, a), |r.asked|;
            && after.asked == r.asked + [Wait(a.key, a.after)] && after.recorded == r.recorded
            && if a.key in r.latest && r.latest[a.key].at >= a.after then
                 && after.latest == r.latest - {a.key} && after.pending == r.pending
                 && after.results == r.results[id := AnswerBy(r.latest[a.key].serial, r.latest[a.key].confirmed, r.latest[a.key].text)]
               else
                 && after.latest == r.latest
                 && after.results == (if a.aborted then r.results[id := NotReceived] else r.results)
                 && after.pending == if a.aborted then r.pending else r.pending[id := Wait(a.key, a.after)]
  {
  }

  /** Giving up on a parked wait answers it, empty-handed: no signal new for it can be there. */
  lemma GiveUpExactly(r: Registry, id: nat)
    requires Inv(r)
    ensures Step(r, GiveUp(id)) == if id in r.pending then r.(pending := r.pending - {id}, results := r.results[id := NotReceived]) else r
  {
  }

  /** Some wait was answered by the signal of that serial. */
  ghost predicate Answered(r: Registry, serial: nat) {
    exists id :: id in r.results && r.results[id].Received? && r.results[id].serial == serial
  }

  /** The step records a newer signal of the key, or one whose cutoff the old one is below. */
  ghost predicate Displaces(a: Action, s: Signal) {
    a.Record? && (a.key == s.key || s.at < a.cutoff)
  }

  /** The signal is kept for its terminal, or has answered a wait. */
  ghost predicate KeptOrUsed(r: Registry, s: Signal) {
    (s.key in r.latest && r.latest[s.key] == s) || Answered(r, s.serial)
  }

  lemma KeptSignalStays(r: Registry, a: Action, s: Signal)
    requires Inv(r) && Enabled(r, a) && s.key in r.latest && r.latest[s.key] == s && !Displaces(a, s)
    ensures KeptOrUsed(Step(r, a), s)
  {
    match a {
      case Record(_, _, _, _, _, _) =>
        RecordRetainsExactly(r, a, s.key);
      case Ask(_, _, _) =>
        AskExactly(r, a);
        assert s.key !in Step(r, a).latest ==> |r.asked| in Step(r, a).results && Step(r, a).results[|r.asked|].serial == s.serial;
      case GiveUp(id) =>
        GiveUpExactly(r, id);
    }
  }

  lemma UsedSignalStays(r: Registry, a: Action, serial: nat)
    requires Inv(r) && Answered(r, serial)
    ensures Answered(Step(r, a), serial)
  {
    var id :| id in r.results && r.results[id].Received? && r.results[id].serial == serial;
    StepKeepsResults(r, a, id);
  }

  /** Over every run: a kept signal goes away only by answering a wait, by a newer signal of
      its terminal, or by being older than the cutoff of a record. */
  lemma {:induction false} SignalIsKept(states: seq<Registry>, actions: seq<Action>, i: nat, j: nat, s: Signal)
    requires IsRun(states, actions) && i <= j < |states| && KeptOrUsed(states[i], s)
    ensures KeptOrUsed(states[j], s) || exists k :: i <= k < j && Displaces(actions[k], s)
    decreases j - i
  {
    if i < j {
      var p := j - 1;
      SignalIsKept(states, actions, i, p, s);
      EveryReachableRegistryIsSound(states, actions, p);
      assert Enabled(states[p], actions[p]) && states[p + 1] == Step(states[p], actions[p]);
      if KeptOrUsed(states[p], s) && !Displaces(actions[p], s) {
        if Answered(states[p], s.serial) {
          UsedSignalStays(states[p], actions[p], s.serial);
        } else {
          KeptSignalStays(states[p], actions[p], s);
        }
      }
    }
  }

  // ---------------------------------------------------------------------
  // The registry
  // ---------------------------------------------------------------------

  class TurnCompletionRegistry {
    var latest: map<Key, Signal>
    var pending: map<nat, Wait>
    ghost var asked: seq<Wait>
    var results: map<nat, Result>
    ghost var recorded: seq<Signal>
    var nextWait: nat
    var nextSignal: nat

    constructor ()
      ensures State() == EMPTY && Counted()
    {
      latest, pending, results, nextWait, nextSignal := map[], map[], map[], 0, 0;
      asked, recorded := [], [];
    }

    ghost function State(): Registry
      reads this
    {
      Registry(latest, pending, asked, results, recorded)
    }

    ghost predicate Counted()
      reads this
    {
      nextWait == |asked| && nextSignal == |recorded|
    }

    method FinishLocked(id: nat, timedOut: bool)
      modifies this`latest, this`pending, this`results
      ensures State() == Finish(old(State()), id, timedOut)
    {
      if id !in pending {
        return;
      }
      var w := pending[id];
      var isNew := w.key in latest && latest[w.key].at >= w.after;
      if !timedOut && !isNew {
        return;
      }
      pending := pending - {id};
      var result := NotReceived;
      if isNew {
        result := ResultOf(latest[w.key]);
        latest := latest - {w.key};
      }
      results := results[id := result];
    }

    /** record: store, prune, then wake every waiter of the terminal. */
    method RecordSignal(key: Key, confirmed: bool, text: Option<string>, at: int, cutoff: int, order: seq<nat>)
      requires Counted() && Enabled(State(), Record(key, confirmed, text, at, cutoff, order))
      modifies this
      ensures Counted() && State() == Step(old(State()), Record(key, confirmed, text, at, cutoff, order))
    {
      var signal := Signal(nextSignal, key, confirmed, text, at);
      latest := latest[key := signal];
      latest := Pruned(latest, cutoff);
      nextSignal, recorded := nextSignal + 1, recorded + [signal];
      ghost var stored := State();
      for i := 0 to |order|
        invariant Counted() && WakeAll(State(), order[i..]) == WakeAll(stored, order)
      {
        assert order[i..][0] == order[i] && order[i..][1..] == order[i + 1..];
        FinishLocked(order[i], false);
      }
      assert order[|order|..] == [];
    }

    /** waitForSignal up to where it parks. */
    method WaitForSignal(key: Key, after: int, aborted: bool) returns (id: nat)
      requires Counted()
      modifies this
      ensures Counted() && id == |old(asked)| && State() == Step(old(State()), Ask(key, after, aborted))
    {
      id := nextWait;
      nextWait, asked := nextWait + 1, asked + [Wait(key, after)];
      if key in latest && latest[key].at >= after {
        results := results[id := ResultOf(latest[key])];
        latest := latest - {key};
      } else if aborted {
        results := results[id := NotReceived];
      } else {
        pending := pending[id := Wait(key, after)];
      }
    }

    /** The timer or the abort signal fires, possibly after the wait was answered. */
    method OnTimeout(id: nat)
      modifies this`latest, this`pending, this`results
      ensures State() == Step(old(State()), GiveUp(id))
    {
      FinishLocked(id, true);
    }
  }
}
