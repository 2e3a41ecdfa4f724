/** The hook itself: a runner that reads and rewrites the session's state file and
    acknowledges against the daemon, step by step. Every method is proved to compute
    the corresponding function of HookSpec, so what is proved about those functions
    and about runs of DeliveryProtocol holds of this code. */
module HookSession {
  import opened Common
  import opened Projection
  import opened WakeView
  import opened HookSpec
  import opened DeliveryProtocol

  /** One in-memory copy of the state file. */
  class SessionHookState {
    var presented: set<int>
    var delivered: set<int>
    var pendingAck: set<int>
    var deferred: set<int>
    var retained: Records
    var awaiting: bool
    var turnEpoch: Option<nat>
    var waiterEpoch: Option<nat>
    var waiterPid: Option<int>

    constructor (s: Session)
      ensures Value() == s
    {
      presented, delivered, pendingAck, deferred := s.presented, s.delivered, s.pendingAck, s.deferred;
      retained, awaiting := s.retained, s.awaiting;
      turnEpoch, waiterEpoch, waiterPid := s.turnEpoch, s.waiterEpoch, s.waiterPid;
    }

    function Value(): Session
      reads this
    {
      Session(presented, delivered, pendingAck, deferred, retained, awaiting, turnEpoch, waiterEpoch, waiterPid)
    }
  }

  /** file is the state file, cursor the daemon's acknowledgement cursor; memory is what
      the waiters hold in the middle of their iterations. */
  class Runner {
    var file: Session
    var cursor: int
    ghost var memory: map<Waiter, Memory>

    constructor (file: Session, cursor: int)
      ensures this.file == file && this.cursor == cursor && memory == map[]
    {
      this.file, this.cursor, memory := file, cursor, map[];
    }

    ghost function System(): System
      reads this
    {
      DeliveryProtocol.System(file, cursor, memory)
    }

    method ReadState() returns (state: SessionHookState)
      ensures fresh(state) && state.Value() == file
    {
      state := new SessionHookState(file);
    }

    method WriteState(state: SessionHookState)
      modifies this`file
      ensures file == state.Value()
    {
      file := state.Value();
    }

    /** agent.notifications.ack: the daemon moves its cursor when the ack advances it. */
    method Ack(id: int, replies: Replies) returns (reply: Reply)
      modifies this`cursor
      ensures reply == replies(id) && cursor == CursorAfter(old(cursor), id, reply)
    {
      reply := replies(id);
      cursor := CursorAfter(cursor, id, reply);
    }

    // -------------------------------------------------------------------
    // Flush
    // -------------------------------------------------------------------

    /** resolveMinHoldbackEventId */
    method ResolveMinHoldback(state: SessionHookState, conn: Conn, view: Option<PeerView>) returns (hold: int)
      ensures hold == MinHoldback(state.Value(), conn, view)
    {
      var presented := PresentedAbove(state.Value(), conn);
      var known := MergeKnownUnacked(conn, state.retained);
      EligibleFiltersKnown(conn, state.retained, view);
      var unfiltered := CollectCandidates(known, presented);
      if unfiltered == map[] {
        NoKnownNoEligible(conn, state.retained, view, presented);
        NoCandidateNoHoldback(state.Value(), conn, view);
        return MAX_INT64;
      }
      var eligible, working := ResolveEligible(conn, state.retained, view);
      var candidates := CollectCandidates(eligible, presented);
      if candidates == map[] {
        NoCandidateNoHoldback(state.Value(), conn, view);
        return MAX_INT64;
      }
      assert eligible != map[];
      var p := ProjectOutcomes(InOrder(candidates), working);
      OutcomeIdsArePresented(InOrder(candidates), working);
      hold := LowestId(p.deferred + IdsOf(p.outcomes));
    }

    /** The flush loop over the ids in ascending order. */
    method FlushEach(ids: seq<int>, delivered: set<int>, bound: int, shown: set<int>, transcript: Transcript, replies: Replies)
      returns (presented: set<int>, remaining: set<int>, pending: set<int>, withheld: set<int>, ackedAny: bool)
      modifies this`cursor
      ensures var f := FlushLoop(Gate(delivered, transcript, replies), Flush(bound, shown, {}, {}, {}, {}, {}, {}, old(cursor)), ids);
              && presented == f.presented && remaining == f.remaining && pending == f.pending
              && withheld == f.withheld && (ackedAny <==> f.settled != {}) && cursor == f.cursor
    {
      ghost var g := Gate(delivered, transcript, replies);
      ghost var f := Flush(bound, shown, {}, {}, {}, {}, {}, {}, cursor);
      ghost var goal := FlushLoop(g, f, ids);
      var hold := bound;
      presented, remaining, pending, withheld, ackedAny := shown, {}, {}, {}, false;
      var i := 0;
      while i < |ids|
        invariant 0 <= i <= |ids| && FlushLoop(g, f, ids[i..]) == goal
        invariant hold == f.hold && presented == f.presented && remaining == f.remaining && pending == f.pending
        invariant withheld == f.withheld && (ackedAny <==> f.settled != {}) && cursor == f.cursor
      {
        var id := ids[i];
        assert ids[i..][0] == id && ids[i..][1..] == ids[i + 1..];
        if id in delivered && transcript.checked && id !in transcript.injected {
          if id < hold { hold := id; }
          withheld, remaining := withheld + {id}, remaining + {id};
        } else if id >= hold {
          presented, pending := presented + {id}, pending + {id};
        } else {
          var reply := Ack(id, replies);
          if reply.Transient? {
            var rest := set x | x in ids[i..];
            f := FlushBreak(g, f, ids[i..]);
            remaining := remaining + rest * delivered;
            presented, pending := presented + (rest - delivered), pending + (rest - delivered);
            return;
          }
          presented := presented + {id};
          if reply.Advanced? || reply.RowSettled? {
            ackedAny := true;
          } else if reply.OutOfOrder? {
            pending := pending + {id};
          }
        }
        f := FlushOne(g, f, id);
        i := i + 1;
      }
    }

    /** flushDeliveredAcks */
    method FlushDeliveredAcks(state: SessionHookState, conn: Conn, view: Option<PeerView>, transcript: Transcript,
                              replies: Replies, refreshed: Option<Conn>) returns (now: Conn, withheld: set<int>)
      modifies this`file, this`cursor, state
      ensures FlushAcks(old(state.Value()), old(cursor), conn, view, transcript, replies, refreshed)
           == Flushed(state.Value(), withheld, now, cursor)
      ensures file == if old(state.pendingAck + state.delivered == {} && state.deferred == {}) then old(file) else state.Value()
    {
      now, withheld := conn, {};
      if state.pendingAck + state.delivered == {} {
        if state.deferred != {} {
          state.deferred := {};
          WriteState(state);
        }
        return;
      }
      var ackedAny;
      withheld, ackedAny := FlushOwing(state, conn, view, transcript, replies);
      if ackedAny && refreshed.Some? {
        now := refreshed.value;
      }
    }

    method FlushOwing(state: SessionHookState, conn: Conn, view: Option<PeerView>, transcript: Transcript, replies: Replies)
      returns (withheld: set<int>, ackedAny: bool)
      modifies this`file, this`cursor, state
      ensures var r := FlushRun(old(state.Value()), old(cursor), conn, view, transcript, replies);
              && state.Value() == AfterFlush(old(state.Value()), r) && file == state.Value()
              && withheld == r.withheld && (ackedAny <==> r.settled != {}) && cursor == r.cursor
    {
      var hold := ResolveMinHoldback(state, conn, view);
      var presented, remaining, pending;
      presented, remaining, pending, withheld, ackedAny :=
        FlushEach(SortedIds(state.pendingAck + state.delivered), state.delivered, hold, state.presented, transcript, replies);
      StoreFlushed(state, presented, remaining, pending);
    }

    method StoreFlushed(state: SessionHookState, presented: set<int>, remaining: set<int>, pending: set<int>)
      modifies this`file, state
      ensures state.Value() == old(state.Value()).(presented := LastN(presented, PRESENTED_LIMIT), delivered := remaining, pendingAck := pending)
      ensures file == state.Value()
    {
      state.presented := LastN(presented, PRESENTED_LIMIT);
      state.delivered, state.pendingAck := remaining, pending;
      WriteState(state);
    }

    // -------------------------------------------------------------------
    // Take
    // -------------------------------------------------------------------

    /** The acks of a projection without outcomes, lowest id first. */
    method SettleEach(suppressed: seq<int>, hold: int, shown: set<int>, replies: Replies) returns (presented: set<int>, held: set<int>)
      modifies this`cursor
      ensures var t := SettleSuppressed(suppressed, hold, replies, Settling(shown, {}, {}, old(cursor)));
              presented == t.presented && held == t.held && cursor == t.cursor
    {
      ghost var t := Settling(shown, {}, {}, cursor);
      ghost var goal := SettleSuppressed(suppressed, hold, replies, t);
      presented, held := shown, {};
      var i := 0;
      while i < |suppressed|
        invariant 0 <= i <= |suppressed| && SettleSuppressed(suppressed[i..], hold, replies, t) == goal
        invariant presented == t.presented && held == t.held && cursor == t.cursor
      {
        var id := suppressed[i];
        assert suppressed[i..][0] == id && suppressed[i..][1..] == suppressed[i + 1..];
        if id > hold {
          presented, held := presented + {id}, held + {id};
          t := t.(presented := presented, held := held);
        } else {
          var reply := Ack(id, replies);
          t := t.(tried := t.tried + {id}, cursor := cursor);
          if reply.OutOfOrder? || reply.Transient? {
            return;
          }
          presented := presented + {id};
          t := t.(presented := presented);
        }
        i := i + 1;
      }
    }

    /** dropStaleDelivered: walks the delivered ids and keeps those that are still
        eligible or were just withheld. */
    method DropStaleDelivered(state: SessionHookState, eligible: Records, withheld: set<int>) returns (changed: bool)
      modifies state`delivered
      ensures state.delivered == KeepLive(old(state.delivered), eligible, withheld)
      ensures changed <==> state.delivered != old(state.delivered)
    {
      var delivered, kept: set<int>, todo := state.delivered, {}, state.delivered;
      while todo != {}
        invariant todo <= delivered && kept <= delivered
        invariant forall x | x in delivered && x !in todo :: x in kept <==> x in eligible || x in withheld
        invariant kept !! todo
        decreases |todo|
      {
        var id, rest := NextLowest(todo);
        if id in eligible || id in withheld {
          kept := kept + {id};
        }
        todo := rest;
      }
      forall x ensures x in kept <==> x in KeepLive(delivered, eligible, withheld) {
        assert x !in todo;
      }
      changed := kept != delivered;
      state.delivered := kept;
    }

    method TakeNoCandidate(state: SessionHookState, eligible: Records, withheld: set<int>)
      modifies this`file, state
      ensures var t := TakeNothing(old(state.Value()), cursor, eligible, old(state.presented), withheld);
              state.Value() == t.session && file == if t.wrote then state.Value() else old(file)
    {
      var retained := RetainWakeCandidates(eligible, state.presented, state.delivered);
      var dirty := DropStaleDelivered(state, eligible, withheld);
      if state.deferred != {} || state.retained.Keys != retained.Keys {
        state.deferred, state.retained := {}, retained;
        dirty := true;
      }
      if dirty {
        WriteState(state);
      }
    }

    method TakeOnlySuppressed(state: SessionHookState, eligible: Records, list: seq<Event>, working: set<string>, p: Projection, replies: Replies)
      requires p.deferred == DeferredIds(list, working) && p.suppressed == SuppressedIds(list, working)
      modifies this`file, this`cursor, state
      ensures var t := TakeSuppressed(old(state.Value()), old(cursor), eligible, old(state.presented), list, working, replies);
              state.Value() == t.session && cursor == t.cursor && file == state.Value()
    {
      var presented, held := SettleEach(SortedIds(p.suppressed), LowestId(p.deferred + state.delivered), state.presented, replies);
      var retained := RetainWakeCandidates(eligible, presented, state.delivered);
      StoreSettled(state, presented, p.deferred, held, retained);
    }

    method StoreSettled(state: SessionHookState, presented: set<int>, deferred: set<int>, held: set<int>, retained: Records)
      modifies this`file, state
      ensures state.Value() == old(state.Value()).(presented := LastN(presented, PRESENTED_LIMIT), deferred := deferred,
                                                   pendingAck := old(state.pendingAck) + held, retained := retained)
      ensures file == state.Value()
    {
      state.presented := LastN(presented, PRESENTED_LIMIT);
      state.deferred, state.pendingAck, state.retained := deferred, state.pendingAck + held, retained;
      WriteState(state);
    }

    method TakeOutcomes(state: SessionHookState, eligible: Records, list: seq<Event>, working: set<string>, p: Projection)
      requires p.deferred == DeferredIds(list, working) && p.suppressed == SuppressedIds(list, working)
      requires p.outcomes == OutcomesOf(list, working)
      modifies this`file, state
      ensures state.Value() == TakeBatch(old(state.Value()), cursor, eligible, old(state.presented), list, working).session
      ensures file == state.Value()
    {
      var presented := state.presented + p.suppressed + IdsOf(p.outcomes);
      state.presented := LastN(presented, PRESENTED_LIMIT);
      state.delivered := state.delivered + IdsOf(p.outcomes);
      state.pendingAck := state.pendingAck + p.suppressed;
      state.deferred := p.deferred;
      state.retained := RetainWakeCandidates(eligible, presented, state.delivered);
      WriteState(state);
    }

    /** takeNextWakeBatch */
    method TakeNextWakeBatch(state: SessionHookState, conn: Conn, view: Option<PeerView>, withheld: set<int>, replies: Replies)
      returns (batch: Option<seq<Outcome>>)
      modifies this`file, this`cursor, state
      ensures var t := Take(old(state.Value()), old(cursor), conn, view, withheld, replies);
              && state.Value() == t.session && batch == t.batch && cursor == t.cursor
              && file == if t.wrote then state.Value() else old(file)
    {
      ghost var s := state.Value();
      state.presented := PresentedAbove(state.Value(), conn);
      var eligible, working := ResolveEligible(conn, state.retained, view);
      var candidates := CollectCandidates(eligible, state.presented);
      assert candidates == CandidateMap(s, conn, view);
      if candidates == map[] {
        TrimmedTakesNothing(s, cursor, eligible, state.presented, withheld);
        TakeNoCandidate(state, eligible, withheld);
        return None;
      }
      assert eligible != map[];
      var list := InOrder(candidates);
      var p := ProjectOutcomes(list, working);
      if p.outcomes == [] {
        TrimmedTakesSuppressed(s, cursor, eligible, state.presented, list, working, replies);
        TakeOnlySuppressed(state, eligible, list, working, p, replies);
        return None;
      }
      TrimmedTakesBatch(s, cursor, eligible, state.presented, list, working);
      TakeOutcomes(state, eligible, list, working, p);
      return Some(p.outcomes);
    }

    // -------------------------------------------------------------------
    // Peek, re-arm and clear
    // -------------------------------------------------------------------

    method PeekNoCandidate(state: SessionHookState, eligible: Records, waiter: Waiter)
      modifies this`file, state
      requires !Superseded(file, waiter)
      ensures var p := PeekNothing(old(state.Value()), old(file), cursor, eligible, old(state.presented));
              state.Value() == p.seen && file == p.file
    {
      var latest := ReadState();
      var retained := RetainWakeCandidates(eligible, state.presented, latest.delivered);
      var dirty := DropStaleDelivered(latest, eligible, {});
      StoreNoCandidate(state, latest, retained, dirty);
    }

    /** latest is the file with the stale delivered ids dropped; it is written back only if
        that, or the snapshot, changed it. */
    method StoreNoCandidate(state: SessionHookState, latest: SessionHookState, retained: Records, dirty: bool)
      requires state != latest && file == latest.Value().(delivered := file.delivered) && (dirty <==> latest.delivered != file.delivered)
      modifies this`file, state, latest
      ensures var resnapshot := old(file).deferred != {} || old(file).retained.Keys != retained.Keys;
              var s := if resnapshot then old(state.Value()).(deferred := {}, retained := retained) else old(state.Value());
              && state.Value() == (if resnapshot || dirty then s.(delivered := old(latest.delivered)) else s)
              && file == if resnapshot then old(latest.Value()).(deferred := {}, retained := retained) else old(latest.Value())
    {
      var resnapshot := latest.deferred != {} || latest.retained.Keys != retained.Keys;
      if resnapshot {
        Resnapshot(latest, retained);
        Resnapshot(state, retained);
      }
      if dirty || resnapshot {
        state.delivered := latest.delivered;
        WriteState(latest);
      }
    }

    method Resnapshot(state: SessionHookState, retained: Records)
      modifies state
      ensures state.Value() == old(state.Value()).(deferred := {}, retained := retained)
    {
      state.deferred, state.retained := {}, retained;
    }

    /** The write after the acks: nothing at all when a newer turn owns the session. */
    method PeekStore(state: SessionHookState, conn: Conn, eligible: Records, deferred: set<int>, hasOutcomes: bool,
                     presented: set<int>, held: set<int>, waiter: Waiter) returns (result: PeekResult)
      requires state.presented == PresentedAbove(state.Value(), conn)
      modifies this`file, state
      ensures var t := Settling(presented, held, {}, cursor);
              var p := PeekWrite(old(state.Value()), old(file), conn, eligible, deferred, t, hasOutcomes, waiter);
              state.Value() == p.seen && file == p.file && result == p.result
    {
      if Superseded(file, waiter) {
        return PeekResult(false, false, true);
      }
      var retained := RetainWakeCandidates(eligible, presented, file.delivered);
      PeekStoreCurrent(state, PresentedAbove(file, conn) + presented, deferred, held, retained);
      result := PeekResult(deferred != {}, hasOutcomes, false);
    }

    /** Writes the file's own copy and carries what changed over to the caller's. */
    method PeekStoreCurrent(state: SessionHookState, presented: set<int>, deferred: set<int>, held: set<int>, retained: Records)
      modifies this`file, state
      ensures file == old(file).(presented := LastN(presented, PRESENTED_LIMIT), deferred := deferred,
                                 pendingAck := old(file).pendingAck + held, retained := retained)
      ensures state.Value() == old(state.Value()).(presented := file.presented, deferred := deferred,
                                                   pendingAck := file.pendingAck, retained := retained)
    {
      var latest := ReadState();
      StoreSettled(latest, presented, deferred, held, retained);
      state.presented, state.deferred, state.pendingAck, state.retained :=
        latest.presented, latest.deferred, latest.pendingAck, latest.retained;
    }

    /** peekNextWakeBatch */
    method PeekNextWakeBatch(state: SessionHookState, conn: Conn, view: Option<PeerView>, waiter: Waiter, replies: Replies)
      returns (result: PeekResult)
      modifies this`file, this`cursor, state
      ensures Peek(old(state.Value()), old(file), old(cursor), conn, view, waiter, replies)
           == Peeked(state.Value(), file, cursor, result)
    {
      ghost var s := state.Value();
      state.presented := PresentedAbove(state.Value(), conn);
      var eligible, working := ResolveEligible(conn, state.retained, view);
      var candidates := CollectCandidates(eligible, state.presented);
      assert candidates == CandidateMap(s, conn, view);
      if candidates == map[] {
        if Superseded(file, waiter) {
          return PeekResult(false, false, true);
        }
        TrimmedPeeksNothing(s, file, cursor, eligible, state.presented);
        PeekNoCandidate(state, eligible, waiter);
        return PeekResult(false, false, false);
      }
      assert eligible != map[];
      var list := InOrder(candidates);
      var p := ProjectOutcomes(list, working);
      var presented, held := PeekSettle(list, working, p, state.delivered + file.delivered, state.presented, replies);
      ghost var t := PeekSettling(list, working, s.delivered + file.delivered, state.presented, old(cursor), replies);
      TrimmedPeekWrites(s, file, conn, eligible, p.deferred, t, p.outcomes != [], waiter, state.Value());
      result := PeekStore(state, conn, eligible, p.deferred, p.outcomes != [], presented, held, waiter);
    }

    method PeekSettle(list: seq<Event>, working: set<string>, p: Projection, delivered: set<int>, shown: set<int>, replies: Replies)
      returns (presented: set<int>, held: set<int>)
      requires p.deferred == DeferredIds(list, working) && p.suppressed == SuppressedIds(list, working)
      requires p.outcomes == OutcomesOf(list, working)
      modifies this`cursor
      ensures var t := PeekSettling(list, working, delivered, shown, old(cursor), replies);
              presented == t.presented && held == t.held && cursor == t.cursor
    {
      presented, held := shown, {};
      if p.outcomes == [] {
        presented, held := SettleEach(SortedIds(p.suppressed), LowestId(p.deferred + delivered), shown, replies);
      }
    }

    /** rearmDeliveredEvents */
    method RearmDeliveredEvents()
      modifies this`file
      ensures file == Rearm(old(file))
    {
      var state := ReadState();
      if state.delivered == {} {
        return;
      }
      state.presented := state.presented - state.delivered;
      WriteState(state);
    }

    /** clearStaleDeliveredEvents */
    method ClearStaleDeliveredEvents(waiter: Waiter, targets: set<int>)
      modifies this`file
      ensures file == ClearStale(old(file), waiter, targets)
    {
      if targets == {} {
        return;
      }
      var state := ReadState();
      if Superseded(file, waiter) {
        return;
      }
      state.delivered := state.delivered - targets;
      WriteState(state);
    }

    // -------------------------------------------------------------------
    // The steps of a waiter
    // -------------------------------------------------------------------

    /** The waiter reads the file. */
    method Look(waiter: Waiter) returns (state: SessionHookState)
      modifies this`memory
      ensures fresh(state) && state.Value() == file
      ensures System() == Step(old(System()), DeliveryProtocol.Look(waiter))
    {
      memory := Remember(memory, waiter, LookAgain(System(), waiter));
      state := ReadState();
    }

    ghost predicate Holds(waiter: Waiter, state: SessionHookState)
      reads this, state
    {
      && waiter in memory && memory[waiter].seen == state.Value()
      && (memory[waiter].stage.Looked? || memory[waiter].stage.Reread?)
    }

    /** One peek of the owner's waiter on the copy it holds. */
    method Poll(waiter: Waiter, state: SessionHookState, conn: Conn, view: Option<PeerView>, replies: Replies) returns (result: PeekResult)
      requires Holds(waiter, state) && IsLocalOwner(conn)
      modifies this, state
      ensures var a := DeliveryProtocol.Poll(waiter, conn, view, replies);
              && System() == Step(old(System()), a)
              && PeekAt(old(System()), a) == Peeked(state.Value(), file, cursor, result)
    {
      ghost var y := System();
      result := PeekNextWakeBatch(state, conn, view, waiter, replies);
      PollIsPeek(y, DeliveryProtocol.Poll(waiter, conn, view, replies));
      memory := Remember(memory, waiter, AfterPeek(memory[waiter], state.Value(), result));
    }

    /** The generation check before a re-arm. */
    method Check(waiter: Waiter) returns (superseded: bool)
      requires waiter in memory
      modifies this`memory
      ensures System() == Step(old(System()), DeliveryProtocol.Check(waiter))
      ensures superseded <==> Superseded(file, waiter)
    {
      superseded := Superseded(file, waiter);
      memory := Remember(memory, waiter, if superseded then None else Some(memory[waiter].(stage := Checked)));
    }

    method RearmBatch(waiter: Waiter)
      requires waiter in memory
      modifies this`file, this`memory
      ensures System() == Step(old(System()), DeliveryProtocol.RearmBatch(waiter))
    {
      RearmDeliveredEvents();
      memory := memory[waiter := Memory(memory[waiter].seen, memory[waiter].seen.delivered, Rearmed)];
    }

    method Clear(waiter: Waiter, targets: set<int>)
      requires waiter in memory && memory[waiter].targets == targets
      modifies this`file, this`memory
      ensures System() == Step(old(System()), DeliveryProtocol.Clear(waiter))
    {
      ClearStaleDeliveredEvents(waiter, targets);
      memory := memory - {waiter};
    }

    // -------------------------------------------------------------------
    // The hook events
    // -------------------------------------------------------------------

    /** The PreInvocation hook. inject is the batch the host is handed. */
    method RunPreInvocation(newTurn: bool, conn: Option<Conn>, view: Option<PeerView>, replies: Replies)
      returns (inject: Option<seq<Outcome>>)
      modifies this`file, this`cursor
      ensures var a := PreInvocation(newTurn, conn, view, replies);
              && System() == Step(old(System()), a)
              && BatchIds(old(System()), a) == (if inject.Some? then IdsOf(inject.value) else {})
    {
      inject := None;
      var state := StartTurn(newTurn);
      if conn.None? {
        return;
      }
      if !IsLocalOwner(conn.value) {
        DropOwed(state);
        return;
      }
      OwnedPreInvocation(old(System()), PreInvocation(newTurn, conn, view, replies));
      inject := TakeNextWakeBatch(state, conn.value, view, {}, replies);
    }

    method StartTurn(newTurn: bool) returns (state: SessionHookState)
      modifies this`file
      ensures fresh(state) && state.Value() == file == BeginTurn(old(file), newTurn)
    {
      state := ReadState();
      if state.awaiting || state.waiterPid.Some? || state.turnEpoch.None? || newTurn {
        state.turnEpoch := Some((if state.turnEpoch.Some? then state.turnEpoch.value else 0) + 1);
        state.awaiting, state.waiterPid, state.waiterEpoch := false, None, None;
        WriteState(state);
      }
    }

    /** Ownership moved elsewhere: the new owner decides about everything still owed. */
    method DropOwed(state: SessionHookState)
      modifies this`file, state
      ensures file == Disown(old(state.Value()))
    {
      state.delivered, state.pendingAck, state.deferred, state.retained := {}, {}, {}, map[];
      WriteState(state);
    }

    /** The Stop hook of an abnormally terminated turn. */
    method RunAbnormalStop()
      modifies this`file, this`cursor
      ensures System() == Step(old(System()), AbnormalStop)
    {
      var state := ReadState();
      state.awaiting := true;
      if state.delivered != {} {
        state.presented, state.delivered := state.presented - state.delivered, {};
      }
      WriteState(state);
    }

    /** The Stop hook of a finished turn. pid is the spawned waiter's, if the spawn
        reported one. */
    method RunStop(conn: Option<Conn>, transcript: Transcript, flushView: Option<PeerView>, flushReplies: Replies, refreshed: Option<Conn>,
                   view: Option<PeerView>, replies: Replies, keepWaiter: bool, pid: Option<int>) returns (batch: Option<seq<Outcome>>)
      modifies this`file, this`cursor
      ensures var a := Stop(conn, transcript, flushView, flushReplies, refreshed, view, replies, keepWaiter, pid);
              && System() == Step(old(System()), a)
              && BatchIds(old(System()), a) == (if batch.Some? then IdsOf(batch.value) else {})
    {
      batch := None;
      if conn.None? {
        return;
      }
      var state := ReadState();
      state.awaiting := true;
      if !IsLocalOwner(conn.value) {
        WriteState(state);
        return;
      }
      OwnedStop(old(System()), Stop(conn, transcript, flushView, flushReplies, refreshed, view, replies, keepWaiter, pid));
      batch := FlushAndTake(state, conn.value, transcript, flushView, flushReplies, refreshed, view, replies, keepWaiter, pid);
    }

    /** The owner's Stop, from its own copy of the file. */
    method FlushAndTake(state: SessionHookState, conn: Conn, transcript: Transcript, flushView: Option<PeerView>, flushReplies: Replies,
                        refreshed: Option<Conn>, view: Option<PeerView>, replies: Replies, keepWaiter: bool, pid: Option<int>)
      returns (batch: Option<seq<Outcome>>)
      modifies this`file, this`cursor, state
      ensures var f := FlushAcks(old(state.Value()), old(cursor), conn, flushView, transcript, flushReplies, refreshed);
              var t := Take(f.session, f.cursor, f.conn, view, f.withheld, replies);
              && file == (if keepWaiter then ParkWaiter(t.session, pid) else t.session)
              && cursor == t.cursor && batch == t.batch
    {
      var now, withheld := FlushDeliveredAcks(state, conn, flushView, transcript, flushReplies, refreshed);
      batch := TakeAndPark(state, now, view, withheld, replies, keepWaiter, pid);
    }

    method TakeAndPark(state: SessionHookState, now: Conn, view: Option<PeerView>, withheld: set<int>, replies: Replies,
                       keepWaiter: bool, pid: Option<int>) returns (batch: Option<seq<Outcome>>)
      modifies this`file, this`cursor, state
      ensures var t := Take(old(state.Value()), old(cursor), now, view, withheld, replies);
              && file == (if keepWaiter then ParkWaiter(t.session, pid) else t.session)
              && cursor == t.cursor && batch == t.batch
    {
      batch := TakeNextWakeBatch(state, now, view, withheld, replies);
      if keepWaiter {
        StartWaiter(state, pid);
      } else {
        WriteState(state);
      }
    }

    method StartWaiter(state: SessionHookState, pid: Option<int>)
      modifies this`file, state
      ensures file == ParkWaiter(old(state.Value()), pid)
    {
      var epoch: nat := (if state.turnEpoch.Some? then state.turnEpoch.value else 0) + 1;
      state.turnEpoch, state.waiterEpoch, state.waiterPid := Some(epoch), Some(epoch), None;
      WriteState(state);
      if pid.Some? {
        state.waiterPid := pid;
        WriteState(state);
      }
    }
  }

  /** collectWakeCandidateEvents */
  method CollectCandidates(known: Records, presented: set<int>) returns (candidates: Records)
    ensures candidates == Candidates(known, presented)
  {
    candidates := FilterEntries(known, (id, e) => id !in presented);
  }

  lemma NoKnownNoEligible(conn: Conn, retained: Records, view: Option<PeerView>, presented: set<int>)
    requires Candidates(KnownUnacked(conn, retained), presented) == map[]
    ensures Candidates(Eligible(conn, retained, view), presented) == map[]
  {
  }

  lemma NoCandidateNoHoldback(s: Session, conn: Conn, view: Option<PeerView>)
    requires CandidateMap(s, conn, view) == map[]
    ensures MinHoldback(s, conn, view) == MAX_INT64
  {
  }

  // Trimming the presented list in the session first changes none of the branches.

  lemma TrimmedTakesNothing(s: Session, cursor: int, eligible: Records, presented: set<int>, withheld: set<int>)
    ensures TakeNothing(s.(presented := presented), cursor, eligible, presented, withheld)
         == TakeNothing(s, cursor, eligible, presented, withheld)
  {
  }

  lemma TrimmedPeeksNothing(s: Session, file: Session, cursor: int, eligible: Records, presented: set<int>)
    ensures PeekNothing(s.(presented := presented), file, cursor, eligible, presented)
         == PeekNothing(s, file, cursor, eligible, presented)
  {
  }

  lemma TrimmedPeekWrites(s: Session, file: Session, conn: Conn, eligible: Records, deferred: set<int>, t: Settling, hasOutcomes: bool,
                          waiter: Waiter, trimmed: Session)
    requires trimmed == s.(presented := PresentedAbove(s, conn))
    ensures trimmed.presented == PresentedAbove(trimmed, conn)
    ensures PeekWrite(trimmed, file, conn, eligible, deferred, t.(tried := {}), hasOutcomes, waiter)
         == PeekWrite(s, file, conn, eligible, deferred, t, hasOutcomes, waiter)
  {
  }

  lemma TrimmedTakesSuppressed(s: Session, cursor: int, eligible: Records, presented: set<int>, list: seq<Event>, working: set<string>, replies: Replies)
    ensures TakeSuppressed(s.(presented := presented), cursor, eligible, presented, list, working, replies)
         == TakeSuppressed(s, cursor, eligible, presented, list, working, replies)
  {
  }

  lemma TrimmedTakesBatch(s: Session, cursor: int, eligible: Records, presented: set<int>, list: seq<Event>, working: set<string>)
    ensures TakeBatch(s.(presented := presented), cursor, eligible, presented, list, working)
         == TakeBatch(s, cursor, eligible, presented, list, working)
  {
  }
}
