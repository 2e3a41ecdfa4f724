/** The hook's state and what each of its operations computes, as functions of the
    stored session, the daemon's answers and the live peer view. */
module HookSpec {
  import opened Common
  import opened Projection
  import opened WakeView

  const PRESENTED_LIMIT: nat := 500

  /** The state file of one session. Id lists are kept sorted and free of duplicates,
      so they are sets; the retained snapshot is sorted by id, so it is a map. */
  datatype Session = Session(
    presented: set<int>,
    delivered: set<int>,
    pendingAck: set<int>,
    deferred: set<int>,
    retained: Records,
    awaiting: bool,
    turnEpoch: Option<nat>,
    waiterEpoch: Option<nat>,
    waiterPid: Option<int>)

  /** The answer to one acknowledgement. Advanced settles every row at or below the id
      and moves the cursor; RowSettled settles the one row of a sibling workspace. */
  datatype Reply = Advanced | RowSettled | Permanent | OutOfOrder | Transient

  type Replies = int -> Reply

  datatype Waiter = Waiter(epoch: nat, pid: int)

  function CursorAfter(cursor: int, id: int, reply: Reply): int {
    if reply.Advanced? then Max(cursor, id) else cursor
  }

  /** minDeferredEventId: the lowest id, unbounded for none. */
  function LowestId(ids: set<int>): (m: int)
    ensures forall x | x in ids && x <= MAX_INT64 :: m <= x
    ensures ids == {} ==> m == MAX_INT64
    ensures ids != {} ==> m in ids && forall x | x in ids :: m <= x
  {
    if ids == {} then MAX_INT64 else MinId(ids)
  }

  function PresentedAbove(s: Session, conn: Conn): set<int> {
    set x | x in s.presented && x > AckedId(conn)
  }

  function CandidateMap(s: Session, conn: Conn, view: Option<PeerView>): Records {
    Candidates(Eligible(conn, s.retained, view), PresentedAbove(s, conn))
  }

  function CandidateList(s: Session, conn: Conn, view: Option<PeerView>): seq<Event> {
    InOrder(CandidateMap(s, conn, view))
  }

  // ---------------------------------------------------------------------
  // Flushing the acknowledgements
  // ---------------------------------------------------------------------

  /** resolveMinHoldbackEventId: the lowest id that must not be acknowledged yet. */
  ghost function MinHoldback(s: Session, conn: Conn, view: Option<PeerView>): int {
    var list := CandidateList(s, conn, view);
    LowestId(DeferredIds(list, Working(view)) + PresentedIds(list, Working(view)))
  }

  /** The accumulators of the flush loop. tried are the ids an ack was sent for,
      settled those it landed for and dropped the permanent failures among them. */
  datatype Flush = Flush(
    hold: int,
    presented: set<int>,
    remaining: set<int>,
    pending: set<int>,
    withheld: set<int>,
    tried: set<int>,
    settled: set<int>,
    dropped: set<int>,
    cursor: int)

  /** What the transcript says: whether it could be read, and the ids it confirms. */
  datatype Transcript = Transcript(checked: bool, injected: set<int>)

  predicate Withheld(delivered: set<int>, transcript: Transcript, id: int) {
    id in delivered && transcript.checked && id !in transcript.injected
  }

  /** What decides the fate of an id in the flush loop. */
  datatype Gate = Gate(delivered: set<int>, transcript: Transcript, replies: Replies)

  /** A transient failure ends the loop. */
  predicate Breaks(g: Gate, f: Flush, id: int) {
    !Withheld(g.delivered, g.transcript, id) && id < f.hold && g.replies(id).Transient?
  }

  function FlushOne(g: Gate, f: Flush, id: int): Flush {
    if Withheld(g.delivered, g.transcript, id) then
      f.(hold := if id < f.hold then id else f.hold, withheld := f.withheld + {id}, remaining := f.remaining + {id})
    else if id >= f.hold then
      f.(presented := f.presented + {id}, pending := f.pending + {id})
    else
      var sent := f.(tried := f.tried + {id}, cursor := CursorAfter(f.cursor, id, g.replies(id)), presented := f.presented + {id});
      match g.replies(id)
      case Advanced => sent.(settled := f.settled + {id})
      case RowSettled => sent.(settled := f.settled + {id})
      case Permanent => sent.(dropped := f.dropped + {id})
      case OutOfOrder => sent.(pending := f.pending + {id})
      case Transient => sent
  }

  /** After a transient failure the rest keeps its side: delivered ids stay delivered,
      the others stay pending. */
  function FlushBreak(g: Gate, f: Flush, todo: seq<int>): Flush
    requires todo != []
  {
    var rest := set x | x in todo;
    f.(tried := f.tried + {todo[0]},
       remaining := f.remaining + (rest * g.delivered),
       pending := f.pending + (rest - g.delivered),
       presented := f.presented + (rest - g.delivered))
  }

  function FlushLoop(g: Gate, f: Flush, todo: seq<int>): Flush
    decreases |todo|
  {
    if todo == [] then f
    else if Breaks(g, f, todo[0]) then FlushBreak(g, f, todo)
    else FlushLoop(g, FlushOne(g, f, todo[0]), todo[1..])
  }

  ghost function FlushStart(s: Session, cursor: int, conn: Conn, view: Option<PeerView>): Flush {
    Flush(MinHoldback(s, conn, view), s.presented, {}, {}, {}, {}, {}, {}, cursor)
  }

  ghost function FlushRun(s: Session, cursor: int, conn: Conn, view: Option<PeerView>, transcript: Transcript, replies: Replies): Flush {
    FlushLoop(Gate(s.delivered, transcript, replies), FlushStart(s, cursor, conn, view), SortedIds(s.pendingAck + s.delivered))
  }

  function AfterFlush(s: Session, f: Flush): Session {
    s.(presented := LastN(f.presented, PRESENTED_LIMIT), delivered := f.remaining, pendingAck := f.pending)
  }

  /** The session, the ids the transcript gate held back, the connection state to go
      on with and the daemon's cursor after a flush. */
  datatype Flushed = Flushed(session: Session, withheld: set<int>, conn: Conn, cursor: int)

  ghost function FlushAcks(s: Session, cursor: int, conn: Conn, view: Option<PeerView>, transcript: Transcript,
                           replies: Replies, refreshed: Option<Conn>): Flushed
  {
    if s.pendingAck + s.delivered == {} then
      Flushed(s.(deferred := {}), {}, conn, cursor)
    else
      var f := FlushRun(s, cursor, conn, view, transcript, replies);
      Flushed(
        AfterFlush(s, f),
        f.withheld,
        if f.settled != {} && refreshed.Some? then refreshed.value else conn,
        f.cursor)
  }

  // ---------------------------------------------------------------------
  // Acknowledging what a projection without outcomes suppressed
  // ---------------------------------------------------------------------

  datatype Settling = Settling(presented: set<int>, held: set<int>, tried: set<int>, cursor: int)

  function SettleSuppressed(todo: seq<int>, hold: int, replies: Replies, t: Settling): Settling {
    if todo == [] then t else
      var id := todo[0];
      if id > hold then
        SettleSuppressed(todo[1..], hold, replies, t.(presented := t.presented + {id}, held := t.held + {id}))
      else
        var sent := t.(tried := t.tried + {id}, cursor := CursorAfter(t.cursor, id, replies(id)));
        match replies(id)
        case Advanced => SettleSuppressed(todo[1..], hold, replies, sent.(presented := t.presented + {id}))
        case RowSettled => SettleSuppressed(todo[1..], hold, replies, sent.(presented := t.presented + {id}))
        case Permanent => SettleSuppressed(todo[1..], hold, replies, sent.(presented := t.presented + {id}))
        case OutOfOrder => sent
        case Transient => sent
  }

  /** All suppressed ids of a projection, lowest first, held above any deferred or
      delivered id. */
  ghost function SettleAll(list: seq<Event>, working: set<string>, delivered: set<int>, presented: set<int>, cursor: int, replies: Replies): Settling {
    SettleSuppressed(SortedIds(SuppressedIds(list, working)), LowestId(DeferredIds(list, working) + delivered), replies,
                     Settling(presented, {}, {}, cursor))
  }

  // ---------------------------------------------------------------------
  // Taking a batch
  // ---------------------------------------------------------------------

  /** dropStaleDelivered */
  function KeepLive(delivered: set<int>, eligible: Records, withheld: set<int>): set<int> {
    set x | x in delivered && (x in eligible || x in withheld)
  }

  /** A batch is taken (with the ids it carries), or there is nothing to inject.
      wrote says whether the state file was rewritten. */
  datatype Taken = Taken(session: Session, batch: Option<seq<Outcome>>, cursor: int, wrote: bool)

  ghost function TakeNothing(s: Session, cursor: int, eligible: Records, presented: set<int>, withheld: set<int>): Taken {
    var retained := Retain(eligible, presented, s.delivered);
    var delivered := KeepLive(s.delivered, eligible, withheld);
    var resnapshot := s.deferred != {} || s.retained.Keys != retained.Keys;
    var s1 := s.(presented := presented, delivered := delivered);
    Taken(if resnapshot then s1.(deferred := {}, retained := retained) else s1,
          None, cursor, delivered != s.delivered || resnapshot)
  }

  ghost function TakeSuppressed(s: Session, cursor: int, eligible: Records, presented: set<int>,
                                list: seq<Event>, working: set<string>, replies: Replies): Taken
  {
    var t := SettleAll(list, working, s.delivered, presented, cursor, replies);
    Taken(s.(presented := LastN(t.presented, PRESENTED_LIMIT),
             deferred := DeferredIds(list, working),
             pendingAck := s.pendingAck + t.held,
             retained := Retain(eligible, t.presented, s.delivered)),
          None, t.cursor, true)
  }

  ghost function TakeBatch(s: Session, cursor: int, eligible: Records, presented: set<int>,
                           list: seq<Event>, working: set<string>): Taken
  {
    var outcomes := OutcomesOf(list, working);
    var shown := presented + SuppressedIds(list, working) + IdsOf(outcomes);
    var delivered := s.delivered + IdsOf(outcomes);
    Taken(s.(presented := LastN(shown, PRESENTED_LIMIT),
             delivered := delivered,
             pendingAck := s.pendingAck + SuppressedIds(list, working),
             deferred := DeferredIds(list, working),
             retained := Retain(eligible, shown, delivered)),
          Some(outcomes), cursor, true)
  }

  ghost function Take(s: Session, cursor: int, conn: Conn, view: Option<PeerView>, withheld: set<int>, replies: Replies): Taken {
    var presented := PresentedAbove(s, conn);
    var eligible := Eligible(conn, s.retained, view);
    var list := CandidateList(s, conn, view);
    if CandidateMap(s, conn, view) == map[] then TakeNothing(s, cursor, eligible, presented, withheld)
    else if OutcomesOf(list, Working(view)) == [] then TakeSuppressed(s, cursor, eligible, presented, list, Working(view), replies)
    else TakeBatch(s, cursor, eligible, presented, list, Working(view))
  }

  // ---------------------------------------------------------------------
  // Peeking
  // ---------------------------------------------------------------------

  /** isWaiterSuperseded */
  predicate Superseded(s: Session, waiter: Waiter) {
    || (s.turnEpoch.Some? && s.turnEpoch.value != waiter.epoch)
    || (s.waiterEpoch.Some? && s.waiterEpoch.value != waiter.epoch)
    || (s.waiterPid.Some? && s.waiterPid.value != waiter.pid)
  }

  datatype PeekResult = PeekResult(hasDeferred: bool, hasOutcomes: bool, superseded: bool)

  /** seen is the caller's copy of the session, file the state file. */
  datatype Peeked = Peeked(seen: Session, file: Session, cursor: int, result: PeekResult)

  ghost function PeekNothing(seen: Session, file: Session, cursor: int, eligible: Records, presented: set<int>): Peeked {
    var retained := Retain(eligible, presented, file.delivered);
    var delivered := KeepLive(file.delivered, eligible, {});
    var resnapshot := file.deferred != {} || file.retained.Keys != retained.Keys;
    var file1 := file.(delivered := delivered);
    var file2 := if resnapshot then file1.(deferred := {}, retained := retained) else file1;
    var seen1 := seen.(presented := presented);
    var seen2 := if resnapshot then seen1.(deferred := {}, retained := retained) else seen1;
    Peeked(if resnapshot || delivered != file.delivered then seen2.(delivered := delivered) else seen2,
           file2, cursor, PeekResult(false, false, false))
  }

  /** What a peek over a non-empty candidate list acks before it decides. */
  ghost function PeekSettling(list: seq<Event>, working: set<string>, delivered: set<int>, presented: set<int>, cursor: int, replies: Replies): Settling {
    if OutcomesOf(list, working) == [] then SettleAll(list, working, delivered, presented, cursor, replies)
    else Settling(presented, {}, {}, cursor)
  }

  ghost function PeekWrite(seen: Session, file: Session, conn: Conn, eligible: Records, deferred: set<int>, t: Settling,
                           hasOutcomes: bool, waiter: Waiter): Peeked
  {
    if Superseded(file, waiter) then
      Peeked(seen.(presented := PresentedAbove(seen, conn)), file, t.cursor, PeekResult(false, false, true))
    else
      var presented := LastN(PresentedAbove(file, conn) + t.presented, PRESENTED_LIMIT);
      var retained := Retain(eligible, t.presented, file.delivered);
      var pendingAck := file.pendingAck + t.held;
      Peeked(seen.(presented := presented, deferred := deferred, pendingAck := pendingAck, retained := retained),
             file.(presented := presented, deferred := deferred, pendingAck := pendingAck, retained := retained),
             t.cursor, PeekResult(deferred != {}, hasOutcomes, false))
  }

  ghost function Peek(seen: Session, file: Session, cursor: int, conn: Conn, view: Option<PeerView>, waiter: Waiter, replies: Replies): Peeked {
    var presented := PresentedAbove(seen, conn);
    var eligible := Eligible(conn, seen.retained, view);
    if CandidateMap(seen, conn, view) == map[] then
      if Superseded(file, waiter) then
        Peeked(seen.(presented := presented), file, cursor, PeekResult(false, false, true))
      else PeekNothing(seen, file, cursor, eligible, presented)
    else
      var list := CandidateList(seen, conn, view);
      var t := PeekSettling(list, Working(view), seen.delivered + file.delivered, presented, cursor, replies);
      PeekWrite(seen, file, conn, eligible, DeferredIds(list, Working(view)), t, OutcomesOf(list, Working(view)) != [], waiter)
  }

  /** rearmDeliveredEvents */
  function Rearm(s: Session): Session {
    s.(presented := s.presented - s.delivered)
  }

  /** clearStaleDeliveredEvents: targets are what the waiter re-armed. */
  function ClearStale(s: Session, waiter: Waiter, targets: set<int>): Session {
    if Superseded(s, waiter) then s else s.(delivered := s.delivered - targets)
  }

  // ---------------------------------------------------------------------
  // The hook events
  // ---------------------------------------------------------------------

  /** The state file after a PreInvocation decided on the turn: a new turn bumps the
      epoch and drops the parked waiter. */
  function BeginTurn(s: Session, newTurn: bool): Session {
    if s.awaiting || s.waiterPid.Some? || s.turnEpoch.None? || newTurn then
      s.(turnEpoch := Some((if s.turnEpoch.Some? then s.turnEpoch.value else 0) + 1),
         awaiting := false, waiterPid := None, waiterEpoch := None)
    else s
  }

  /** Another terminal owns the scope: everything this session still owed is its now. */
  function Disown(s: Session): Session {
    s.(delivered := {}, pendingAck := {}, deferred := {}, retained := map[])
  }

  /** Stop without a finished turn: the delivered batch becomes injectable again. */
  function AbandonTurn(s: Session): Session {
    s.(awaiting := true, presented := s.presented - s.delivered, delivered := {})
  }

  /** Stop parks a waiter of a fresh epoch. */
  function ParkWaiter(s: Session, pid: Option<int>): Session {
    var epoch := (if s.turnEpoch.Some? then s.turnEpoch.value else 0) + 1;
    s.(turnEpoch := Some(epoch), waiterEpoch := Some(epoch), waiterPid := pid)
  }
}
