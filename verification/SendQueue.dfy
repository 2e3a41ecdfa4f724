/** The send queue of one RPC connection, as the interleaving of its lock regions: any
    number of publishers append and flush, drainers write, and the connection may be
    destroyed at any point. */
module SendQueue {
  import opened Common

  /** Where a drain goroutine stands: about to look at the queue, writing a frame it took
      off, back from a failed write, or gone. */
  datatype Pc = AtTop | Writing(frame: string) | WriteFailed | Exited

  /** accepted are the frames in the order they were enqueued, written those that reached
      the socket; drainers lists every drain goroutine ever started. */
  datatype Connection = Connection(queue: seq<string>, draining: bool, destroyed: bool, drainers: seq<Pc>,
                                   accepted: seq<string>, written: seq<string>)

  datatype Action =
    | Enqueue(frame: string)
    | Flush
    | TakeNext(k: nat)
    | FinishWrite(k: nat, ok: bool)
    | DropRest(k: nat)
    | MarkDestroyed
    | ClearDestroyed

  const INITIAL := Connection([], false, false, [], [], [])

  function Started(c: Connection): Connection {
    if c.draining then c else c.(draining := true, drainers := c.drainers + [AtTop])
  }

  predicate Enabled(c: Connection, a: Action) {
    match a
    case TakeNext(k) => k < |c.drainers| && c.drainers[k].AtTop?
    case FinishWrite(k, _) => k < |c.drainers| && c.drainers[k].Writing?
    case DropRest(k) => k < |c.drainers| && c.drainers[k].WriteFailed?
    case ClearDestroyed => c.destroyed
    case _ => true
  }

  function Step(c: Connection, a: Action): Connection
    requires Enabled(c, a)
  {
    match a
    case Enqueue(frame) => if c.destroyed then c else Started(c.(queue := c.queue + [frame], accepted := c.accepted + [frame]))
    case Flush => if c.queue != [] then Started(c) else c
    case TakeNext(k) =>
      if c.queue == [] then c.(draining := false, drainers := c.drainers[k := Exited])
      else c.(queue := c.queue[1..], drainers := c.drainers[k := Writing(c.queue[0])])
    case FinishWrite(k, ok) =>
      if ok then c.(written := c.written + [c.drainers[k].frame], drainers := c.drainers[k := AtTop])
      else c.(destroyed := true, drainers := c.drainers[k := WriteFailed])
    case DropRest(k) => c.(queue := [], draining := false, drainers := c.drainers[k := Exited])
    case MarkDestroyed => c.(destroyed := true)
    case ClearDestroyed => c.(queue := [])
  }

  // ---------------------------------------------------------------------
  // The invariant
  // ---------------------------------------------------------------------

  predicate Alive(c: Connection, k: nat) {
    k < |c.drainers| && !c.drainers[k].Exited?
  }

  ghost predicate OneDrainer(c: Connection) {
    && (forall j, k | Alive(c, j) && Alive(c, k) :: j == k)
    && (c.draining <==> exists k :: Alive(c, k))
  }

  /** The frame taken off the queue and not written yet. */
  function InFlight(c: Connection): seq<string> {
    if c.drainers != [] && c.drainers[|c.drainers| - 1].Writing? then [c.drainers[|c.drainers| - 1].frame] else []
  }

  predicate Failing(c: Connection) {
    c.drainers != [] && c.drainers[|c.drainers| - 1].WriteFailed?
  }

  ghost predicate Inv(c: Connection) {
    && (forall k | 0 <= k < |c.drainers| - 1 :: c.drainers[k].Exited?)
    && (c.draining <==> c.drainers != [] && !c.drainers[|c.drainers| - 1].Exited?)
    && (c.queue != [] ==> c.draining)
    && c.written + InFlight(c) <= c.accepted
    && (Failing(c) ==> c.destroyed)
    && (!Failing(c) ==> c.written + InFlight(c) + c.queue <= c.accepted)
    && (!c.destroyed ==> c.written + InFlight(c) + c.queue == c.accepted)
  }

  lemma InvMeans(c: Connection)
    requires Inv(c)
    ensures OneDrainer(c)
    ensures c.queue != [] ==> exists k :: Alive(c, k)
    ensures c.written <= c.accepted
  {
    forall k | Alive(c, k) ensures k == |c.drainers| - 1 {
    }
    if c.draining {
      assert Alive(c, |c.drainers| - 1);
    }
  }

  lemma StepKeepsInv(c: Connection, a: Action)
    requires Inv(c) && Enabled(c, a)
    ensures Inv(Step(c, a))
  {
    if a.TakeNext? || a.FinishWrite? || a.DropRest? {
      DrainerKeepsInv(c, a);
    } else if a.Enqueue? && !c.destroyed {
      EnqueueKeepsInv(c, a.frame);
    }
  }

  lemma DrainerKeepsInv(c: Connection, a: Action)
    requires Inv(c) && Enabled(c, a) && (a.TakeNext? || a.FinishWrite? || a.DropRest?)
    ensures Inv(Step(c, a))
  {
    assert a.k == |c.drainers| - 1;
    var c' := Step(c, a);
    if a.TakeNext? && c.queue != [] {
      assert c.written + [c.queue[0]] + c.queue[1..] == c.written + InFlight(c) + c.queue;
      assert c.written + [c.queue[0]] <= c.written + InFlight(c) + c.queue;
    } else if a.FinishWrite? && a.ok {
      assert c'.written + InFlight(c') + c'.queue == c.written + InFlight(c) + c.queue;
    }
  }

  lemma EnqueueKeepsInv(c: Connection, frame: string)
    requires Inv(c) && !c.destroyed
    ensures Inv(Step(c, Enqueue(frame)))
  {
    var c' := Step(c, Enqueue(frame));
    assert c'.written + InFlight(c') + c'.queue == (c.written + InFlight(c) + c.queue) + [frame];
  }

  // ---------------------------------------------------------------------
  // Whole runs
  // ---------------------------------------------------------------------

  ghost predicate IsRun(states: seq<Connection>, actions: seq<Action>) {
    && |states| == |actions| + 1 && states[0] == INITIAL
    && forall k | 0 <= k < |actions| :: Enabled(states[k], actions[k]) && states[k + 1] == Step(states[k], actions[k])
  }

  /** Under any interleaving: at most one drainer lives, a non-empty queue has one, and
      the peer sees a prefix of the enqueue order; while the connection lives, nothing is
      lost between the socket, the frame in flight and the queue. */
  lemma {:induction false} QueueKeepsOrder(states: seq<Connection>, actions: seq<Action>, j: nat)
    requires IsRun(states, actions) && j < |states|
    ensures Inv(states[j]) && OneDrainer(states[j])
    ensures states[j].queue != [] ==> exists k :: Alive(states[j], k)
    ensures states[j].written <= states[j].accepted
    ensures !states[j].destroyed ==> states[j].written + InFlight(states[j]) + states[j].queue == states[j].accepted
  {
    if j > 0 {
      QueueKeepsOrder(states, actions, j - 1);
      StepKeepsInv(states[j - 1], actions[j - 1]);
    }
    InvMeans(states[j]);
  }

  /** Once nothing runs any more on a live connection, every accepted frame was written. */
  lemma IdleMeansDelivered(states: seq<Connection>, actions: seq<Action>, j: nat)
    requires IsRun(states, actions) && j < |states|
    requires !states[j].destroyed && forall k :: !Alive(states[j], k)
    ensures states[j].written == states[j].accepted
  {
    QueueKeepsOrder(states, actions, j);
    assert states[j].queue == [];
    assert InFlight(states[j]) == [] by {
      if states[j].drainers != [] {
        assert !Alive(states[j], |states[j].drainers| - 1);
      }
    }
  }

  /** The frames that the first n actions enqueue on a connection that is not destroyed. */
  function Enqueued(states: seq<Connection>, actions: seq<Action>, n: nat): seq<string>
    requires n <= |actions| && |states| == |actions| + 1
  {
    if n == 0 then [] else
      Enqueued(states, actions, n - 1)
      + if actions[n - 1].Enqueue? && !states[n - 1].destroyed then [actions[n - 1].frame] else []
  }

  /** Over every run: what counts as accepted is exactly what was enqueued on the live
      connection, in that order; so the peer sees a prefix of it. */
  lemma {:induction false} AcceptedIsEnqueued(states: seq<Connection>, actions: seq<Action>, n: nat)
    requires IsRun(states, actions) && n <= |actions|
    ensures states[n].accepted == Enqueued(states, actions, n) && states[n].written <= Enqueued(states, actions, n)
  {
    if n > 0 {
      AcceptedIsEnqueued(states, actions, n - 1);
      assert Enabled(states[n - 1], actions[n - 1]) && states[(n - 1) + 1] == Step(states[n - 1], actions[n - 1]);
    }
    QueueKeepsOrder(states, actions, n);
  }

  /** A drainer that lives can go on: it takes the oldest frame, writes what it holds, or
      leaves an empty queue behind. */
  lemma DrainerGoesOn(c: Connection, k: nat)
    requires Inv(c) && Alive(c, k)
    ensures match c.drainers[k]
            case AtTop =>
              && Enabled(c, TakeNext(k))
              && if c.queue == [] then !Alive(Step(c, TakeNext(k)), k) && !Step(c, TakeNext(k)).draining
                 else Step(c, TakeNext(k)).drainers[k] == Writing(c.queue[0]) && Step(c, TakeNext(k)).queue == c.queue[1..]
            case Writing(frame) =>
              && Enabled(c, FinishWrite(k, true)) && Step(c, FinishWrite(k, true)).written == c.written + [frame]
              && Step(c, FinishWrite(k, true)).drainers[k].AtTop? && Step(c, FinishWrite(k, false)).destroyed
            case WriteFailed => Enabled(c, DropRest(k)) && Step(c, DropRest(k)).queue == [] && !Alive(Step(c, DropRest(k)), k)
            case Exited => false
  {
  }

  /** Once the destroyed connection's queue was cleared it stays empty, nothing more is
      accepted, and at most the frame already in flight is still written. */
  lemma {:induction false} ClearedStaysEmpty(states: seq<Connection>, actions: seq<Action>, i: nat, j: nat)
    requires IsRun(states, actions) && i <= j < |states|
    requires states[i].destroyed && states[i].queue == []
    ensures states[j].destroyed && states[j].queue == [] && states[j].accepted == states[i].accepted
    ensures states[j].written + InFlight(states[j]) <= states[i].written + InFlight(states[i])
    decreases j - i
  {
    if i < j {
      ClearedStaysEmpty(states, actions, i, j - 1);
      QueueKeepsOrder(states, actions, j - 1);
      assert Enabled(states[j - 1], actions[j - 1]) && states[j] == Step(states[j - 1], actions[j - 1]);
      ClearedStep(states[j - 1], actions[j - 1]);
    }
  }

  lemma ClearedStep(c: Connection, a: Action)
    requires Inv(c) && Enabled(c, a) && c.destroyed && c.queue == []
    ensures var c' := Step(c, a);
            c'.destroyed && c'.queue == [] && c'.accepted == c.accepted && c'.written + InFlight(c') <= c.written + InFlight(c)
  {
    if a.TakeNext? || a.FinishWrite? || a.DropRest? {
      assert a.k == |c.drainers| - 1;
    }
  }

  // ---------------------------------------------------------------------
  // The connection: one method per lock region
  // ---------------------------------------------------------------------

  class RpcConnection {
    var queue: seq<string>
    var draining: bool
    var destroyed: bool
    ghost var drainers: seq<Pc>
    ghost var accepted: seq<string>
    ghost var written: seq<string>

    constructor ()
      ensures State() == INITIAL
    {
      queue, draining, destroyed := [], false, false;
      drainers, accepted, written := [], [], [];
    }

    ghost function State(): Connection
      reads this
    {
      Connection(queue, draining, destroyed, drainers, accepted, written)
    }

    /** enqueueMessage: the append is the ordering point, and the first append of a burst
        claims the queue. */
    method EnqueueMessage(frame: string) returns (claim: bool)
      modifies this
      ensures State() == Step(old(State()), Enqueue(frame))
      ensures claim <==> |drainers| > |old(drainers)|
    {
      if destroyed {
        return false;
      }
      queue, accepted := queue + [frame], accepted + [frame];
      claim := !draining;
      if claim {
        draining, drainers := true, drainers + [AtTop];
      }
    }

    /** flushQueue */
    method FlushQueue() returns (claim: bool)
      modifies this
      ensures State() == Step(old(State()), Flush)
      ensures claim <==> |drainers| > |old(drainers)|
    {
      claim := !draining && |queue| > 0;
      if claim {
        draining, drainers := true, drainers + [AtTop];
      }
    }

    /** The head of the drain loop: take the oldest frame or hand the ownership back. */
    method DrainNext(ghost k: nat) returns (frame: Option<string>)
      requires Enabled(State(), TakeNext(k))
      modifies this
      ensures State() == Step(old(State()), TakeNext(k))
      ensures frame == if old(queue) == [] then None else Some(old(queue)[0])
    {
      if |queue| == 0 {
        draining, drainers := false, drainers[k := Exited];
        return None;
      }
      frame := Some(queue[0]);
      drainers := drainers[k := Writing(queue[0])];
      queue := queue[1..];
    }

    /** writeFrame: refused once destroyed was seen; a failed write destroys. sent is what
        the socket reports. */
    method WriteFrame(frame: string, sent: bool, seenDestroyed: bool, ghost k: nat) returns (ok: bool)
      requires Enabled(State(), FinishWrite(k, sent)) && drainers[k].frame == frame && (seenDestroyed ==> destroyed)
      modifies this
      ensures ok == (sent && !seenDestroyed)
      ensures State() == Step(old(State()), FinishWrite(k, ok))
    {
      if seenDestroyed {
        drainers := drainers[k := WriteFailed];
        return false;
      }
      if !sent {
        destroyed, drainers := true, drainers[k := WriteFailed];
        return false;
      }
      written, drainers := written + [frame], drainers[k := AtTop];
      ok := true;
    }

    /** After a failed write: what is queued behind the frame is dropped. */
    method DrainGiveUp(ghost k: nat)
      requires Enabled(State(), DropRest(k))
      modifies this
      ensures State() == Step(old(State()), DropRest(k))
    {
      queue, draining, drainers := [], false, drainers[k := Exited];
    }

    /** destroy's flag; only the first caller goes on to clear the queue. */
    method Destroy() returns (first: bool)
      modifies this`destroyed
      ensures State() == Step(old(State()), MarkDestroyed) && first == !old(destroyed)
    {
      first := !destroyed;
      destroyed := true;
    }

    method ClearQueue()
      requires destroyed
      modifies this`queue
      ensures State() == Step(old(State()), ClearDestroyed)
    {
      queue := [];
    }
  }
}
