/** The orchestrator service over its two stores: each of its commands is one step of the
    daemon state that CursorSafety reasons about. */
module OrchestratorService {
  import opened Common
  import opened EventTable
  import opened EventStore
  import opened OrchestratorScopes
  import opened CursorSafety

  class AgentOrchestratorService {
    const events: AgentEventStore
    const scopes: ScopeStore
    ghost var base: map<Scope, int>

    constructor (events: AgentEventStore, scopes: ScopeStore)
      ensures this.events == events && this.scopes == scopes && base == map[]
    {
      this.events, this.scopes, base := events, scopes, map[];
    }

    ghost function Daemon(): Daemon
      reads this, events, scopes
    {
      CursorSafety.Daemon(events.Content(), scopes.scopes, base)
    }

    method CurrentCursor(key: Scope) returns (cursor: int)
      ensures cursor == ClaimCursor(Daemon(), key)
    {
      cursor := if key in scopes.scopes then scopes.scopes[key].acked else LatestEventId(events.rows, key);
    }

    method Claim(key: Scope, pane: string, terminal: string, ownerConnected: bool, now: int) returns (change: Change)
      requires Sane(Daemon())
      modifies scopes, this`base
      ensures Daemon() == Step(old(Daemon()), ClaimScope(key, pane, terminal, ownerConnected, now))
      ensures change.Refused? ==> Daemon() == old(Daemon())
    {
      assert key in scopes.scopes ==> Tracked(Daemon(), key);
      var cursor := CurrentCursor(key);
      var known := key in scopes.scopes;
      ghost var before := Daemon();
      change := scopes.Claim(key, cursor, pane, terminal, now, ownerConnected, false);
      Outcomes(change);
      if change == Changed && !known {
        base := base[key := cursor];
      }
      assert change == Changed ==> Daemon() == Claimed(before, key, pane, terminal, now);
    }

    /** ack: siblings are the ownerless workspaces of the session, admitted the outcome of
        the delivery checks. A sibling's event settles its one row; an own one settles the
        scope up to it and moves the cursor. */
    method Ack(key: Scope, terminal: string, id: int, siblings: set<string>, admitted: bool, now: int) returns (acked: bool)
      requires Sane(Daemon())
      modifies events`rows, scopes
      ensures Daemon() == Step(old(Daemon()), AckEvent(key, terminal, id, siblings, admitted, now))
    {
      if key !in scopes.scopes || scopes.scopes[key].ownerTerminal != Some(terminal) {
        return false;
      }
      assert Tracked(Daemon(), key);
      if id <= scopes.scopes[key].acked {
        return true;
      }
      if id !in events.rows || events.rows[id].session != key.session {
        return false;
      }
      var workspace := events.rows[id].workspace;
      if workspace != Some(key.workspace) && (workspace.None? || workspace.value !in siblings) {
        return false;
      }
      if !admitted {
        return false;
      }
      if workspace != Some(key.workspace) {
        events.MarkAcked(id, key.session, None);
        return true;
      }
      events.MarkAcked(id, key.session, Some(key.workspace));
      var change := scopes.Ack(key, id, terminal, now);
      Outcomes(change);
      acked := change == Changed;
    }

    method Move(source: Scope, target: Scope, pane: string, terminal: string, now: int) returns (change: Change)
      requires Sane(Daemon())
      modifies scopes, this`base
      ensures Daemon() == Step(old(Daemon()), MoveScope(source, target, pane, terminal, now))
    {
      assert forall key | key in scopes.scopes :: Tracked(Daemon(), key);
      var cursor := CurrentCursor(target);
      var known := target in scopes.scopes;
      change := scopes.MoveOwner(source, target, cursor, pane, terminal, now);
      if change == Changed && !known {
        base := base[target := cursor];
      }
    }

    method Release(key: Scope, terminal: string, now: int) returns (change: Change)
      requires Sane(Daemon())
      modifies scopes
      ensures Daemon() == Step(old(Daemon()), ReleaseScope(key, terminal, now))
    {
      assert key in scopes.scopes ==> Tracked(Daemon(), key);
      change := scopes.ReleaseIfOwner(key, terminal, now);
    }

    /** The sweep of scopes whose owner's pane or terminal is gone, and the purge of old
        released ones. */
    method ReleaseStaleOwner(key: Scope, livePanes: set<string>, liveTerminals: set<string>, now: int) returns (released: bool)
      modifies scopes
      ensures Daemon() == Step(old(Daemon()), ReleaseStale(key, livePanes, liveTerminals, now))
    {
      released := scopes.ReleaseIfStaleOwner(key, livePanes, liveTerminals, now);
    }

    method PurgeReleasedScopes(before: int)
      modifies scopes
      ensures Daemon() == Step(old(Daemon()), PurgeScopes(before))
    {
      scopes.PurgeReleased(before);
    }

    /** pending: the reclaim and the reservation, in that order. */
    method ReclaimAndReserve(q: Reclaim, terminal: string, limit: int, ids: set<int>, now: int) returns (reserved: seq<int>)
      modifies events`rows
      ensures Daemon() == Step(Step(old(Daemon()), WriteEvents(ReclaimDelivered(q))), WriteEvents(ReservePending(terminal, limit, ids, now)))
    {
      events.ReclaimDelivered(q);
      reserved := events.ReservePending(terminal, limit, ids, now);
    }
  }

  lemma Outcomes(change: Change)
    ensures change == Changed || change == Unchanged
            || change == Refused(CorruptOwner) || change == Refused(NotOwner) || change == Refused(AlreadyClaimed)
  {
    match change {
      case Refused(CorruptOwner) =>
      case Refused(NotOwner) =>
      case Refused(AlreadyClaimed) =>
      case _ =>
    }
  }
}
