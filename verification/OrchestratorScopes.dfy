/** Who orchestrates a workspace, and how far its notifications are acknowledged. */
module OrchestratorScopes {
  import opened Common

  datatype Scope = Scope(session: string, workspace: string)

  datatype ScopeRow = ScopeRow(acked: int, ownerPane: Option<string>, ownerTerminal: Option<string>, updated: int)

  type Scopes = map<Scope, ScopeRow>

  datatype ScopeError = CorruptOwner | NotOwner | AlreadyClaimed

  datatype Change = Changed | Unchanged | Refused(error: ScopeError)

  /** mapScope: the owner columns are either both set or both absent. */
  predicate Paired(row: ScopeRow) {
    row.ownerPane.Some? == row.ownerTerminal.Some?
  }

  predicate AllPaired(scopes: Scopes) {
    forall key | key in scopes :: Paired(scopes[key])
  }

  predicate OwnedBy(scopes: Scopes, key: Scope, terminal: string) {
    key in scopes && scopes[key].ownerTerminal == Some(terminal)
  }

  function ReleasedRow(row: ScopeRow, now: int): ScopeRow {
    row.(ownerPane := None, ownerTerminal := None, updated := now)
  }

  function OwnedRow(acked: int, pane: string, terminal: string, now: int): ScopeRow {
    ScopeRow(acked, Some(pane), Some(terminal), now)
  }

  /** Nobody owns the scope any more, and its cursor is where it was. */
  ghost predicate Freed(was: ScopeRow, row: ScopeRow, now: int) {
    row.ownerPane.None? && row.ownerTerminal.None? && row.acked == was.acked && row.updated == now
  }

  ghost predicate Owned(row: ScopeRow, acked: int, pane: string, terminal: string, now: int) {
    row.ownerPane == Some(pane) && row.ownerTerminal == Some(terminal) && row.acked == acked && row.updated == now
  }

  ghost predicate OnlyChanged(was: Scopes, scopes: Scopes, keys: set<Scope>) {
    && (forall key | key !in keys :: key in scopes <==> key in was)
    && (forall key | key in scopes && key !in keys :: scopes[key] == was[key])
  }

  class ScopeStore {
    var scopes: Scopes

    constructor ()
      ensures scopes == map[]
    {
      scopes := map[];
    }

    /** claim: a missing row is created, an existing one re-owned with the given cursor,
        unless another connected terminal owns it. */
    method Claim(key: Scope, acked: int, pane: string, terminal: string, now: int, ownerConnected: bool, allowReplacement: bool)
      returns (change: Change)
      modifies this
      ensures change == Changed ==> scopes == old(scopes)[key := OwnedRow(acked, pane, terminal, now)]
      ensures change == Changed ==> OnlyChanged(old(scopes), scopes, {key}) && key in scopes && Owned(scopes[key], acked, pane, terminal, now)
      ensures change != Changed ==> scopes == old(scopes) && change.Refused?
      ensures change == Refused(CorruptOwner) <==> key in old(scopes) && !Paired(old(scopes)[key])
      ensures change == Refused(AlreadyClaimed) <==>
              && key in old(scopes) && Paired(old(scopes)[key]) && !allowReplacement && ownerConnected
              && old(scopes)[key].ownerTerminal.Some? && old(scopes)[key].ownerTerminal != Some(terminal)
      ensures change != Refused(NotOwner)
    {
      if key in scopes {
        if !Paired(scopes[key]) {
          return Refused(CorruptOwner);
        }
        if !allowReplacement && scopes[key].ownerTerminal.Some? && scopes[key].ownerTerminal.value != terminal && ownerConnected {
          return Refused(AlreadyClaimed);
        }
        scopes := scopes[key := scopes[key].(acked := acked, ownerPane := Some(pane), ownerTerminal := Some(terminal), updated := now)];
        return Changed;
      }
      scopes := scopes[key := ScopeRow(acked, Some(pane), Some(terminal), now)];
      change := Changed;
    }

    /** ack: only the owner moves the cursor, and only forward. */
    method Ack(key: Scope, eventId: int, terminal: string, now: int) returns (change: Change)
      modifies this
      ensures change == Changed ==>
              && OwnedBy(old(scopes), key, terminal)
              && scopes == old(scopes)[key := old(scopes)[key].(acked := if old(scopes)[key].acked < eventId then eventId else old(scopes)[key].acked,
                                                                 updated := now)]
      ensures change != Changed ==> scopes == old(scopes) && change.Refused?
      ensures change == Refused(NotOwner) <==> !OwnedBy(old(scopes), key, terminal)
      ensures change == Refused(CorruptOwner) <==> OwnedBy(old(scopes), key, terminal) && !Paired(old(scopes)[key])
      ensures change != Refused(AlreadyClaimed)
    {
      if key !in scopes || scopes[key].ownerTerminal != Some(terminal) {
        return Refused(NotOwner);
      }
      var before := scopes;
      var row := scopes[key];
      scopes := scopes[key := row.(acked := if row.acked < eventId then eventId else row.acked, updated := now)];
      if !Paired(scopes[key]) {
        scopes := before;
        return Refused(CorruptOwner);
      }
      change := Changed;
    }

    method ReleaseOwners(key: Scope, now: int)
      requires key in scopes
      modifies this
      ensures scopes == old(scopes)[key := ReleasedRow(old(scopes)[key], now)]
    {
      scopes := scopes[key := scopes[key].(ownerPane := None, ownerTerminal := None, updated := now)];
    }

    /** releaseIfOwner: the cursor is preserved. */
    method ReleaseIfOwner(key: Scope, terminal: string, now: int) returns (change: Change)
      modifies this
      ensures change == Changed <==> OwnedBy(old(scopes), key, terminal) && Paired(old(scopes)[key])
      ensures change == Unchanged <==> !OwnedBy(old(scopes), key, terminal) && (key in old(scopes) ==> Paired(old(scopes)[key]))
      ensures scopes == if change == Changed then old(scopes)[key := ReleasedRow(old(scopes)[key], now)] else old(scopes)
      ensures change == Changed ==> OnlyChanged(old(scopes), scopes, {key}) && key in scopes && Freed(old(scopes)[key], scopes[key], now)
    {
      if key !in scopes {
        return Unchanged;
      }
      if !Paired(scopes[key]) {
        return Refused(CorruptOwner);
      }
      if scopes[key].ownerTerminal != Some(terminal) {
        return Unchanged;
      }
      ReleaseOwners(key, now);
      change := Changed;
    }

    /** releaseIfOwnerIdentity: pane and terminal must both match. */
    method ReleaseIfOwnerIdentity(key: Scope, pane: string, terminal: string, now: int) returns (change: Change)
      modifies this
      ensures change == Changed <==> OwnedBy(old(scopes), key, terminal) && old(scopes)[key].ownerPane == Some(pane)
      ensures scopes == if change == Changed then old(scopes)[key := ReleasedRow(old(scopes)[key], now)] else old(scopes)
      ensures change == Changed ==> OnlyChanged(old(scopes), scopes, {key}) && key in scopes && Freed(old(scopes)[key], scopes[key], now)
    {
      if key !in scopes {
        return Unchanged;
      }
      if scopes[key].ownerTerminal != Some(terminal) || scopes[key].ownerPane != Some(pane) {
        return if Paired(scopes[key]) then Unchanged else Refused(CorruptOwner);
      }
      ReleaseOwners(key, now);
      change := Changed;
    }

    /** releaseIfStaleOwner: the owner's pane or terminal is gone. */
    method ReleaseIfStaleOwner(key: Scope, livePanes: set<string>, liveTerminals: set<string>, now: int) returns (released: bool)
      modifies this
      ensures released <==> && key in old(scopes) && old(scopes)[key].ownerPane.Some? && old(scopes)[key].ownerTerminal.Some?
                            && (old(scopes)[key].ownerPane.value !in livePanes || old(scopes)[key].ownerTerminal.value !in liveTerminals)
      ensures scopes == if released then old(scopes)[key := ReleasedRow(old(scopes)[key], now)] else old(scopes)
      ensures released ==> OnlyChanged(old(scopes), scopes, {key}) && key in scopes && Freed(old(scopes)[key], scopes[key], now)
    {
      if key !in scopes || scopes[key].ownerPane.None? || scopes[key].ownerTerminal.None? {
        return false;
      }
      if scopes[key].ownerPane.value in livePanes && scopes[key].ownerTerminal.value in liveTerminals {
        return false;
      }
      ReleaseOwners(key, now);
      released := true;
    }

    /** moveOwner: the source is released and the target claimed in one transaction; a
        failure of either leaves both as they were. */
    method MoveOwner(source: Scope, target: Scope, targetAcked: int, pane: string, terminal: string, now: int) returns (change: Change)
      modifies this
      ensures change == Changed ==>
              && OwnedBy(old(scopes), source, terminal) && Paired(old(scopes)[source])
              && scopes == old(scopes)[source := ReleasedRow(old(scopes)[source], now)][target := OwnedRow(targetAcked, pane, terminal, now)]
      ensures change == Changed ==>
              && OnlyChanged(old(scopes), scopes, {source, target}) && target in scopes && Owned(scopes[target], targetAcked, pane, terminal, now)
              && (source != target ==> source in scopes && Freed(old(scopes)[source], scopes[source], now))
      ensures change != Changed ==> scopes == old(scopes) && change.Refused?
      ensures change == Refused(NotOwner) <==> !OwnedBy(old(scopes), source, terminal)
      ensures AllPaired(old(scopes)) && OwnedBy(old(scopes), source, terminal) ==> change == Changed
    {
      if source !in scopes || scopes[source].ownerTerminal != Some(terminal) {
        return Refused(NotOwner);
      }
      if !Paired(scopes[source]) {
        return Refused(CorruptOwner);
      }
      var before := scopes;
      ReleaseOwners(source, now);
      assert AllPaired(before) ==> target in scopes ==> Paired(scopes[target]);
      change := Claim(target, targetAcked, pane, terminal, now, false, true);
      assert change.Refused? ==> change.error == CorruptOwner || change.error == AlreadyClaimed || change.error == NotOwner;
      if change != Changed {
        scopes := before;
      }
    }

    /** purgeReleasedOlderThan: an old released row forgets its cursor. */
    method PurgeReleased(before: int)
      modifies this
      ensures scopes == map key | key in old(scopes) && !(old(scopes)[key].ownerTerminal.None? && old(scopes)[key].updated < before) :: old(scopes)[key]
    {
      scopes := map key | key in scopes && !(scopes[key].ownerTerminal.None? && scopes[key].updated < before) :: scopes[key];
    }
  }
}
