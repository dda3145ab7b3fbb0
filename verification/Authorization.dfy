/** app/services/authorization.py: the users table, the audit log beside it, and the cache of one
    process. */
module Authorization {
  import opened Strings

  type UserId = int

  const CLEANUP_INTERVAL := 60.0

  datatype Status = Authorized | Revoked

  datatype UserRow = UserRow(status: Status, authorizedBy: UserId, revokedBy: Option<UserId>)

  datatype Operation = UserAuthorized | UserRevoked | OtherOperation

  datatype Event = Event(operation: Operation, target: UserId, actor: UserId)

  // ---------------------------------------------------------------- replay

  /** The statuses an audit log leaves behind, whatever other operations are in it. */
  function Replay(audit: seq<Event>): map<UserId, Status>
  {
    if audit == [] then map[]
    else
      var before, e := Replay(audit[..|audit| - 1]), audit[|audit| - 1];
      match e.operation
      case UserAuthorized => before[e.target := Authorized]
      case UserRevoked => before[e.target := Revoked]
      case OtherOperation => before
  }

  /** The last authorization event of a user. */
  function LastFor(audit: seq<Event>, user: UserId): Option<Operation>
  {
    if audit == [] then None
    else
      var e := audit[|audit| - 1];
      if e.target == user && !e.operation.OtherOperation? then Some(e.operation) else LastFor(audit[..|audit| - 1], user)
  }

  /** Among the events of its user, every revocation directly follows an authorization. */
  ghost predicate Alternates(audit: seq<Event>)
  {
    forall i :: 0 <= i < |audit| && audit[i].operation == UserRevoked
      ==> LastFor(audit[..i], audit[i].target) == Some(UserAuthorized)
  }

  lemma ReplayAppend(audit: seq<Event>, e: Event)
    ensures Replay(audit + [e]) ==
            match e.operation
            case UserAuthorized => Replay(audit)[e.target := Authorized]
            case UserRevoked => Replay(audit)[e.target := Revoked]
            case OtherOperation => Replay(audit)
  {
  }

  lemma AlternatesAppend(audit: seq<Event>, e: Event)
    requires Alternates(audit) && (e.operation == UserRevoked ==> LastFor(audit, e.target) == Some(UserAuthorized))
    ensures Alternates(audit + [e])
  {
    forall i | 0 <= i < |audit + [e]| && (audit + [e])[i].operation == UserRevoked
      ensures LastFor((audit + [e])[..i], (audit + [e])[i].target) == Some(UserAuthorized)
    {
      assert (audit + [e])[..i] == audit[..i];
      assert audit[..|audit|] == audit;
    }
  }

  /** Replaying the log and looking up its last event of a user say the same. */
  lemma {:induction false} ReplayIsLast(audit: seq<Event>, user: UserId)
    ensures user in Replay(audit) <==> LastFor(audit, user).Some?
    ensures user in Replay(audit) ==> (Replay(audit)[user] == Authorized <==> LastFor(audit, user) == Some(UserAuthorized))
  {
    if audit != [] {
      ReplayIsLast(audit[..|audit| - 1], user);
    }
  }

  // ---------------------------------------------------------------- the service

  class AuthorizationService {
    const roots: set<UserId>
    var users: map<UserId, UserRow>
    var audit: seq<Event>
    var cache: map<UserId, Option<Status>>
    var cleanupAt: real

    /** Table, log and cache agree. */
    ghost predicate Valid()
      reads this
    {
      && (map u | u in users :: users[u].status) == Replay(audit)
      && Alternates(audit)
      && (forall u :: u in cache && cache[u].Some? ==> u in users && users[u].status == cache[u].value)
    }

    constructor (roots: set<UserId>)
      ensures Valid() && this.roots == roots && users == map[] && audit == []
    {
      this.roots := roots;
      users, audit, cache, cleanupAt := map[], [], map[], 0.0;
    }

    method AuthorizeUser(target: UserId, actor: UserId)
      requires Valid()
      modifies this`users, this`audit, this`cache
      ensures Valid()
      ensures audit == old(audit) + [Event(UserAuthorized, target, actor)]
      ensures users == old(users)[target := UserRow(Authorized, actor, None)]
      ensures cache == old(cache) - {target}
    {
      ghost var e := Event(UserAuthorized, target, actor);
      ReplayAppend(audit, e);
      AlternatesAppend(audit, e);
      users := users[target := UserRow(Authorized, actor, None)];
      audit := audit + [Event(UserAuthorized, target, actor)];
      cache := cache - {target};
    }

    /** Revokes an authorized user; any other is left alone, and nothing is logged. */
    method RevokeUser(target: UserId, actor: UserId) returns (row: Option<UserRow>)
      requires Valid()
      modifies this`users, this`audit, this`cache
      ensures Valid()
      ensures row.Some? <==> target in old(users) && old(users[target]).status == Authorized
      ensures row.None? ==> users == old(users) && audit == old(audit) && cache == old(cache)
      ensures row.Some? ==> audit == old(audit) + [Event(UserRevoked, target, actor)]
      ensures row.Some? ==> users == old(users)[target := UserRow(Revoked, old(users[target]).authorizedBy, Some(actor))]
      ensures row.Some? ==> row.value == users[target] && cache == old(cache) - {target}
    {
      if target !in users || users[target].status != Authorized {
        return None;
      }
      ghost var e := Event(UserRevoked, target, actor);
      ReplayIsLast(audit, target);
      assert target in (map u | u in users :: users[u].status);
      ReplayAppend(audit, e);
      AlternatesAppend(audit, e);
      var revoked := users[target].(status := Revoked, revokedBy := Some(actor));
      users := users[target := revoked];
      audit := audit + [Event(UserRevoked, target, actor)];
      cache := cache - {target};
      return Some(revoked);
    }

    /** Another service writes its own event. */
    method RecordOther(target: UserId, actor: UserId)
      requires Valid()
      modifies this`audit
      ensures Valid() && audit == old(audit) + [Event(OtherOperation, target, actor)]
    {
      ReplayAppend(audit, Event(OtherOperation, target, actor));
      AlternatesAppend(audit, Event(OtherOperation, target, actor));
      audit := audit + [Event(OtherOperation, target, actor)];
    }

    /** A user's status through the cache; an absent user is looked up again every time. */
    method GetCachedAuth(user: UserId, now: real) returns (status: Option<Status>)
      requires Valid()
      modifies this`cache, this`cleanupAt
      ensures Valid()
      ensures status == if user in Replay(audit) then Some(Replay(audit)[user]) else None
      ensures cleanupAt == if now - old(cleanupAt) > CLEANUP_INTERVAL then now else old(cleanupAt)
      ensures user in cache && cache[user] == status
      ensures forall u :: u in cache && u != user ==> now - old(cleanupAt) <= CLEANUP_INTERVAL && u in old(cache) && cache[u] == old(cache)[u]
    {
      if now - cleanupAt > CLEANUP_INTERVAL {
        cache := map[];
        cleanupAt := now;
      }
      ghost var table := map u | u in users :: users[u].status;
      assert table == Replay(audit);
      if user in cache && cache[user].Some? {
        return cache[user];
      }
      status := if user in users then Some(users[user].status) else None;
      cache := cache[user := status];
    }

    /** In any sequential run the answer is that of the audit log, for all but the root admins. */
    method IsUserAuthorized(user: Option<UserId>, now: real) returns (yes: bool)
      requires Valid()
      modifies this`cache, this`cleanupAt
      ensures Valid()
      ensures yes <==> user.Some? && (user.value in roots || LastFor(audit, user.value) == Some(UserAuthorized))
    {
      if user.Some? && user.value in roots {
        return true;
      }
      if user.None? {
        return false;
      }
      var status := GetCachedAuth(user.value, now);
      ReplayIsLast(audit, user.value);
      return status == Some(Authorized);
    }
  }
}
