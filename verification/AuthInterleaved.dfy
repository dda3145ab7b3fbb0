/** app/services/authorization.py under interleaving: several processes, each with its own cache,
    whose database reads, cache writes and invalidations are separate steps. How stale may an
    answer be? */
module AuthInterleaved {
  import opened Strings
  import opened Authorization

  type ProcessId = int
  type ReadId = int

  datatype Entry = Entry(status: Option<Status>, readAt: real, writtenAt: real)
  datatype Cache = Cache(entries: map<UserId, Entry>, cleanupAt: real)
  datatype Read = Read(process: ProcessId, user: UserId, status: Option<Status>, readAt: real)

  /** The table as it became at a moment. */
  datatype Version = Version(at: real, table: map<UserId, Status>)

  /** The clock, all versions of the table so far, the caches, and the reads whose result is not
      yet in a cache. */
  datatype World = World(now: real, versions: seq<Version>, caches: map<ProcessId, Cache>, pending: map<ReadId, Read>)

  function Current(w: World): map<UserId, Status>
  {
    if w.versions == [] then map[] else w.versions[|w.versions| - 1].table
  }

  function StatusIn(table: map<UserId, Status>, u: UserId): Option<Status>
  {
    if u in table then Some(table[u]) else None
  }

  /** The status was the user's at the moment `at`. */
  ghost predicate TrueAt(versions: seq<Version>, u: UserId, status: Option<Status>, at: real)
  {
    exists i :: 0 <= i < |versions| && Holds(versions, i, u, status, at)
  }

  ghost predicate Holds(versions: seq<Version>, i: int, u: UserId, status: Option<Status>, at: real)
    requires 0 <= i < |versions|
  {
    && versions[i].at <= at && (i + 1 < |versions| ==> at <= versions[i + 1].at)
    && StatusIn(versions[i].table, u) == status
  }

  datatype Step =
    | Tick(to: real)
    | Commit(u: UserId, status: Status)            // authorize or revoke, as committed
    | Invalidate(p: ProcessId, u: UserId)          // the acting process drops its entry, later
    | Cleanup(p: ProcessId)                        // a check finds the cache due, and clears it
    | StartRead(r: ReadId, p: ProcessId, u: UserId)
    | EndRead(r: ReadId)                           // the entry is written, the check answers

  /** `latency` bounds the time from a database read to the cache write that follows it. */
  predicate Enabled(latency: real, w: World, step: Step)
  {
    match step
    case Tick(to) => to >= w.now
    case Commit(_, _) => true
    case Invalidate(p, u) => p in w.caches
    case Cleanup(p) => p in w.caches && w.now - w.caches[p].cleanupAt > CLEANUP_INTERVAL
    case StartRead(r, p, u) => r !in w.pending && p in w.caches
    case EndRead(r) => r in w.pending && w.pending[r].process in w.caches && w.now - w.pending[r].readAt <= latency
  }

  function Next(w: World, step: Step): World
  {
    match step
    case Tick(to) => w.(now := to)
    case Commit(u, status) => w.(versions := w.versions + [Version(w.now, Current(w)[u := status])])
    case Invalidate(p, u) =>
      if p in w.caches then w.(caches := w.caches[p := w.caches[p].(entries := w.caches[p].entries - {u})]) else w
    case Cleanup(p) => w.(caches := w.caches[p := Cache(map[], w.now)])
    case StartRead(r, p, u) => w.(pending := w.pending[r := Read(p, u, StatusIn(Current(w), u), w.now)])
    case EndRead(r) =>
      if r in w.pending && w.pending[r].process in w.caches then
        var d := w.pending[r];
        var cache := w.caches[d.process];
        w.(pending := w.pending - {r},
           caches := w.caches[d.process := cache.(entries := cache.entries[d.user := Entry(d.status, d.readAt, w.now)])])
      else w
  }

  /** A check of `u` in process `p` is answered from the cache: the cache is not due for clearing,
      and has an entry that is not of an absent user. */
  predicate Hits(w: World, p: ProcessId, u: UserId)
  {
    && p in w.caches && w.now - w.caches[p].cleanupAt <= CLEANUP_INTERVAL
    && u in w.caches[p].entries && w.caches[p].entries[u].status.Some?
  }

  /** Worlds, each from the one before by a step. */
  ghost predicate Continues(latency: real, ws: seq<World>, steps: seq<Step>)
  {
    && |ws| == |steps| + 1
    && forall i :: 0 <= i < |steps| ==> Enabled(latency, ws[i], steps[i]) && ws[i + 1] == Next(ws[i], steps[i])
  }

  ghost predicate Behaviour(latency: real, ws: seq<World>, steps: seq<Step>)
  {
    && Continues(latency, ws, steps)
    && ws[0].versions == [Version(ws[0].now, map[])] && ws[0].pending == map[]
    && (forall p :: p in ws[0].caches ==> ws[0].caches[p].entries == map[] && ws[0].caches[p].cleanupAt <= ws[0].now)
  }

  // ---------------------------------------------------------------- invariant

  ghost predicate EntrySound(latency: real, w: World, cleanupAt: real, u: UserId, e: Entry)
  {
    && TrueAt(w.versions, u, e.status, e.readAt)
    && e.readAt <= e.writtenAt <= w.now && e.writtenAt - e.readAt <= latency
    && cleanupAt <= e.writtenAt
  }

  ghost predicate CachesSound(latency: real, w: World)
  {
    forall p, u :: p in w.caches && u in w.caches[p].entries ==>
      EntrySound(latency, w, w.caches[p].cleanupAt, u, w.caches[p].entries[u])
  }

  ghost predicate ReadsSound(w: World)
  {
    forall r :: r in w.pending ==> TrueAt(w.versions, w.pending[r].user, w.pending[r].status, w.pending[r].readAt) && w.pending[r].readAt <= w.now
  }

  ghost predicate VersionsSound(w: World)
  {
    w.versions != [] && w.versions[|w.versions| - 1].at <= w.now
  }

  ghost predicate Inv(latency: real, w: World)
  {
    && VersionsSound(w) && ReadsSound(w) && CachesSound(latency, w)
    && (forall p :: p in w.caches ==> w.caches[p].cleanupAt <= w.now)
  }

  /** What was true at a past moment stays so when the table changes now. */
  lemma TrueStays(versions: seq<Version>, v: Version, u: UserId, status: Option<Status>, at: real)
    requires TrueAt(versions, u, status, at) && at <= v.at
    ensures TrueAt(versions + [v], u, status, at)
  {
    var i :| 0 <= i < |versions| && Holds(versions, i, u, status, at);
    assert Holds(versions + [v], i, u, status, at);
  }

  lemma CommitKeepsInv(latency: real, w: World, u: UserId, status: Status)
    requires Inv(latency, w)
    ensures Inv(latency, Next(w, Commit(u, status)))
  {
    var w' := Next(w, Commit(u, status));
    var v := Version(w.now, Current(w)[u := status]);
    forall r | r in w'.pending ensures TrueAt(w'.versions, w'.pending[r].user, w'.pending[r].status, w'.pending[r].readAt) {
      TrueStays(w.versions, v, w.pending[r].user, w.pending[r].status, w.pending[r].readAt);
    }
    forall p, x | p in w'.caches && x in w'.caches[p].entries
      ensures EntrySound(latency, w', w'.caches[p].cleanupAt, x, w'.caches[p].entries[x])
    {
      var e := w.caches[p].entries[x];
      assert EntrySound(latency, w, w.caches[p].cleanupAt, x, e);
      TrueStays(w.versions, v, x, e.status, e.readAt);
    }
  }

  lemma ReadKeepsInv(latency: real, w: World, r: ReadId, p: ProcessId, u: UserId)
    requires Inv(latency, w) && r !in w.pending
    ensures Inv(latency, Next(w, StartRead(r, p, u)))
  {
    assert Holds(w.versions, |w.versions| - 1, u, StatusIn(Current(w), u), w.now);
  }

  lemma StepKeepsInv(latency: real, w: World, step: Step)
    requires Inv(latency, w) && Enabled(latency, w, step)
    ensures Inv(latency, Next(w, step))
  {
    match step
    case Commit(u, status) => CommitKeepsInv(latency, w, u, status);
    case StartRead(r, p, u) => ReadKeepsInv(latency, w, r, p, u);
    case Tick(to) =>
      var w' := Next(w, step);
      forall p, x | p in w'.caches && x in w'.caches[p].entries
        ensures EntrySound(latency, w', w'.caches[p].cleanupAt, x, w'.caches[p].entries[x])
      {
        assert EntrySound(latency, w, w.caches[p].cleanupAt, x, w.caches[p].entries[x]);
      }
    case _ =>
  }

  lemma {:induction false} AlwaysInv(latency: real, ws: seq<World>, steps: seq<Step>, i: nat)
    requires Behaviour(latency, ws, steps) && i < |ws|
    ensures Inv(latency, ws[i])
  {
    if i > 0 {
      AlwaysInv(latency, ws, steps, i - 1);
      StepKeepsInv(latency, ws[i - 1], steps[i - 1]);
    }
  }

  /** Bounded staleness: whatever the processes do, an answer from a cache was the user's status at
      some moment no longer ago than the cleanup interval and the latency of one read together. */
  lemma StaleBound(latency: real, ws: seq<World>, steps: seq<Step>, i: nat, p: ProcessId, u: UserId)
    requires Behaviour(latency, ws, steps) && i < |ws| && Hits(ws[i], p, u)
    ensures var e := ws[i].caches[p].entries[u];
            TrueAt(ws[i].versions, u, e.status, e.readAt) && ws[i].now - e.readAt <= CLEANUP_INTERVAL + latency
  {
    AlwaysInv(latency, ws, steps, i);
    assert EntrySound(latency, ws[i], ws[i].caches[p].cleanupAt, u, ws[i].caches[p].entries[u]);
  }

  // ---------------------------------------------------------------- when an answer may be stale

  /** A status that a check would be answered with, but that is not the user's any more. */
  predicate Outdated(w: World, u: UserId, status: Option<Status>)
  {
    status.Some? && status != StatusIn(Current(w), u)
  }

  /** A check of `u` in process `p` would now be answered from the cache, and wrongly. */
  predicate AnswersStale(w: World, p: ProcessId, u: UserId)
  {
    Hits(w, p, u) && Outdated(w, u, w.caches[p].entries[u].status)
  }

  predicate StaleRead(latency: real, w: World, p: ProcessId, u: UserId, d: Read)
  {
    d.process == p && d.user == u && Outdated(w, u, d.status) && w.now - d.readAt <= latency
  }

  /** A read of `u` in `p` is under way whose outdated result may still be cached. */
  ghost predicate ReadsStale(latency: real, w: World, p: ProcessId, u: UserId)
  {
    p in w.caches && exists r :: r in w.pending && StaleRead(latency, w, p, u, w.pending[r])
  }

  ghost predicate AtRisk(latency: real, w: World, p: ProcessId, u: UserId)
  {
    AnswersStale(w, p, u) || ReadsStale(latency, w, p, u)
  }

  predicate Commits(s: Step, u: UserId)
  {
    s.Commit? && s.u == u
  }

  /** In some future in which the user's status does not change again, a check in `p` is answered
      with an outdated one. */
  ghost predicate MayAnswerStale(latency: real, w: World, p: ProcessId, u: UserId)
  {
    exists ws, steps :: StaleFuture(latency, w, p, u, ws, steps)
  }

  ghost predicate StaleFuture(latency: real, w: World, p: ProcessId, u: UserId, ws: seq<World>, steps: seq<Step>)
  {
    && Continues(latency, ws, steps) && ws[0] == w && AnswersStale(ws[|steps|], p, u)
    && forall k :: 0 <= k < |steps| ==> !Commits(steps[k], u)
  }

  lemma StepAddsNoRisk(latency: real, w: World, step: Step, p: ProcessId, u: UserId)
    requires Enabled(latency, w, step) && !Commits(step, u) && !AtRisk(latency, w, p, u)
    ensures !AtRisk(latency, Next(w, step), p, u)
  {
    var w' := Next(w, step);
    assert StatusIn(Current(w'), u) == StatusIn(Current(w), u);
    forall r | p in w.caches && r in w'.pending ensures !StaleRead(latency, w', p, u, w'.pending[r]) {
      assert r in w.pending ==> !StaleRead(latency, w, p, u, w.pending[r]);
    }
    assert step.EndRead? && p in w.caches ==> !StaleRead(latency, w, p, u, w.pending[step.r]);
  }

  lemma {:induction false} NoRiskStays(latency: real, ws: seq<World>, steps: seq<Step>, i: nat, p: ProcessId, u: UserId)
    requires Continues(latency, ws, steps) && i < |ws| && !AtRisk(latency, ws[0], p, u)
    requires forall k :: 0 <= k < |steps| ==> !Commits(steps[k], u)
    ensures !AtRisk(latency, ws[i], p, u)
  {
    if i > 0 {
      NoRiskStays(latency, ws, steps, i - 1, p, u);
      StepAddsNoRisk(latency, ws[i - 1], steps[i - 1], p, u);
    }
  }

  /** A stale read is cached, after a cleanup if one is due, and then answers. */
  lemma StaleReadServes(latency: real, w: World, p: ProcessId, u: UserId, r: ReadId)
    requires p in w.caches && r in w.pending && StaleRead(latency, w, p, u, w.pending[r])
    ensures MayAnswerStale(latency, w, p, u)
  {
    if w.now - w.caches[p].cleanupAt <= CLEANUP_INTERVAL {
      var ws, steps := [w, Next(w, EndRead(r))], [EndRead(r)];
      assert StaleFuture(latency, w, p, u, ws, steps);
    } else {
      var w1 := Next(w, Cleanup(p));
      var ws, steps := [w, w1, Next(w1, EndRead(r))], [Cleanup(p), EndRead(r)];
      assert StaleFuture(latency, w, p, u, ws, steps);
    }
  }

  /** As long as a user's status does not change again, a process may answer with an outdated one
      exactly when it has such an entry in a cache that is not due, or such a read under way. */
  lemma MayAnswerStaleIff(latency: real, w: World, p: ProcessId, u: UserId)
    ensures MayAnswerStale(latency, w, p, u) <==> AtRisk(latency, w, p, u)
  {
    if ReadsStale(latency, w, p, u) {
      var r :| r in w.pending && StaleRead(latency, w, p, u, w.pending[r]);
      StaleReadServes(latency, w, p, u, r);
    } else if AnswersStale(w, p, u) {
      var ws: seq<World>, steps: seq<Step> := [w], [];
      assert StaleFuture(latency, w, p, u, ws, steps);
    }
    if MayAnswerStale(latency, w, p, u) {
      var ws, steps :| StaleFuture(latency, w, p, u, ws, steps);
      if !AtRisk(latency, w, p, u) {
        NoRiskStays(latency, ws, steps, |steps|, p, u);
      }
    }
  }

  /** What the invalidation after a revocation achieves: in the process that revokes, only a read
      under way is left to fear; in every other process entries stay as dangerous as they were. */
  lemma InvalidationSufficesIff(latency: real, w: World, p: ProcessId, q: ProcessId, u: UserId)
    requires p in w.caches && p != q
    ensures MayAnswerStale(latency, Next(w, Invalidate(p, u)), p, u) <==> ReadsStale(latency, w, p, u)
    ensures MayAnswerStale(latency, Next(w, Invalidate(p, u)), q, u) <==> AtRisk(latency, w, q, u)
  {
    var w' := Next(w, Invalidate(p, u));
    MayAnswerStaleIff(latency, w', p, u);
    MayAnswerStaleIff(latency, w', q, u);
    assert forall r | r in w.pending, x | x == p || x == q :: StaleRead(latency, w', x, u, w'.pending[r]) == StaleRead(latency, w, x, u, w.pending[r]);
  }

  /** Every other status of the user was replaced before `t`. */
  ghost predicate SettledBefore(w: World, u: UserId, t: real)
  {
    forall k | 0 <= k && k + 1 < |w.versions| && StatusIn(w.versions[k].table, u) != StatusIn(Current(w), u) :: w.versions[k + 1].at < t
  }

  /** The danger passes by itself: once the last change of a user is longer ago than the interval
      and the latency together, no process may answer with an outdated status. */
  lemma RiskPasses(latency: real, ws: seq<World>, steps: seq<Step>, i: nat, p: ProcessId, u: UserId)
    requires Behaviour(latency, ws, steps) && i < |ws|
    requires SettledBefore(ws[i], u, ws[i].now - CLEANUP_INTERVAL - latency)
    ensures !MayAnswerStale(latency, ws[i], p, u)
  {
    var w := ws[i];
    AlwaysInv(latency, ws, steps, i);
    MayAnswerStaleIff(latency, w, p, u);
    if AnswersStale(w, p, u) {
      var e := w.caches[p].entries[u];
      assert EntrySound(latency, w, w.caches[p].cleanupAt, u, e);
      OutdatedIsOld(w, u, e.status, e.readAt);
    }
    if ReadsStale(latency, w, p, u) {
      var r :| r in w.pending && StaleRead(latency, w, p, u, w.pending[r]);
      OutdatedIsOld(w, u, w.pending[r].status, w.pending[r].readAt);
    }
  }

  /** An outdated status was read no later than the change that replaced it. */
  lemma OutdatedIsOld(w: World, u: UserId, status: Option<Status>, at: real)
    requires TrueAt(w.versions, u, status, at) && Outdated(w, u, status)
    ensures exists k | 0 <= k && k + 1 < |w.versions| :: StatusIn(w.versions[k].table, u) != StatusIn(Current(w), u) && at <= w.versions[k + 1].at
  {
    var k :| 0 <= k < |w.versions| && Holds(w.versions, k, u, status, at);
    assert k + 1 < |w.versions|;
  }

  /** Both dangers are real: a read under way whose result is cached after the invalidation ... */
  lemma InvalidationOvertaken(u: UserId) returns (ws: seq<World>, steps: seq<Step>)
    ensures Behaviour(0.0, ws, steps) && |ws| == 6 && steps[2..4] == [Commit(u, Revoked), Invalidate(0, u)]
    ensures Current(ws[5]) == map[u := Revoked] && AnswersStale(ws[5], 0, u)
  {
    steps := [Commit(u, Authorized), StartRead(0, 0, u), Commit(u, Revoked), Invalidate(0, u), EndRead(0)];
    ws := Play(World(0.0, [Version(0.0, map[])], map[0 := Cache(map[], 0.0)], map[]), steps);
    assert Current(ws[0]) == map[] && Current(ws[1]) == map[u := Authorized] && Current(ws[3]) == map[u := Revoked];
    assert ws[3].pending[0] == Read(0, u, Some(Authorized), 0.0);
  }

  /** ... and an entry of another process, which no invalidation reaches. */
  lemma OtherProcessServes(u: UserId) returns (ws: seq<World>, steps: seq<Step>)
    ensures Behaviour(0.0, ws, steps) && |ws| == 6 && steps[3..] == [Commit(u, Revoked), Invalidate(0, u)]
    ensures Current(ws[5]) == map[u := Revoked] && AnswersStale(ws[5], 1, u) && ws[5].pending == map[]
  {
    steps := [Commit(u, Authorized), StartRead(0, 1, u), EndRead(0), Commit(u, Revoked), Invalidate(0, u)];
    ws := Play(World(0.0, [Version(0.0, map[])], map[0 := Cache(map[], 0.0), 1 := Cache(map[], 0.0)], map[]), steps);
    assert Current(ws[0]) == map[] && Current(ws[1]) == map[u := Authorized] && Current(ws[4]) == map[u := Revoked];
    assert ws[2].pending[0] == Read(1, u, Some(Authorized), 0.0);
  }

  /** The worlds of five steps. */
  function Play(w: World, steps: seq<Step>): (ws: seq<World>)
    requires |steps| == 5
    ensures |ws| == 6 && ws[0] == w && forall i | 0 <= i < 5 :: ws[i + 1] == Next(ws[i], steps[i])
  {
    var w1 := Next(w, steps[0]);
    var w2 := Next(w1, steps[1]);
    var w3 := Next(w2, steps[2]);
    var w4 := Next(w3, steps[3]);
    [w, w1, w2, w3, w4, Next(w4, steps[4])]
  }
}
