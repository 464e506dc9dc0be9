/**
 * The in-memory session store (Data/Repository/InMemorySessionStore.swift): a dictionary of
 * sessions keyed by id plus the autosave settings. Persistence to the device is not modelled,
 * so the store's state is the dictionary and the two autosave fields.
 */
module SessionStore {
  import opened Wrappers
  import opened Identifiers
  import opened Sorting
  import opened WorkoutSessions

  /** The store's error taxonomy (Data/Model/StorageError.swift), without the localized texts. */
  datatype StorageError =
    | SessionNotFound(id: Uuid)
    | SaveFailure(message: string)
    | LoadFailure(message: string)
    | CorruptedData(message: string)
    | DiskSpaceInsufficient
    | SessionExpired(id: Uuid)
    | InvalidSessionData(message: string)
    | AutosaveFailure(message: string)

  /** Every session is filed under its own id. */
  ghost predicate KeyedById(m: map<Uuid, WorkoutSession>) {
    forall id :: id in m ==> m[id].id == id
  }

  /** Active and not yet expired: what the store offers for recovery. */
  predicate Recoverable(s: WorkoutSession, now: Instant) {
    s.status == Active && !IsExpired(s, now)
  }

  /**
   * `s` is a session `getMostRecentActiveSession` may answer at `now`: stored, recoverable,
   * and updated no earlier than any other recoverable session.
   */
  ghost predicate MostRecentLive(m: map<Uuid, WorkoutSession>, now: Instant, s: WorkoutSession) {
    && s in m.Values && Recoverable(s, now)
    && forall t :: t in m.Values && Recoverable(t, now) ==> t.lastUpdated <= s.lastUpdated
  }

  /** The recovery candidate found at `now` is still unexpired at the second reading `later`. */
  ghost predicate CandidateLive(m: map<Uuid, WorkoutSession>, now: Instant, later: Instant) {
    exists s :: MostRecentLive(m, now, s) && !IsExpired(s, later)
  }

  /** The recovery candidate found at `now` has expired by the second reading `later`. */
  ghost predicate CandidateExpired(m: map<Uuid, WorkoutSession>, now: Instant, later: Instant) {
    exists s :: MostRecentLive(m, now, s) && IsExpired(s, later)
  }

  /** Two candidates tie on `lastUpdated`, so they expire together. */
  lemma CandidatesAgree(m: map<Uuid, WorkoutSession>, now: Instant, later: Instant, s1: WorkoutSession, s2: WorkoutSession)
    requires MostRecentLive(m, now, s1) && MostRecentLive(m, now, s2)
    ensures s1.lastUpdated == s2.lastUpdated
    ensures IsExpired(s1, later) <==> IsExpired(s2, later)
  {
    assert s1.lastUpdated <= s2.lastUpdated;
    assert s2.lastUpdated <= s1.lastUpdated;
  }

  /** Whenever some session is recoverable, there is a most recent one. */
  lemma {:induction false} MostRecentExists(m: map<Uuid, WorkoutSession>, now: Instant)
    requires exists s :: s in m.Values && Recoverable(s, now)
    ensures exists s :: MostRecentLive(m, now, s)
    decreases |m|
  {
    var id :| id in m;
    var rest := m - {id};
    forall t | t in m.Values
      ensures t in rest.Values || t == m[id]
    {
      var k :| k in m && m[k] == t;
      if k != id {
        assert rest[k] == t;
      }
    }
    if exists s :: s in rest.Values && Recoverable(s, now) {
      MostRecentExists(rest, now);
      var best :| MostRecentLive(rest, now, best);
      if Recoverable(m[id], now) && best.lastUpdated < m[id].lastUpdated {
        assert MostRecentLive(m, now, m[id]);
      } else {
        assert MostRecentLive(m, now, best);
      }
    } else {
      assert MostRecentLive(m, now, m[id]);
    }
  }

  /**
   * The outcomes of a recovery attempt: with a recoverable session at `now` the candidate is
   * either still live or expired at `later`, never both; without one there is no candidate;
   * with a single clock reading the candidate cannot have expired.
   */
  lemma RecoveryOutcomes(m: map<Uuid, WorkoutSession>, now: Instant, later: Instant)
    ensures !(CandidateLive(m, now, later) && CandidateExpired(m, now, later))
    ensures (CandidateLive(m, now, later) || CandidateExpired(m, now, later))
            <==> exists s :: s in m.Values && Recoverable(s, now)
    ensures now == later ==> !CandidateExpired(m, now, later)
  {
    forall s1, s2 | MostRecentLive(m, now, s1) && MostRecentLive(m, now, s2)
      ensures IsExpired(s1, later) <==> IsExpired(s2, later)
    {
      CandidatesAgree(m, now, later, s1, s2);
    }
    if exists s :: s in m.Values && Recoverable(s, now) {
      MostRecentExists(m, now);
      var s :| MostRecentLive(m, now, s);
      assert CandidateLive(m, now, later) || CandidateExpired(m, now, later);
    }
  }

  /** The dictionary without its expired sessions. */
  function Unexpired(m: map<Uuid, WorkoutSession>, now: Instant): map<Uuid, WorkoutSession> {
    map id | id in m && !IsExpired(m[id], now) :: m[id]
  }

  /** Pruning leaves no expired session and keeps every other session exactly as it was. */
  lemma PruneKeepsLive(m: map<Uuid, WorkoutSession>, now: Instant)
    ensures forall id :: id in Unexpired(m, now) ==> !IsExpired(Unexpired(m, now)[id], now)
    ensures forall id :: id in m && !IsExpired(m[id], now) ==> id in Unexpired(m, now) && Unexpired(m, now)[id] == m[id]
    ensures forall id :: id in m && Recoverable(m[id], now) ==> id in Unexpired(m, now)
    ensures KeyedById(m) ==> KeyedById(Unexpired(m, now))
  {
  }

  /** Pruning twice at the same moment prunes nothing more. */
  lemma PruneIdempotent(m: map<Uuid, WorkoutSession>, now: Instant)
    ensures Unexpired(Unexpired(m, now), now) == Unexpired(m, now)
  {
  }

  /** Expiry only grows with time: a session live at a later moment was live earlier. */
  lemma PruneLaterKeepsLess(m: map<Uuid, WorkoutSession>, now: Instant, later: Instant)
    requires now <= later
    ensures Unexpired(m, later).Keys <= Unexpired(m, now).Keys
  {
  }

  /** The order of `getCompletedSessions`: the most recently started first. */
  function NewestFirst(s: WorkoutSession): int {
    -s.startTime
  }

  function SessionId(s: WorkoutSession): Uuid {
    s.id
  }

  /** `xs` lists distinct sessions. */
  ghost predicate DistinctIds(xs: seq<WorkoutSession>) {
    forall i, j :: 0 <= i < j < |xs| ==> xs[i].id != xs[j].id
  }

  class InMemorySessionStore {
    var sessions: map<Uuid, WorkoutSession>
    var autosaveInterval: real
    var isAutosaveActive: bool

    ghost predicate Valid()
      reads this
    {
      KeyedById(sessions)
    }

    constructor ()
      ensures Valid()
      ensures sessions == map[] && autosaveInterval == 0.0 && !isAutosaveActive
    {
      sessions := map[];
      autosaveInterval := 0.0;
      isAutosaveActive := false;
    }

    /** `save`: inserts or replaces the session under its id. */
    method Save(session: WorkoutSession)
      requires Valid()
      modifies this
      ensures Valid()
      ensures sessions == old(sessions)[session.id := session]
      ensures autosaveInterval == old(autosaveInterval) && isAutosaveActive == old(isAutosaveActive)
    {
      sessions := sessions[session.id := session];
    }

    /** `updateSession`: the same upsert as `save`. */
    method UpdateSession(session: WorkoutSession)
      requires Valid()
      modifies this
      ensures Valid()
      ensures sessions == old(sessions)[session.id := session]
      ensures autosaveInterval == old(autosaveInterval) && isAutosaveActive == old(isAutosaveActive)
    {
      sessions := sessions[session.id := session];
    }

    /** `load`: the session filed under `id`, if any. */
    method Load(id: Uuid) returns (r: Option<WorkoutSession>)
      requires Valid()
      ensures r.Some? <==> id in sessions
      ensures r.Some? ==> r.value == sessions[id] && r.value.id == id
    {
      if id in sessions {
        r := Some(sessions[id]);
      } else {
        r := None;
      }
    }

    /** `delete`: removes the session, or throws `sessionNotFound` and changes nothing. */
    method Delete(id: Uuid) returns (o: Outcome<StorageError>)
      requires Valid()
      modifies this
      ensures Valid()
      ensures o.Pass? <==> id in old(sessions)
      ensures o.Fail? ==> o.error == SessionNotFound(id) && sessions == old(sessions)
      ensures o.Pass? ==> sessions == old(sessions) - {id}
      ensures autosaveInterval == old(autosaveInterval) && isAutosaveActive == old(isAutosaveActive)
    {
      if id !in sessions {
        return Fail(SessionNotFound(id));
      }
      sessions := sessions - {id};
      o := Pass;
    }

    /** The stored sessions that satisfy `keep`, each once, in the dictionary's (unspecified) order. */
    method Select(keep: WorkoutSession -> bool) returns (r: seq<WorkoutSession>)
      requires Valid()
      ensures forall s :: s in r <==> s in sessions.Values && keep(s)
      ensures DistinctIds(r)
    {
      r := [];
      var pending := sessions.Keys;
      while pending != {}
        invariant pending <= sessions.Keys
        invariant forall s :: s in r <==> s.id in sessions && s.id !in pending && sessions[s.id] == s && keep(s)
        invariant DistinctIds(r)
        decreases |pending|
      {
        var id :| id in pending;
        if keep(sessions[id]) {
          r := r + [sessions[id]];
        }
        pending := pending - {id};
      }
      forall s | s in sessions.Values
        ensures s.id in sessions && sessions[s.id] == s
      {
        var id :| id in sessions && sessions[id] == s;
      }
    }

    /** `loadAll`: every stored session once. */
    method LoadAll() returns (r: seq<WorkoutSession>)
      requires Valid()
      ensures forall s :: s in r <==> s in sessions.Values
      ensures DistinctIds(r)
    {
      r := Select((s: WorkoutSession) => true);
    }

    /** `getActiveSessions`: the active sessions that have not expired at `now`. */
    method GetActiveSessions(now: Instant) returns (r: seq<WorkoutSession>)
      requires Valid()
      ensures forall s :: s in r <==> s in sessions.Values && Recoverable(s, now)
      ensures DistinctIds(r)
    {
      r := Select((s: WorkoutSession) => Recoverable(s, now));
    }

    /** `getExpiredSessions`: the sessions that have expired at `now`, whatever their status. */
    method GetExpiredSessions(now: Instant) returns (r: seq<WorkoutSession>)
      requires Valid()
      ensures forall s :: s in r <==> s in sessions.Values && IsExpired(s, now)
      ensures DistinctIds(r)
    {
      r := Select((s: WorkoutSession) => IsExpired(s, now));
    }

    /** `getCompletedSessions`: the completed sessions, the most recently started first. */
    method GetCompletedSessions() returns (r: seq<WorkoutSession>)
      requires Valid()
      ensures forall s :: s in r <==> s in sessions.Values && s.status == Completed
      ensures forall i, j :: 0 <= i < j < |r| ==> r[i].startTime >= r[j].startTime
      ensures DistinctIds(r)
    {
      var completed := Select((s: WorkoutSession) => s.status == Completed);
      r := SortBy(completed, NewestFirst);
      SortByOrders(completed, NewestFirst);
      SortByPermutes(completed, NewestFirst);
      forall s
        ensures s in r <==> s in completed
      {
        SortByMembers(completed, NewestFirst, s);
      }
      assert DistinctBy(completed, SessionId);
      SortByDistinct(completed, NewestFirst, SessionId);
    }

    /** `getActiveSession` and `getMostRecentActiveSession`: a live session updated last, if any. */
    method GetMostRecentActiveSession(now: Instant) returns (r: Option<WorkoutSession>)
      requires Valid()
      ensures r.None? <==> forall s :: s in sessions.Values ==> !Recoverable(s, now)
      ensures r.Some? ==> r.value in sessions.Values && Recoverable(r.value, now)
      ensures r.Some? ==> forall s :: s in sessions.Values && Recoverable(s, now) ==> s.lastUpdated <= r.value.lastUpdated
      ensures r.Some? ==> MostRecentLive(sessions, now, r.value)
    {
      var active := GetActiveSessions(now);
      r := LatestUpdated(active);
    }

    /** `isSessionExpired`: whether the stored session has expired, or `sessionNotFound`. */
    method IsSessionExpired(id: Uuid, now: Instant) returns (r: Result<bool, StorageError>)
      requires Valid()
      ensures r.Failure? <==> id !in sessions
      ensures r.Failure? ==> r.error == SessionNotFound(id)
      ensures r.Success? ==> r.value == IsExpired(sessions[id], now)
    {
      if id !in sessions {
        return Failure(SessionNotFound(id));
      }
      r := Success(IsExpired(sessions[id], now));
    }

    /** `canRecover`: the session is stored, active and not expired; a missing id is not an error. */
    method CanRecover(sessionId: Uuid, now: Instant) returns (b: bool)
      requires Valid()
      ensures b <==> sessionId in sessions && Recoverable(sessions[sessionId], now)
    {
      if sessionId !in sessions {
        return false;
      }
      b := Recoverable(sessions[sessionId], now);
    }

    /** `recoverAllSessions` without the reload from the device: the live active sessions. */
    method RecoverAllSessions(now: Instant) returns (r: seq<WorkoutSession>)
      requires Valid()
      ensures forall s :: s in r <==> s in sessions.Values && Recoverable(s, now)
      ensures DistinctIds(r)
    {
      r := GetActiveSessions(now);
    }

    /** `pruneExpiredSessions`: removes the expired sessions and returns their ids. */
    method PruneExpiredSessions(now: Instant) returns (expiredIds: seq<Uuid>)
      requires Valid()
      modifies this
      ensures Valid()
      ensures forall id :: id in expiredIds <==> id in old(sessions) && IsExpired(old(sessions)[id], now)
      ensures forall i, j :: 0 <= i < j < |expiredIds| ==> expiredIds[i] != expiredIds[j]
      ensures sessions == Unexpired(old(sessions), now)
      ensures autosaveInterval == old(autosaveInterval) && isAutosaveActive == old(isAutosaveActive)
    {
      expiredIds := [];
      var pending := sessions.Keys;
      while pending != {}
        invariant pending <= sessions.Keys
        invariant forall id :: id in expiredIds <==> id in sessions && id !in pending && IsExpired(sessions[id], now)
        invariant forall i, j :: 0 <= i < j < |expiredIds| ==> expiredIds[i] != expiredIds[j]
        invariant autosaveInterval == old(autosaveInterval) && isAutosaveActive == old(isAutosaveActive)
        decreases |pending|
      {
        var id :| id in pending;
        if IsExpired(sessions[id], now) {
          expiredIds := expiredIds + [id];
        }
        pending := pending - {id};
      }
      ghost var before := sessions;
      var k := 0;
      while k < |expiredIds|
        invariant 0 <= k <= |expiredIds|
        invariant sessions == map id | id in before && id !in expiredIds[..k] :: before[id]
        invariant autosaveInterval == old(autosaveInterval) && isAutosaveActive == old(isAutosaveActive)
      {
        assert expiredIds[..k + 1] == expiredIds[..k] + [expiredIds[k]];
        sessions := sessions - {expiredIds[k]};
        k := k + 1;
      }
      assert expiredIds[..|expiredIds|] == expiredIds;
    }

    /** `getTotalSessionCount`: the number of stored sessions. */
    method GetTotalSessionCount() returns (n: nat)
      ensures n == |sessions|
    {
      n := |sessions|;
    }

    /** `clearAllData`: forgets every session; the autosave settings stay. */
    method ClearAllData()
      modifies this
      ensures Valid()
      ensures sessions == map[]
      ensures autosaveInterval == old(autosaveInterval) && isAutosaveActive == old(isAutosaveActive)
    {
      sessions := map[];
    }

    /** `enableAutosave`: records the interval and switches autosave on. */
    method EnableAutosave(interval: real)
      modifies this
      ensures sessions == old(sessions)
      ensures autosaveInterval == interval && isAutosaveActive
    {
      autosaveInterval := interval;
      isAutosaveActive := true;
    }

    /** `disableAutosave`: switches autosave off; the interval stays. */
    method DisableAutosave()
      modifies this
      ensures sessions == old(sessions)
      ensures autosaveInterval == old(autosaveInterval) && !isAutosaveActive
    {
      isAutosaveActive := false;
    }

    /** `isAutosaveEnabled`. */
    method IsAutosaveEnabled() returns (b: bool)
      ensures b == isAutosaveActive
    {
      b := isAutosaveActive;
    }
  }

  /** Swift's `max { $0.lastUpdated < $1.lastUpdated }`: the first element with the latest update. */
  method LatestUpdated(xs: seq<WorkoutSession>) returns (r: Option<WorkoutSession>)
    ensures r.None? <==> xs == []
    ensures r.Some? ==> r.value in xs && forall x :: x in xs ==> x.lastUpdated <= r.value.lastUpdated
  {
    if xs == [] {
      return None;
    }
    var best := xs[0];
    var i := 1;
    while i < |xs|
      invariant 1 <= i <= |xs|
      invariant best in xs[..i]
      invariant forall k :: 0 <= k < i ==> xs[k].lastUpdated <= best.lastUpdated
    {
      if best.lastUpdated < xs[i].lastUpdated {
        best := xs[i];
      }
      i := i + 1;
    }
    assert xs[..|xs|] == xs;
    r := Some(best);
  }
}
