/** The coordinator over its one string-keyed store (saga-coordinator.service.ts). Every method refines the operation
    of the same name on six separate maps; `view` is the state of those maps, which the store determines. */
module SagaCoordinator {
  import opened SagaTypes
  import opened CacheKeys
  import opened Keyspace
  import C = CoordinatorModel

  class Coordinator {
    var redis: Redis
    var now: nat
    ghost var view: C.Coord

    ghost predicate Valid()
      reads this
    {
      Represents(redis, view) && view.now == now
    }

    constructor (start: nat)
      ensures Valid() && view == C.Empty(start)
    {
      redis, now, view := map[], start, C.Empty(start);
    }

    /** SETEX, SET EX or HMSET on one key. */
    method Put(family: Family, id: string, value: Value, expiry: Option<nat>, ghost next: C.Coord)
      requires Valid() && next.now == now
      requires ChangedAt(view, next, family, id, Some(C.Timed(value, expiry)))
      modifies this
      ensures Valid() && view == next && now == old(now)
    {
      PutRepresents(redis, view, family, id, C.Timed(value, expiry), next);
      redis := redis[Key(family, id) := C.Timed(value, expiry)];
      view := next;
    }

    /** DEL of one key. */
    method Del(family: Family, id: string, ghost next: C.Coord)
      requires Valid() && next.now == now
      requires ChangedAt(view, next, family, id, None)
      modifies this
      ensures Valid() && view == next && now == old(now)
    {
      DelRepresents(redis, view, family, id, next);
      redis := redis - {Key(family, id)};
      view := next;
    }

    method AcquireSagaLock(requestId: string, ttlSeconds: int) returns (acquired: bool)
      requires Valid()
      modifies this
      ensures Valid() && (view, acquired) == C.Acquire(old(view), requestId, ttlSeconds)
      ensures acquired <==> ttlSeconds > 0 && requestId !in old(view).locks
      ensures view.locks == if acquired then old(view).locks[requestId :=
                                               C.Timed(old(now), Some(old(now) + ttlSeconds * 1000))]
                            else old(view).locks
    {
      assert Get(redis, Key(Lock, requestId)) == Lookup(view, Lock, requestId);
      if ttlSeconds <= 0 || Key(Lock, requestId) in redis {
        acquired := false;
      } else {
        Put(Lock, requestId, Stamp(now), Some(now + ttlSeconds * 1000), C.Acquire(view, requestId, ttlSeconds).0);
        acquired := true;
      }
    }

    method ReleaseSagaLock(requestId: string)
      requires Valid()
      modifies this
      ensures Valid() && view == C.Release(old(view), requestId)
    {
      Del(Lock, requestId, C.Release(view, requestId));
    }

    method IsLocked(requestId: string) returns (locked: bool)
      requires Valid()
      ensures locked <==> requestId in view.locks
    {
      assert Get(redis, Key(Lock, requestId)) == Lookup(view, Lock, requestId);
      locked := Key(Lock, requestId) in redis;
    }

    method SetActiveSagaState(requestId: string, state: C.ActiveState, ttlSeconds: int)
      requires Valid()
      modifies this
      ensures Valid() && view == C.SetActive(old(view), requestId, state, ttlSeconds)
      ensures view.active == if ttlSeconds > 0 then old(view).active[requestId :=
                                                      C.Timed(state, Some(old(now) + ttlSeconds * 1000))]
                             else old(view).active
    {
      if ttlSeconds > 0 {
        Put(Active, requestId, State(state), Some(now + ttlSeconds * 1000),
            C.SetActive(view, requestId, state, ttlSeconds));
      }
    }

    method GetActiveSagaState(requestId: string) returns (state: Option<C.ActiveState>)
      requires Valid()
      ensures state == if requestId in view.active then Some(view.active[requestId].value) else None
    {
      assert Get(redis, Key(Active, requestId)) == Lookup(view, Active, requestId);
      state := if Key(Active, requestId) in redis then Some(redis[Key(Active, requestId)].value.state) else None;
    }

    method ClearActiveSagaState(requestId: string)
      requires Valid()
      modifies this
      ensures Valid() && view == C.ClearActive(old(view), requestId)
    {
      Del(Active, requestId, C.ClearActive(view, requestId));
    }

    method IncrementStepCounter(requestId: string, step: string) returns (count: int)
      requires Valid()
      modifies this
      ensures Valid() && view == C.ExpireSteps(C.CountStep(old(view), requestId, step), requestId)
      ensures count == 1 + if requestId in old(view).steps && step in old(view).steps[requestId].value
                           then old(view).steps[requestId].value[step] else 0
      ensures requestId in view.steps && view.steps[requestId].expiry == Some(old(now) + 7_200_000)
      ensures view.steps[requestId].value ==
              (if requestId in old(view).steps then old(view).steps[requestId].value else map[])[step := count]
    {
      var key := Key(Steps, requestId);
      assert Get(redis, key) == Lookup(view, Steps, requestId);
      var counters: C.Counters := if key in redis then redis[key].value.counters else map[];
      var expiry := if key in redis then redis[key].expiry else None;
      count := (if step in counters then counters[step] else 0) + 1;
      Put(Steps, requestId, Hash(counters[step := count]), expiry, C.CountStep(view, requestId, step));
      assert Get(redis, key) == Lookup(view, Steps, requestId);
      Put(Steps, requestId, redis[key].value, Some(now + 7200 * 1000), C.ExpireSteps(view, requestId));
    }

    method GetSagaProgressStep(requestId: string) returns (counters: C.Counters)
      requires Valid()
      ensures counters == if requestId in view.steps then view.steps[requestId].value else map[]
    {
      assert Get(redis, Key(Steps, requestId)) == Lookup(view, Steps, requestId);
      counters := if Key(Steps, requestId) in redis then redis[Key(Steps, requestId)].value.counters else map[];
    }

    method ClearSagaProgress(requestId: string)
      requires Valid()
      modifies this
      ensures Valid() && view == C.ClearSteps(old(view), requestId)
    {
      Del(Steps, requestId, C.ClearSteps(view, requestId));
    }

    method AddToPendingQueue(requestId: string, priority: Option<int>)
      requires Valid()
      modifies this
      ensures Valid() && view == C.Enqueue(old(view), requestId, priority)
      ensures view.pending == old(view).pending[requestId := match priority
                                                             case None => old(now)
                                                             case Some(p) => if p == 0 then old(now) else p]
    {
      var score: int := if priority.Some? && priority.value != 0 then priority.value else now;
      ghost var next := C.Enqueue(view, requestId, priority);
      ScoresRepresent(redis, view, next.pending);
      redis := PutScores(redis, Scores(redis)[requestId := score]);
      view := next;
    }

    method RemoveFromPendingQueue(requestId: string)
      requires Valid()
      modifies this
      ensures Valid() && view == C.Dequeue(old(view), requestId)
    {
      ghost var next := C.Dequeue(view, requestId);
      ScoresRepresent(redis, view, next.pending);
      redis := PutScores(redis, Scores(redis) - {requestId});
      view := next;
    }

    /** Exactly the requests queued at or before the cut-off, each once, lowest score first. */
    method GetStuckSagas(olderThanMs: int) returns (stuck: seq<string>)
      requires Valid()
      ensures forall id :: id in stuck <==> id in view.pending && view.pending[id] <= now - olderThanMs
      ensures forall i, j :: 0 <= i < j < |stuck| ==>
                stuck[i] != stuck[j] && view.pending[stuck[i]] <= view.pending[stuck[j]]
      ensures C.InOrder(view.pending, stuck)
    {
      ScoresRepresent(redis, view, view.pending);
      var scores := Scores(redis);
      stuck := C.Sorted(scores, set id | id in scores && scores[id] <= now - olderThanMs);
    }

    method GetPendingCount() returns (count: nat)
      requires Valid()
      ensures count == |view.pending|
    {
      ScoresRepresent(redis, view, view.pending);
      count := |Scores(redis)|;
    }

    /** INCR, and EXPIRE when it answered 1. */
    method CheckRateLimit(userId: string, maxPerMinute: int) returns (allowed: bool)
      requires Valid()
      modifies this
      ensures Valid()
      ensures var (hit, count) := C.Hit(old(view), userId);
              view == (if count == 1 then C.Arm(hit, userId) else hit) && (allowed <==> count <= maxPerMinute)
      ensures var hits := if userId in old(view).rate then old(view).rate[userId].value else 0;
              && (allowed <==> hits < maxPerMinute)
              && view.rate == old(view).rate[userId :=
                   C.Timed(hits + 1, if hits == 0 then Some(old(now) + 60_000) else old(view).rate[userId].expiry)]
    {
      var key := Key(Rate, userId);
      assert Get(redis, key) == Lookup(view, Rate, userId);
      var current := (if key in redis then redis[key].value.count else 0) + 1;
      Put(Rate, userId, Counter(current), if key in redis then redis[key].expiry else None, C.Hit(view, userId).0);
      if current == 1 {
        assert Get(redis, key) == Lookup(view, Rate, userId);
        Put(Rate, userId, redis[key].value, Some(now + 60 * 1000), C.Arm(view, userId));
      }
      allowed := current <= maxPerMinute;
    }

    method GetRateLimitCount(userId: string) returns (count: int)
      requires Valid()
      ensures count == if userId in view.rate then view.rate[userId].value else 0
    {
      assert Get(redis, Key(Rate, userId)) == Lookup(view, Rate, userId);
      count := if Key(Rate, userId) in redis then redis[Key(Rate, userId)].value.count else 0;
    }

    method Hmset(requestId: string, metadata: C.Fields)
      requires Valid() && metadata != map[]
      modifies this
      ensures Valid() && view == C.SetMeta(old(view), requestId, metadata)
    {
      var key := Key(Meta, requestId);
      assert Get(redis, key) == Lookup(view, Meta, requestId);
      var fields: C.Fields := if key in redis then redis[key].value.fields else map[];
      var expiry := if key in redis then redis[key].expiry else None;
      Put(Meta, requestId, Info(fields + metadata), expiry, C.SetMeta(view, requestId, metadata));
    }

    method ExpireMetadata(requestId: string, ttlSeconds: int)
      requires Valid()
      modifies this
      ensures Valid() && view == C.ExpireMeta(old(view), requestId, ttlSeconds)
    {
      var key := Key(Meta, requestId);
      assert Get(redis, key) == Lookup(view, Meta, requestId);
      if key in redis {
        if ttlSeconds <= 0 {
          Del(Meta, requestId, C.ExpireMeta(view, requestId, ttlSeconds));
        } else {
          Put(Meta, requestId, redis[key].value, Some(now + ttlSeconds * 1000),
              C.ExpireMeta(view, requestId, ttlSeconds));
        }
      }
    }

    /** HMSET, then EXPIRE; an empty record is refused before the EXPIRE. */
    method SetSagaMetadata(requestId: string, metadata: C.Fields, ttlSeconds: int)
      requires Valid()
      modifies this
      ensures Valid()
      ensures view == if metadata == map[] then old(view)
                      else C.ExpireMeta(C.SetMeta(old(view), requestId, metadata), requestId, ttlSeconds)
      ensures metadata != map[] && ttlSeconds > 0 ==>
                view.metadata == old(view).metadata[requestId :=
                  C.Timed((if requestId in old(view).metadata then old(view).metadata[requestId].value else map[])
                          + metadata, Some(old(now) + ttlSeconds * 1000))]
    {
      if metadata != map[] {
        Hmset(requestId, metadata);
        ExpireMetadata(requestId, ttlSeconds);
      }
    }

    method GetSagaMetadata(requestId: string) returns (fields: C.Fields)
      requires Valid()
      ensures fields == if requestId in view.metadata then view.metadata[requestId].value else map[]
    {
      assert Get(redis, Key(Meta, requestId)) == Lookup(view, Meta, requestId);
      fields := if Key(Meta, requestId) in redis then redis[Key(Meta, requestId)].value.fields else map[];
    }

    method Delete(deletion: C.Deletion, requestId: string)
      requires Valid()
      modifies this
      ensures Valid() && view == C.Delete(old(view), deletion, requestId)
    {
      match deletion
      case OfLock => ReleaseSagaLock(requestId);
      case OfActive => ClearActiveSagaState(requestId);
      case OfSteps => ClearSagaProgress(requestId);
      case OfPending => RemoveFromPendingQueue(requestId);
      case OfMeta => Del(Meta, requestId, C.ClearMeta(view, requestId));
    }

    /** Promise.all issues the five deletions at once; `order` is the order in which they happen to land. */
    method Cleanup(requestId: string, order: seq<C.Deletion>)
      requires Valid()
      requires multiset(order) == multiset(C.ALL_DELETIONS)
      modifies this
      ensures Valid() && view == C.Without(old(view), requestId)
    {
      for i := 0 to |order|
        invariant Valid()
        invariant C.DeleteEach(view, order[i..], requestId) == C.DeleteEach(old(view), order, requestId)
      {
        assert order[i..][1..] == order[i + 1..];
        Delete(order[i], requestId);
      }
      C.CleanupInAnyOrder(old(view), order, requestId);
    }

    method GetStats() returns (pendingSagas: nat, lockedSagas: nat, cachedStates: nat)
      requires Valid()
      ensures pendingSagas == |view.pending| && lockedSagas == |view.locks.Keys| && cachedStates == |view.active.Keys|
    {
      pendingSagas := GetPendingCount();
      LocksCounted(redis, view);
      ActiveCounted(redis, view);
      lockedSagas := |Matching(redis, Lock)|;
      cachedStates := |Matching(redis, Active)|;
    }

    /** Time passes; Redis drops what expired. */
    method Advance(elapsed: nat)
      requires Valid()
      modifies this
      ensures Valid() && view == C.Tick(old(view), elapsed)
    {
      ExpireRepresents(redis, view, elapsed);
      redis := C.Prune(redis, now + elapsed);
      now := now + elapsed;
      view := C.Tick(view, elapsed);
    }
  }
}
