/** A confirmation handler running alone, from its first command to its last. */
module SoloHandlers {
  import opened SagaTypes
  import opened SagaProtocol
  import C = CoordinatorModel

  /** Everything the environment decides: the reply to each command, the number generated, and the order in which
      cleanup's deletions land; and the hotel's join constant. */
  datatype HandlerEnv = HandlerEnv(replies: HandlerPc -> Reply, bookingId: string, order: seq<C.Deletion>,
      hotelJoin: seq<string>)

  function FirstOf(order: seq<C.Deletion>, todo: set<C.Deletion>): (d: C.Deletion)
    ensures todo != {} ==> d in todo
  {
    if order != [] then if order[0] in todo then order[0] else FirstOf(order[1..], todo)
    else if C.OfLock in todo then C.OfLock
    else if C.OfActive in todo then C.OfActive
    else if C.OfSteps in todo then C.OfSteps
    else if C.OfPending in todo then C.OfPending
    else
      assert forall d :: d in todo ==> d == C.OfMeta;
      C.OfMeta
  }

  function At(env: HandlerEnv, pc: HandlerPc): Choice {
    Choice(env.replies(pc), env.bookingId, if pc.AggClean? then FirstOf(env.order, pc.todo) else C.OfLock)
  }

  function HandlerRank(pc: HandlerPc): nat {
    match pc
    case Save => 15 + |C.ALL_DELETIONS|
    case CountConfirm => 14 + |C.ALL_DELETIONS|
    case TouchConfirm => 13 + |C.ALL_DELETIONS|
    case AggFind => 12 + |C.ALL_DELETIONS|
    case AggUpdate => 11 + |C.ALL_DELETIONS|
    case AggCount => 10 + |C.ALL_DELETIONS|
    case AggTouch => 9 + |C.ALL_DELETIONS|
    case AggDequeue => 8 + |C.ALL_DELETIONS|
    case AggClean(todo) => 7 + |todo|
    case AggError => 6
    case AggPutMeta => 5
    case AggTouchMeta => 4
    case Confirm => 1
    case Fail => 1
    case Over => 0
  }

  lemma CleaningRankDrops(s: Store, h: Handler, env: HandlerEnv)
    requires h.pc.AggClean?
    ensures HandlerRank(NextHandler(s, h, At(env, h.pc), env.hotelJoin).pc) < HandlerRank(h.pc)
  {
    if h.pc.todo != {} {
      assert FirstOf(env.order, h.pc.todo) in h.pc.todo;
    }
  }

  lemma JoiningRankDrops(s: Store, h: Handler, env: HandlerEnv)
    requires h.pc.Save? || h.pc.CountConfirm? || h.pc.TouchConfirm?
    ensures HandlerRank(NextHandler(s, h, At(env, h.pc), env.hotelJoin).pc) < HandlerRank(h.pc)
  {
  }

  lemma AggregatingRankDrops(s: Store, h: Handler, env: HandlerEnv)
    requires h.pc.AggFind? || h.pc.AggUpdate? || h.pc.AggCount? || h.pc.AggTouch? || h.pc.AggDequeue?
    ensures HandlerRank(NextHandler(s, h, At(env, h.pc), env.hotelJoin).pc) < HandlerRank(h.pc)
  {
  }

  lemma {:induction false} HandlerRankDrops(s: Store, h: Handler, env: HandlerEnv)
    requires h.pc != Over
    ensures HandlerRank(NextHandler(s, h, At(env, h.pc), env.hotelJoin).pc) < HandlerRank(h.pc)
  {
    if h.pc.Save? || h.pc.CountConfirm? || h.pc.TouchConfirm? {
      JoiningRankDrops(s, h, env);
    } else if h.pc.AggFind? || h.pc.AggUpdate? || h.pc.AggCount? || h.pc.AggTouch? || h.pc.AggDequeue? {
      AggregatingRankDrops(s, h, env);
    } else if h.pc.AggClean? {
      CleaningRankDrops(s, h, env);
    }
  }

  function HandleAlone(s: Store, h: Handler, env: HandlerEnv): (Store, Handler)
    decreases HandlerRank(h.pc)
  {
    if h.pc == Over then (s, h) else
      HandlerRankDrops(s, h, env);
      HandleAlone(NextHandlerStore(s, h, At(env, h.pc)), NextHandler(s, h, At(env, h.pc), env.hotelJoin), env)
  }

  /** The handler, from (s', h') on, ends as it does from (s, h). */
  ghost predicate SameEnd(s: Store, h: Handler, s': Store, h': Handler, env: HandlerEnv) {
    HandleAlone(s, h, env) == HandleAlone(s', h', env)
  }

  lemma OneMore(s: Store, h: Handler, s': Store, h': Handler, env: HandlerEnv)
    requires SameEnd(s, h, s', h', env) && h'.pc != Over
    ensures SameEnd(s, h, NextHandlerStore(s', h', At(env, h'.pc)), NextHandler(s', h', At(env, h'.pc), env.hotelJoin),
                    env)
  {
  }

  /** The step counter, its expiry and the dequeue that come between the final update and cleanup. */
  lemma CountAndDequeue(s: Store, h: Handler, s1: Store, h1: Handler, env: HandlerEnv)
    requires SameEnd(s, h, s1, h1, env) && h1.pc == AggCount
    ensures var id := h1.requestId;
            SameEnd(s, h, s1.(coord := C.Dequeue(C.ExpireSteps(C.CountStep(s1.coord, id, COMPLETED), id), id)),
                    h1.(pc := AggClean(C.ALL_DELETIONS)), env)
  {
    OneMore(s, h, s1, h1, env);
    var s2, h2 := s1.(coord := C.CountStep(s1.coord, h1.requestId, COMPLETED)), h1.(pc := AggTouch);
    OneMore(s, h, s2, h2, env);
    OneMore(s, h, s2.(coord := C.ExpireSteps(s2.coord, h1.requestId)), h1.(pc := AggDequeue), env);
  }

  /** The error metadata and its expiry. */
  lemma RecordAndTouch(s: Store, h: Handler, s1: Store, h1: Handler, env: HandlerEnv)
    requires SameEnd(s, h, s1, h1, env) && h1.pc == AggPutMeta
    ensures var id, fields := h1.requestId, AggregationFields(s1.coord.now, h1.error);
            SameEnd(s, h, s1.(coord := C.ExpireMeta(C.SetMeta(s1.coord, id, fields), id, 7200)), h1.(pc := Fail), env)
  {
    OneMore(s, h, s1, h1, env);
    var s2 := s1.(coord := C.SetMeta(s1.coord, h1.requestId, AggregationFields(s1.coord.now, h1.error)));
    OneMore(s, h, s2, h1.(pc := AggTouchMeta), env);
  }

  lemma {:induction false} FirstOfRest(before: seq<C.Deletion>, rest: seq<C.Deletion>, todo: set<C.Deletion>)
    requires rest != [] && rest[0] in todo && forall d :: d in before ==> d !in todo
    ensures FirstOf(before + rest, todo) == rest[0]
    decreases |before|
  {
    if before == [] {
      assert before + rest == rest;
    } else {
      assert (before + rest)[1..] == before[1..] + rest;
      FirstOfRest(before[1..], rest, todo);
    }
  }

  /** cleanup's deletions, landing in the environment's order, are the AggClean steps. */
  lemma {:induction false} CleanContinues(s: Store, h: Handler, before: seq<C.Deletion>, rest: seq<C.Deletion>,
      env: HandlerEnv)
    requires h.pc == AggClean(set d | d in rest) && env.order == before + rest
    requires forall i, j :: 0 <= i < j < |env.order| ==> env.order[i] != env.order[j]
    ensures SameEnd(s, h, s.(coord := C.DeleteEach(s.coord, rest, h.requestId)), h.(pc := Confirm), env)
    decreases |rest|
  {
    if rest == [] {
      OneMore(s, h, s, h, env);
    } else {
      forall d | d in before ensures d !in (set x | x in rest) {
        var i :| 0 <= i < |before| && before[i] == d;
        assert env.order[i] == d;
        assert forall k :: 0 <= k < |rest| ==> env.order[|before| + k] == rest[k];
      }
      FirstOfRest(before, rest, set d | d in rest);
      OneMore(s, h, s, h, env);
      NextRest(env.order, before, rest);
      var s1, h1 := s.(coord := C.Delete(s.coord, rest[0], h.requestId)), h.(pc := AggClean(set d | d in rest[1..]));
      assert before + [rest[0]] + rest[1..] == env.order;
      CleanContinues(s1, h1, before + [rest[0]], rest[1..], env);
    }
  }

  lemma NextRest(order: seq<C.Deletion>, before: seq<C.Deletion>, rest: seq<C.Deletion>)
    requires rest != [] && order == before + rest && forall i, j :: 0 <= i < j < |order| ==> order[i] != order[j]
    ensures (set d | d in rest) - {rest[0]} == (set d | d in rest[1..])
  {
    assert rest == [rest[0]] + rest[1..];
    forall k | 1 <= k < |rest| ensures rest[k] != rest[0] {
      assert order[|before|] == rest[0] && order[|before| + k] == rest[k];
    }
  }
}
