/** `execute` running alone from start to end: its exit paths, and resubmission. */
module SoloRuns {
  import opened SagaTypes
  import opened SagaState
  import opened SagaProtocol
  import C = CoordinatorModel

  /** The reply each command would get; a run issues every command at most once. */
  type Env = Pc -> Reply

  function EventRank(event: Event): nat {
    match event case HotelRequested => 6 case FlightRequested => 3 case CarRequested => 0
  }

  function Rank(pc: Pc): nat {
    match pc
    case Find => 23
    case CheckActive => 22
    case Lock => 21
    case RateHit => 20
    case RateArm => 19
    case Create => 18
    case CacheActive => 17
    case Enqueue => 16
    case Emit(event) => 9 + EventRank(event)
    case Count(event) => 8 + EventRank(event)
    case Touch(event) => 7 + EventRank(event)
    case RecordError => 6
    case PutMeta => 5
    case TouchMeta => 4
    case Unlock => 2
    case Uncache => 1
    case Done => 0
  }

  predicate Early(pc: Pc) {
    pc.Find? || pc.CheckActive? || pc.Lock? || pc.RateHit? || pc.RateArm? || pc.Create?
  }

  lemma GuardRankDrops(s: Store, r: Run, reply: Reply)
    requires r.pc.Find? || r.pc.CheckActive? || r.pc.Lock?
    ensures Rank(NextRun(s, r, reply).pc) < Rank(r.pc)
  {
  }

  lemma {:induction false} EarlyRankDrops(s: Store, r: Run, reply: Reply)
    requires Early(r.pc)
    ensures Rank(NextRun(s, r, reply).pc) < Rank(r.pc)
  {
    if r.pc.Find? || r.pc.CheckActive? || r.pc.Lock? {
      GuardRankDrops(s, r, reply);
    }
  }

  lemma LaunchRankDrops(s: Store, r: Run, reply: Reply)
    requires r.pc.CacheActive? || r.pc.Enqueue? || r.pc.Emit? || r.pc.Count?
    ensures Rank(NextRun(s, r, reply).pc) < Rank(r.pc)
  {
  }

  lemma TouchRankDrops(s: Store, r: Run, reply: Reply)
    requires r.pc.Touch?
    ensures Rank(NextRun(s, r, reply).pc) < Rank(r.pc)
  {
    match r.pc.event case HotelRequested => case FlightRequested => case CarRequested =>
  }

  lemma LeaveRankDrops(s: Store, r: Run, reply: Reply)
    requires r.pc.RecordError? || r.pc.PutMeta? || r.pc.TouchMeta? || r.pc.Unlock? || r.pc.Uncache?
    ensures Rank(NextRun(s, r, reply).pc) < Rank(r.pc)
  {
  }

  lemma RestRankDrops(s: Store, r: Run, reply: Reply)
    requires !Early(r.pc) && r.pc != Done
    ensures Rank(NextRun(s, r, reply).pc) < Rank(r.pc)
  {
    if r.pc.Touch? {
      TouchRankDrops(s, r, reply);
    } else if r.pc.CacheActive? || r.pc.Enqueue? || r.pc.Emit? || r.pc.Count? {
      LaunchRankDrops(s, r, reply);
    } else {
      LeaveRankDrops(s, r, reply);
    }
  }

  lemma {:induction false} RankDrops(s: Store, r: Run, reply: Reply)
    requires r.pc != Done
    ensures Rank(NextRun(s, r, reply).pc) < Rank(r.pc)
  {
    if Early(r.pc) {
      EarlyRankDrops(s, r, reply);
    } else {
      RestRankDrops(s, r, reply);
    }
  }

  function RunAlone(s: Store, r: Run, env: Env): (Store, Run)
    decreases Rank(r.pc)
  {
    if r.pc == Done then (s, r) else
      var (s', r') := RunStep(s, r, env(r.pc));
      RankDrops(s, r, env(r.pc));
      RunAlone(s', r', env)
  }

  /** The run, from (s', r') on, ends as it does from (s, r). */
  ghost predicate SameRun(s: Store, r: Run, s': Store, r': Run, env: Env) {
    RunAlone(s, r, env) == RunAlone(s', r', env)
  }

  lemma OneCommand(s: Store, r: Run, s': Store, r': Run, env: Env)
    requires SameRun(s, r, s', r', env) && r'.pc != Done
    ensures SameRun(s, r, NextStore(s', r', env(r'.pc)), NextRun(s', r', env(r'.pc)), env)
  {
  }

  /** The active cache and the pending queue, one after the other. */
  lemma CacheAndEnqueue(s: Store, r: Run, s1: Store, r1: Run, env: Env)
    requires SameRun(s, r, s1, r1, env) && r1.pc == CacheActive
    ensures var cached := C.SetActive(s1.coord, r1.requestId, C.ActiveState(None, r1.userId, PENDING, r1.totalAmount),
                                      ACTIVE_TTL);
            SameRun(s, r, s1.(coord := C.Enqueue(cached, r1.requestId, None)),
                    r1.(pc := Emit(HotelRequested), queuedAt := Some(s1.coord.now)), env)
  {
    OneCommand(s, r, s1, r1, env);
    var cached := C.SetActive(s1.coord, r1.requestId, C.ActiveState(None, r1.userId, PENDING, r1.totalAmount),
                              ACTIVE_TTL);
    OneCommand(s, r, s1.(coord := cached), r1.(pc := Enqueue), env);
  }

  /** The error metadata and its expiry. */
  lemma PutAndTouch(s: Store, r: Run, env: Env)
    requires r.pc == PutMeta
    ensures var put := C.SetMeta(s.coord, r.requestId, ErrorFields(s.coord.now, Reason(r.error)));
            SameRun(s, r, s.(coord := C.ExpireMeta(put, r.requestId, 3600)),
                    Finally(r.(status := Some(FAILED), message := Some(Reason(r.error)))), env)
  {
    OneCommand(s, r, s, r, env);
    var put := C.SetMeta(s.coord, r.requestId, ErrorFields(s.coord.now, Reason(r.error)));
    OneCommand(s, r, s.(coord := put), r.(pc := TouchMeta), env);
  }

  // ---- What is known along the way ----

  function Events(id: string, n: nat): seq<(Event, string)>
    requires n <= 3
  {
    seq(n, i requires 0 <= i < 3 => (PUBLISH_ORDER[i], id))
  }

  predicate AllPublished(env: Env) {
    env(Emit(HotelRequested)) == Ok && env(Emit(FlightRequested)) == Ok && env(Emit(CarRequested)) == Ok
  }

  predicate PublishedBefore(env: Env, event: Event) {
    match event
    case HotelRequested => true
    case FlightRequested => env(Emit(HotelRequested)) == Ok
    case CarRequested => env(Emit(HotelRequested)) == Ok && env(Emit(FlightRequested)) == Ok
  }

  predicate Untouched(s0: Store, s: Store) {
    s.docs == s0.docs && s.published == s0.published && s.coord.pending == s0.coord.pending
  }

  /** The store after this run created its document and published `sent` events. */
  predicate Launched(s0: Store, s: Store, r: Run) {
    && r.requestId !in s0.docs && r.sent <= 3
    && s.docs == s0.docs[r.requestId := NewDoc(r.userId, r.totalAmount)]
    && s.published == s0.published + Events(r.requestId, r.sent)
  }

  /** The end of a run: what it reports and what it left. */
  predicate Settled(s0: Store, s: Store, r: Run, env: Env) {
    && (r.created && !r.threw && AllPublished(env) ==>
          r.status == Some(PENDING) && Launched(s0, s, r) && r.sent == 3)
    && (r.created && !r.threw && !AllPublished(env) ==>
          r.status == Some(FAILED) && r.requestId in s.docs && s.docs[r.requestId].status == FAILED)
    && (r.threw ==> env(RecordError) != Ok && !(r.created && AllPublished(env)))
    && (!r.created ==> s.published == s0.published && s.coord.pending == s0.coord.pending)
    && (r.requestId !in s0.docs && !r.created && env(Create) != Unacked ==> s.docs == s0.docs)
  }

  predicate Fact(s0: Store, s: Store, r: Run, env: Env) {
    && (!r.locked ==> s.coord.locks == s0.coord.locks)
    && match r.pc
       case Find => Untouched(s0, s) && !r.created && !r.locked && !r.threw
       case CheckActive => Untouched(s0, s) && !r.created && !r.locked && !r.threw && r.requestId !in s0.docs
       case Lock => Untouched(s0, s) && !r.created && !r.locked && !r.threw && r.requestId !in s0.docs
       case RateHit => Untouched(s0, s) && !r.created && !r.threw && r.requestId !in s0.docs
       case RateArm => Untouched(s0, s) && !r.created && !r.threw && r.requestId !in s0.docs
       case Create => Untouched(s0, s) && !r.created && !r.threw && r.requestId !in s0.docs
       case CacheActive => Launched(s0, s, r) && r.created && r.sent == 0 && !r.threw
       case Enqueue => Launched(s0, s, r) && r.created && r.sent == 0 && !r.threw
       case Emit(event) => Launched(s0, s, r) && r.created && r.sent == Index(event) && PublishedBefore(env, event)
       && !r.threw
       case Count(event) =>
         Launched(s0, s, r) && r.created && r.sent == Index(event) + 1 && PublishedBefore(env, event)
         && env(Emit(event)) == Ok && !r.threw
       case Touch(event) =>
         Launched(s0, s, r) && r.created && r.sent == Index(event) + 1 && PublishedBefore(env, event)
         && env(Emit(event)) == Ok && !r.threw
       case RecordError =>
         && !r.threw && (r.created ==> r.requestId in s.docs && !AllPublished(env))
         && (!r.created ==> s.published == s0.published && s.coord.pending == s0.coord.pending)
         && (r.requestId !in s0.docs && !r.created && env(Create) != Unacked ==> s.docs == s0.docs)
       case PutMeta => Failed(s0, s, r, env)
       case TouchMeta => Failed(s0, s, r, env)
       case Unlock => Settled(s0, s, r, env) && r.locked
       case Uncache => Settled(s0, s, r, env) && (r.locked ==> r.requestId !in s.coord.locks)
       case Done =>
         Settled(s0, s, r, env) && (r.locked ==> r.requestId !in s.coord.locks) && r.requestId !in s.coord.active
  }

  predicate Failed(s0: Store, s: Store, r: Run, env: Env) {
    && !r.threw
    && (r.created ==> !AllPublished(env) && r.requestId in s.docs && s.docs[r.requestId].status == FAILED)
    && (!r.created ==> s.published == s0.published && s.coord.pending == s0.coord.pending)
    && (r.requestId !in s0.docs && !r.created && env(Create) != Unacked ==> s.docs == s0.docs)
  }

  lemma EarlyFact(s0: Store, s: Store, r: Run, env: Env)
    requires Fact(s0, s, r, env) && Early(r.pc) && r.sent == 0
    ensures var (s', r') := RunStep(s, r, env(r.pc)); Fact(s0, s', r', env) && (Early(r'.pc) ==> r'.sent == 0)
  {
    assert Events(r.requestId, 0) == [];
    match r.pc
    case Create =>
    case Find =>
    case Lock =>
    case _ =>
  }

  lemma OneEventMore(id: string, event: Event)
    ensures Events(id, Index(event) + 1) == Events(id, Index(event)) + [(event, id)]
  {
    assert PUBLISH_ORDER[Index(event)] == event;
  }

  lemma EmitFact(s0: Store, s: Store, r: Run, env: Env)
    requires Fact(s0, s, r, env) && r.pc.Emit?
    ensures var (s', r') := RunStep(s, r, env(r.pc)); Fact(s0, s', r', env) && !Early(r'.pc)
  {
    OneEventMore(r.requestId, r.pc.event);
    match env(r.pc) case Ok => case Lost => case Unacked =>
  }

  lemma TouchFact(s0: Store, s: Store, r: Run, env: Env)
    requires Fact(s0, s, r, env) && r.pc.Touch?
    ensures var (s', r') := RunStep(s, r, env(r.pc)); Fact(s0, s', r', env) && !Early(r'.pc)
  {
    match r.pc.event case HotelRequested => case FlightRequested => case CarRequested =>
  }

  lemma LeaveFact(s0: Store, s: Store, r: Run, env: Env)
    requires Fact(s0, s, r, env) && (r.pc.RecordError? || r.pc.PutMeta? || r.pc.TouchMeta?)
    ensures var (s', r') := RunStep(s, r, env(r.pc)); Fact(s0, s', r', env) && !Early(r'.pc)
  {
    match r.pc
    case RecordError => match env(r.pc) { case Ok => case Lost => case Unacked => }
    case TouchMeta =>
    case PutMeta =>
  }

  lemma LaterFact(s0: Store, s: Store, r: Run, env: Env)
    requires Fact(s0, s, r, env) && !Early(r.pc) && !r.pc.Emit? && !r.pc.Touch? && r.pc != Done
    ensures var (s', r') := RunStep(s, r, env(r.pc)); Fact(s0, s', r', env) && !Early(r'.pc)
  {
    if r.pc.RecordError? || r.pc.PutMeta? || r.pc.TouchMeta? {
      LeaveFact(s0, s, r, env);
    }
  }

  lemma {:induction false} NextFact(s0: Store, s: Store, r: Run, env: Env)
    requires Fact(s0, s, r, env) && (Early(r.pc) ==> r.sent == 0) && r.pc != Done
    ensures var (s', r') := RunStep(s, r, env(r.pc)); Fact(s0, s', r', env) && (Early(r'.pc) ==> r'.sent == 0)
  {
    if Early(r.pc) {
      EarlyFact(s0, s, r, env);
    } else if r.pc.Emit? {
      EmitFact(s0, s, r, env);
    } else if r.pc.Touch? {
      TouchFact(s0, s, r, env);
    } else {
      LaterFact(s0, s, r, env);
    }
  }

  lemma {:induction false} AlongTheWay(s0: Store, s: Store, r: Run, env: Env, s': Store, r': Run)
    requires (s', r') == RunAlone(s, r, env)
    requires Fact(s0, s, r, env) && (Early(r.pc) ==> r.sent == 0)
    ensures r'.pc == Done && Fact(s0, s', r', env)
    ensures r'.requestId == r.requestId && r'.userId == r.userId && r'.totalAmount == r.totalAmount
    decreases Rank(r.pc)
  {
    if r.pc != Done {
      var (s1, r1) := RunStep(s, r, env(r.pc));
      RankDrops(s, r, env(r.pc));
      NextFact(s0, s, r, env);
      AlongTheWay(s0, s1, r1, env, s', r');
    }
  }

  // ---- Theorems ----

  /** Every way out of execute: the lock this run took is released (one it did not take is left alone), nothing is
      cached as active, and a run that created its document answers PENDING with all three events published if and
      only if all three publications were acknowledged; otherwise it answers FAILED with the document FAILED, unless
      recording the error itself failed and it throws. A run that created nothing publishes and enqueues nothing. */
  lemma ExitPaths(s: Store, requestId: string, userId: string, totalAmount: real, env: Env)
    ensures var (s', r') := RunAlone(s, NewRun(requestId, userId, totalAmount), env);
            && (if r'.locked then requestId !in s'.coord.locks else s'.coord.locks == s.coord.locks)
            && requestId !in s'.coord.active
            && (r'.created && !r'.threw ==>
                  if AllPublished(env)
                  then r'.status == Some(PENDING) && requestId !in s.docs
                       && s'.published == s.published + Events(requestId, 3) &&
                       s'.docs == s.docs[requestId := NewDoc(userId, totalAmount)]
                  else r'.status == Some(FAILED) && requestId in s'.docs && s'.docs[requestId].status == FAILED)
            && (r'.threw ==> env(RecordError) != Ok)
            && (!r'.created ==> s'.published == s.published && s'.coord.pending == s.coord.pending)
            && (requestId !in s.docs && !r'.created && env(Create) != Unacked ==> s'.docs == s.docs)
  {
    var r := NewRun(requestId, userId, totalAmount);
    var (s', r') := RunAlone(s, r, env);
    AlongTheWay(s, s, r, env, s', r');
  }

  /** A resubmitted request answers the stored status and number and changes nothing at all. */
  lemma ResubmitOnce(s: Store, requestId: string, userId: string, totalAmount: real, env: Env)
    requires requestId in s.docs && requestId !in s.coord.active && env(Find) == Ok
    ensures var (s', r') := RunAlone(s, NewRun(requestId, userId, totalAmount), env);
            && s' == s
            && r'.status == Some(s.docs[requestId].status) && r'.bookingId == s.docs[requestId].bookingId
            && r'.message == s.docs[requestId].errorMessage && !r'.threw
  {
    var r := NewRun(requestId, userId, totalAmount);
    var (s1, r1) := RunStep(s, r, Ok);
    assert s1 == s && r1.pc == Uncache;
    var (s2, r2) := RunStep(s1, r1, env(Uncache));
    assert s.coord.active - {requestId} == s.coord.active;
    assert s2 == s && r2.pc == Done;
    assert RunAlone(s1, r1, env) == RunAlone(s2, r2, env);
  }

  /** One later call with the same requestId; user and amount may differ. */
  datatype Call = Call(userId: string, totalAmount: real, env: Env)

  function ResubmitAll(s: Store, requestId: string, calls: seq<Call>): Store {
    if calls == [] then s else
      var last := calls[|calls| - 1];
      RunAlone(ResubmitAll(s, requestId, calls[..|calls| - 1]), NewRun(requestId, last.userId, last.totalAmount),
               last.env).0
  }

  /** Once a run has returned and its document exists, any number of serial resubmissions leave documents, Redis (the
      rate counter included) and published events exactly as they were. */
  lemma {:induction false} ResubmissionIsNoOp(s0: Store, requestId: string, userId: string, totalAmount: real, env: Env,
      calls: seq<Call>)
    requires requestId in RunAlone(s0, NewRun(requestId, userId, totalAmount), env).0.docs
    requires forall k :: 0 <= k < |calls| ==> calls[k].env(Find) == Ok
    ensures var s := RunAlone(s0, NewRun(requestId, userId, totalAmount), env).0; ResubmitAll(s, requestId, calls) == s
  {
    var s := RunAlone(s0, NewRun(requestId, userId, totalAmount), env).0;
    if calls != [] {
      var last := calls[|calls| - 1];
      ResubmissionIsNoOp(s0, requestId, userId, totalAmount, env, calls[..|calls| - 1]);
      ExitPaths(s0, requestId, userId, totalAmount, env);
      ResubmitOnce(s, requestId, last.userId, last.totalAmount, last.env);
    }
  }

  /** A caller over its limit leaves no document, no queue entry and no event, and is told so (unless recording the
      error fails and the call throws). */
  lemma RateLimitedLeavesNothing(s: Store, requestId: string, userId: string, totalAmount: real, env: Env)
    requires env(Find) == Ok && requestId !in s.docs && requestId !in s.coord.active && requestId !in s.coord.locks
    requires C.Hit(s.coord, userId).1 > MAX_PER_MINUTE
    ensures var (s', r') := RunAlone(s, NewRun(requestId, userId, totalAmount), env);
            && s'.docs == s.docs && s'.published == s.published && s'.coord.pending == s.coord.pending
            && (env(RecordError) == Ok ==> r'.status == Some(FAILED) && r'.message == Some(RateExceeded(userId)))
            && (env(RecordError) != Ok ==> r'.threw)
  {
    var r0 := NewRun(requestId, userId, totalAmount);
    var (s1, r1) := RunStep(s, r0, env(Find));
    assert s1 == s && r1 == r0.(pc := CheckActive);
    var (s2, r2) := RunStep(s1, r1, env(CheckActive));
    assert s2 == s && r2 == r0.(pc := Lock);
    var (s3, r3) := RunStep(s2, r2, env(Lock));
    assert r3 == r0.(pc := RateHit, locked := true) && Untouched(s, s3) && s3.coord.rate == s.coord.rate;
    var (s4, r4) := RunStep(s3, r3, env(RateHit));
    assert r4 == Throw(r3, RateExceeded(userId)) && Untouched(s, s4);
    assert RunAlone(s, r0, env) == RunAlone(s4, r4, env) by {
      assert RunAlone(s, r0, env) == RunAlone(s1, r1, env);
      assert RunAlone(s1, r1, env) == RunAlone(s2, r2, env);
      assert RunAlone(s2, r2, env) == RunAlone(s3, r3, env);
    }
    ErrorPath(s4, r4, env);
  }

  /** From the catch block on, for a request without a document. */
  lemma ErrorPath(s: Store, r: Run, env: Env)
    requires r.pc == RecordError && r.locked && !r.threw && r.requestId !in s.docs
    ensures var (s', r') := RunAlone(s, r, env);
            && Untouched(s, s')
            && (env(RecordError) == Ok ==> r'.status == Some(FAILED) && r'.message == Some(Reason(r.error)))
            && (env(RecordError) != Ok ==> r'.threw)
  {
    var s1, r1 := NextStore(s, r, env(RecordError)), NextRun(s, r, env(RecordError));
    assert s1 == s;
    if env(RecordError) == Ok {
      MetadataPath(s1, r1, env);
    } else {
      FinallyPath(s1, r1, env);
    }
  }

  lemma MetadataPath(s: Store, r: Run, env: Env)
    requires r.pc == PutMeta && r.locked
    ensures var (s', r') := RunAlone(s, r, env);
            Untouched(s, s') && r'.status == Some(FAILED) && r'.message == Some(Reason(r.error))
  {
    var s2, r2 := NextStore(s, r, env(PutMeta)), NextRun(s, r, env(PutMeta));
    var s3, r3 := NextStore(s2, r2, env(TouchMeta)), NextRun(s2, r2, env(TouchMeta));
    assert RunAlone(s, r, env) == RunAlone(s2, r2, env);
    assert RunAlone(s2, r2, env) == RunAlone(s3, r3, env);
    FinallyPath(s3, r3, env);
  }

  lemma FinallyPath(s: Store, r: Run, env: Env)
    requires r.pc == Unlock
    ensures var (s', r') := RunAlone(s, r, env);
            Untouched(s, s') && r'.status == r.status && r'.message == r.message && r'.threw == r.threw
  {
    var (s1, r1) := RunStep(s, r, env(Unlock));
    assert RunAlone(s, r, env) == RunAlone(s1, r1, env);
    var (s2, r2) := RunStep(s1, r1, env(Uncache));
    assert RunAlone(s1, r1, env) == RunAlone(s2, r2, env);
  }
}
