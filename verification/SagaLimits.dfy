/** What the protocol does not guarantee about runs: where a lock that anyone may delete, a check made before the lock,
    and a catch block that does not ask whose document it marks show, each by a run from the initial world. When a
    launched booking can be marked FAILED at all is settled in SagaFailures. */
module SagaLimits {
  import opened SagaTypes
  import opened SagaState
  import opened SagaDocuments
  import opened SagaProtocol
  import opened SoloRuns
  import C = CoordinatorModel

  // ---- A run that goes on alone is one of the interleavings ----

  function Alone(i: nat, r: Run, s: Store, env: Env): seq<Action>
    decreases Rank(r.pc)
  {
    if r.pc == Done then [] else
      var (s', r') := RunStep(s, r, env(r.pc));
      RankDrops(s, r, env(r.pc));
      [Advance(i, env(r.pc))] + Alone(i, r', s', env)
  }

  /** Whatever happened before, letting one run go on to its end by itself is a trace, and ends as RunAlone says. */
  lemma {:induction false} AloneIsATrace(now: nat, trace: seq<Action>, hotelJoin: seq<string>, i: nat, env: Env,
      w: World, s': Store, r': Run)
    requires w == Exec(now, trace, hotelJoin) && i in w.runs
    requires (s', r') == RunAlone(w.store, w.runs[i], env)
    ensures Exec(now, trace + Alone(i, w.runs[i], w.store, env), hotelJoin) == w.(store := s', runs := w.runs[i := r'])
    decreases Rank(w.runs[i].pc)
  {
    if w.runs[i].pc == Done {
      assert trace + [] == trace;
      assert w.runs[i := r'] == w.runs;
    } else {
      var w1 := FirstAlone(now, trace, hotelJoin, i, env, w);
      var action := Advance(i, env(w.runs[i].pc));
      var rest := Alone(i, w1.runs[i], w1.store, env);
      AloneIsATrace(now, trace + [action], hotelJoin, i, env, w1, s', r');
      Regroup(trace, action, rest);
      assert w1.(store := s', runs := w1.runs[i := r']) == w.(store := s', runs := w.runs[i := r']);
    }
  }

  lemma Regroup(trace: seq<Action>, action: Action, rest: seq<Action>)
    ensures trace + ([action] + rest) == trace + [action] + rest
  {
  }

  lemma {:induction false} FirstAlone(now: nat, trace: seq<Action>, hotelJoin: seq<string>, i: nat, env: Env, w: World)
      returns (w1: World)
    requires w == Exec(now, trace, hotelJoin) && i in w.runs && w.runs[i].pc != Done
    ensures i in w1.runs && w1 == w.(store := w1.store, runs := w.runs[i := w1.runs[i]])
    ensures w1 == Exec(now, trace + [Advance(i, env(w.runs[i].pc))], hotelJoin)
    ensures Rank(w1.runs[i].pc) < Rank(w.runs[i].pc)
    ensures RunAlone(w.store, w.runs[i], env) == RunAlone(w1.store, w1.runs[i], env)
    ensures Alone(i, w.runs[i], w.store, env) == [Advance(i, env(w.runs[i].pc))] + Alone(i, w1.runs[i], w1.store, env)
  {
    var (s, r) := RunStep(w.store, w.runs[i], env(w.runs[i].pc));
    RankDrops(w.store, w.runs[i], env(w.runs[i].pc));
    OneAdvance(now, trace, hotelJoin, i, env(w.runs[i].pc), w);
    w1 := w.(store := s, runs := w.runs[i := r]);
  }

  lemma OneAdvance(now: nat, trace: seq<Action>, hotelJoin: seq<string>, i: nat, reply: Reply, w: World)
    requires w == Exec(now, trace, hotelJoin) && i in w.runs
    ensures var (s, r) := RunStep(w.store, w.runs[i], reply);
            Exec(now, trace + [Advance(i, reply)], hotelJoin) == w.(store := s, runs := w.runs[i := r])
  {
    Extend(now, trace, Advance(i, reply), hotelJoin);
  }

  lemma Extend(now: nat, trace: seq<Action>, action: Action, hotelJoin: seq<string>)
    ensures Exec(now, trace + [action], hotelJoin) == StepWorld(Exec(now, trace, hotelJoin), action, hotelJoin)
  {
    assert (trace + [action])[..|trace|] == trace;
  }

  /** An action of a trace that submits at most n runs, with every command of a run acknowledged, and in a quiet one
      without any confirmations. */
  predicate Within(action: Action, n: nat, acked: bool, quiet: bool) {
    match action
    case Start(i, _, _, _) => i < n
    case Advance(_, reply) => acked ==> reply == Ok
    case Elapse(_) => true
    case _ => !quiet
  }

  predicate AllWithin(trace: seq<Action>, n: nat, acked: bool, quiet: bool) {
    forall k :: 0 <= k < |trace| ==> Within(trace[k], n, acked, quiet)
  }

  lemma {:induction false} AloneIsWithin(i: nat, r: Run, s: Store, env: Env, n: nat, acked: bool)
    requires acked ==> forall pc :: env(pc) == Ok
    ensures AllWithin(Alone(i, r, s, env), n, acked, true)
    decreases Rank(r.pc)
  {
    if r.pc != Done {
      RankDrops(s, r, env(r.pc));
      AloneIsWithin(i, NextRun(s, r, env(r.pc)), NextStore(s, r, env(r.pc)), env, n, acked);
    }
  }

  // ---- A run that checked too early ----

  /** A run past its two checks, at the lock, when the document already exists. If it gets the lock, it marks the
      document FAILED with the reason it answers (a duplicate, or the rate limit, or the driver's error); if not, it
      leaves the documents alone. */
  lemma {:induction false} LateRunFailsTheSaga(s: Store, r: Run, env: Env)
    requires r.pc == Lock && !r.locked && !r.threw && r.requestId in s.docs && env(RecordError) == Ok
    ensures var (s', r') := RunAlone(s, r, env);
            && s'.published == s.published
            && r'.status == Some(FAILED)
            && (r.requestId in s.coord.locks ==> s'.docs == s.docs && r'.message == Some(LockHeld(r.requestId)))
            && (r.requestId !in s.coord.locks ==>
                  && r'.message == Some(if r.userId in s.coord.rate && s.coord.rate[r.userId].value >= 5
                                        then RateExceeded(r.userId)
                                        else if env(Create) == Lost then DriverError else DuplicateKey)
                  && s'.docs == s.docs[r.requestId := s.docs[r.requestId].(status := FAILED,
                                                                           errorMessage := r'.message)])
  {
    var (s1, r1) := RunStep(s, r, env(Lock));
    assert RunAlone(s, r, env) == RunAlone(s1, r1, env);
    if r.requestId in s.coord.locks {
      LeaveAlone(s1, r1, env);
    } else {
      LimitThenCreate(s1, r1, env);
    }
  }

  lemma {:induction false} LimitThenCreate(s: Store, r: Run, env: Env)
    requires r.pc == RateHit && !r.threw && r.locked && r.requestId in s.docs && env(RecordError) == Ok
    ensures var (s', r') := RunAlone(s, r, env);
            && s'.published == s.published && r'.status == Some(FAILED)
            && r'.message == Some(if r.userId in s.coord.rate && s.coord.rate[r.userId].value >= 5
                                  then RateExceeded(r.userId)
                                  else if env(Create) == Lost then DriverError else DuplicateKey)
            && s'.docs == SetError(s.docs, r.requestId, r'.message.value)
  {
    var (s2, r2) := RunStep(s, r, env(RateHit));
    assert RunAlone(s, r, env) == RunAlone(s2, r2, env);
    if r2.pc == RateArm {
      var (s3, r3) := RunStep(s2, r2, env(RateArm));
      assert RunAlone(s2, r2, env) == RunAlone(s3, r3, env);
      CreateThrows(s3, r3, env);
    } else if r2.pc == Create {
      CreateThrows(s2, r2, env);
    } else {
      CatchFails(s2, r2, env);
    }
  }

  lemma CreateThrows(s: Store, r: Run, env: Env)
    requires r.pc == Create && !r.threw && r.locked && r.requestId in s.docs && env(RecordError) == Ok
    ensures var (s', r') := RunAlone(s, r, env);
            && s'.published == s.published && r'.status == Some(FAILED)
            && r'.message == Some(if env(Create) == Lost then DriverError else DuplicateKey)
            && s'.docs == SetError(s.docs, r.requestId, r'.message.value)
  {
    var (s1, r1) := RunStep(s, r, env(Create));
    assert s1 == s && r1.pc == RecordError;
    assert RunAlone(s, r, env) == RunAlone(s1, r1, env);
    CatchFails(s1, r1, env);
  }

  lemma {:induction false} CatchFails(s: Store, r: Run, env: Env)
    requires r.pc == RecordError && r.locked && r.requestId in s.docs && env(RecordError) == Ok
    ensures var (s', r') := RunAlone(s, r, env);
            && s'.published == s.published && r'.status == Some(FAILED)
            && r'.message == Some(Reason(r.error)) && s'.docs == SetError(s.docs, r.requestId, r'.message.value)
  {
    var (s1, r1) := RunStep(s, r, env(RecordError));
    assert RunAlone(s, r, env) == RunAlone(s1, r1, env);
    MetadataPath(s1, r1, env);
    assert s1.docs == SetError(s.docs, r.requestId, Reason(r.error));
  }

  lemma LeaveAlone(s: Store, r: Run, env: Env)
    requires r.pc == Uncache
    ensures var (s', r') := RunAlone(s, r, env);
            s'.docs == s.docs && s'.published == s.published && r'.status == r.status && r'.message == r.message
  {
    var (s1, r1) := RunStep(s, r, env(Uncache));
    assert RunAlone(s, r, env) == RunAlone(s1, r1, env);
  }

  const ALWAYS_OK: Env := pc => Ok

  /** Two runs of one request, both past their checks before either takes the lock. */
  lemma TwoPastTheChecks(now: nat, requestId: string, userId: string, totalAmount: real, hotelJoin: seq<string>)
      returns (trace: seq<Action>)
    ensures var r := NewRun(requestId, userId, totalAmount).(pc := Lock);
            Exec(now, trace, hotelJoin) == Initial(now).(runs := map[0 := r, 1 := r])
    ensures AllWithin(trace, 2, true, true)
  {
    var fresh0 := NewRun(requestId, userId, totalAmount);
    var start := Initial(now);
    var s0, s1 := Start(0, requestId, userId, totalAmount), Start(1, requestId, userId, totalAmount);
    trace := [];
    Extend(now, trace, s0, hotelJoin);
    trace := trace + [s0];
    Extend(now, trace, s1, hotelJoin);
    trace := trace + [s1];
    var w := Exec(now, trace, hotelJoin);
    assert w == start.(runs := map[0 := fresh0, 1 := fresh0]);
    trace := OnePasses(now, trace, hotelJoin, w, 0);
    w := Exec(now, trace, hotelJoin);
    trace := OnePasses(now, trace, hotelJoin, w, 1);
    assert Exec(now, trace, hotelJoin).runs == map[0 := fresh0.(pc := Lock), 1 := fresh0.(pc := Lock)];
  }

  lemma OnePasses(now: nat, before: seq<Action>, hotelJoin: seq<string>, w: World, i: nat) returns (trace: seq<Action>)
    requires w == Exec(now, before, hotelJoin) && i in w.runs && w.runs[i].pc == Find
    requires w.runs[i].requestId !in w.store.docs && w.runs[i].requestId !in w.store.coord.active
    ensures Exec(now, trace, hotelJoin) == w.(runs := w.runs[i := w.runs[i].(pc := Lock)])
    ensures trace == before + [Advance(i, Ok)] + [Advance(i, Ok)]
  {
    var r := w.runs[i];
    Extend(now, before, Advance(i, Ok), hotelJoin);
    Extend(now, before + [Advance(i, Ok)], Advance(i, Ok), hotelJoin);
    trace := before + [Advance(i, Ok)] + [Advance(i, Ok)];
    assert w.runs[i := r.(pc := CheckActive)][i := r.(pc := Lock)] == w.runs[i := r.(pc := Lock)];
  }

  /** With nothing in the stores, run 0 goes on from the lock to its end, every command acknowledged. */
  lemma LaunchesFromLock(now: nat, before: seq<Action>, requestId: string, userId: string, totalAmount: real,
      hotelJoin: seq<string>, w: World)
    returns (trace: seq<Action>)
    requires w == Exec(now, before, hotelJoin) && w == Initial(now).(runs := w.runs)
    requires 0 in w.runs && w.runs[0] == NewRun(requestId, userId, totalAmount).(pc := Lock)
    ensures var w' := Exec(now, trace, hotelJoin);
            && Launching(w', requestId, userId, totalAmount) && w'.runs == w.runs[0 := w'.runs[0]]
            && requestId !in w'.store.coord.locks
    ensures forall n: nat :: AllWithin(before, n, true, true) ==> AllWithin(trace, n, true, true)
  {
    var (s', r') := RunAlone(w.store, w.runs[0], ALWAYS_OK);
    AloneIsATrace(now, before, hotelJoin, 0, ALWAYS_OK, w, s', r');
    FirstLaunches(w.store, w.runs[0], ALWAYS_OK);
    RunsTellNobody(w.store, w.runs[0], ALWAYS_OK);
    trace := before + Alone(0, w.runs[0], w.store, ALWAYS_OK);
    forall n: nat | AllWithin(before, n, true, true) ensures AllWithin(trace, n, true, true) {
      AloneIsWithin(0, w.runs[0], w.store, ALWAYS_OK, n, true);
    }
  }

  /** One call, past its checks. */
  lemma OnePastTheChecks(now: nat, requestId: string, userId: string, totalAmount: real, hotelJoin: seq<string>)
    returns (trace: seq<Action>)
    ensures Exec(now, trace, hotelJoin) ==
            Initial(now).(runs := map[0 := NewRun(requestId, userId, totalAmount).(pc := Lock)])
    ensures AllWithin(trace, 1, true, true)
  {
    var s := Start(0, requestId, userId, totalAmount);
    Extend(now, [], s, hotelJoin);
    var w := Exec(now, [] + [s], hotelJoin);
    assert w == Initial(now).(runs := map[0 := NewRun(requestId, userId, totalAmount)]);
    trace := OnePasses(now, [] + [s], hotelJoin, w, 0);
    assert Exec(now, trace, hotelJoin).runs == map[0 := NewRun(requestId, userId, totalAmount).(pc := Lock)];
  }

  /** One call, from its start to its end. */
  lemma LaunchedAlone(now: nat, requestId: string, userId: string, totalAmount: real, hotelJoin: seq<string>)
    returns (trace: seq<Action>)
    ensures Launching(Exec(now, trace, hotelJoin), requestId, userId, totalAmount)
    ensures AllWithin(trace, 1, true, true)
  {
    var before := OnePastTheChecks(now, requestId, userId, totalAmount, hotelJoin);
    trace := LaunchesFromLock(now, before, requestId, userId, totalAmount, hotelJoin, Exec(now, before, hotelJoin));
  }

  /** A first call runs from its checks to its end while a second one waits at the lock. */
  lemma LaunchedWhileOneWaits(now: nat, requestId: string, userId: string, totalAmount: real, hotelJoin: seq<string>)
    returns (trace: seq<Action>)
    ensures var w := Exec(now, trace, hotelJoin);
            && Launching(w, requestId, userId, totalAmount)
            && w.runs.Keys == {0, 1} && w.runs[1] == NewRun(requestId, userId, totalAmount).(pc := Lock)
            && requestId !in w.store.coord.locks
    ensures AllWithin(trace, 2, true, true)
  {
    var before := TwoPastTheChecks(now, requestId, userId, totalAmount, hotelJoin);
    trace := LaunchesFromLock(now, before, requestId, userId, totalAmount, hotelJoin, Exec(now, before, hotelJoin));
  }

  lemma {:induction false} RunsTellNobody(s: Store, r: Run, env: Env)
    ensures RunAlone(s, r, env).0.notes == s.notes
    decreases Rank(r.pc)
  {
    if r.pc != Done {
      RankDrops(s, r, env(r.pc));
      OneCommandTellsNobody(s, r, env(r.pc));
      RunsTellNobody(NextStore(s, r, env(r.pc)), NextRun(s, r, env(r.pc)), env);
    }
  }

  lemma OneCommandTellsNobody(s: Store, r: Run, reply: Reply)
    ensures NextStore(s, r, reply).notes == s.notes
  {
  }

  /** Run 0 has launched the request, and nothing was confirmed yet. */
  predicate Launching(w: World, requestId: string, userId: string, totalAmount: real) {
    && 0 in w.runs && w.runs[0].status == Some(PENDING) && w.runs[0].created && w.runs[0].pc == Done
    && w.store.docs == map[requestId := NewDoc(userId, totalAmount)] && w.store.published == Events(requestId, 3)
    && w.handlers == map[] && w.saves == [] && w.issued == {} && w.store.notes == []
  }

  /** Run 0 launched the request and answered PENDING, its three events are published, and its document is FAILED. */
  predicate LiveButFailed(w: World, requestId: string) {
    && 0 in w.runs && w.runs[0].status == Some(PENDING) && w.runs[0].created && w.runs[0].pc == Done
    && requestId in w.store.docs && w.store.docs[requestId].status == FAILED
    && w.store.published == Events(requestId, 3)
  }

  /** A double submission: the first call launches the booking and answers PENDING; the second, whose existence check
      came too early, then marks that same live booking FAILED and answers FAILED. All three events stay published. */
  lemma DoubleSubmissionFailsALiveSaga(now: nat, requestId: string, userId: string, totalAmount: real,
      hotelJoin: seq<string>)
    ensures exists trace :: LiveButFailed(Exec(now, trace, hotelJoin), requestId)
  {
    var before := LaunchedWhileOneWaits(now, requestId, userId, totalAmount, hotelJoin);
    var trace := SecondFails(now, before, hotelJoin, 1);
    assert LiveButFailed(Exec(now, trace, hotelJoin), requestId);
  }

  lemma {:induction false} SecondFails(now: nat, before: seq<Action>, hotelJoin: seq<string>, i: nat)
      returns (trace: seq<Action>)
    requires var w := Exec(now, before, hotelJoin);
             && i in w.runs && w.runs[i].pc == Lock && !w.runs[i].locked && !w.runs[i].threw
             && w.runs[i].requestId in w.store.docs && w.runs[i].requestId !in w.store.coord.locks
    ensures var w, w' := Exec(now, before, hotelJoin), Exec(now, trace, hotelJoin);
            && (forall j :: j in w.runs && j != i ==> j in w'.runs && w'.runs[j] == w.runs[j])
            && w'.store.published == w.store.published
            && w.runs[i].requestId in w'.store.docs && w'.store.docs[w.runs[i].requestId].status == FAILED
  {
    var w := Exec(now, before, hotelJoin);
    var (s', r') := RunAlone(w.store, w.runs[i], ALWAYS_OK);
    AloneIsATrace(now, before, hotelJoin, i, ALWAYS_OK, w, s', r');
    LateRunFailsTheSaga(w.store, w.runs[i], ALWAYS_OK);
    trace := before + Alone(i, w.runs[i], w.store, ALWAYS_OK);
  }

  /** From the lock on, with every command acknowledged and an empty store. */
  lemma FirstLaunches(s: Store, r: Run, env: Env)
    requires r == NewRun(r.requestId, r.userId, r.totalAmount).(pc := Lock) && env == ALWAYS_OK
    requires s.docs == map[] && s.published == [] && r.requestId !in s.coord.locks && r.userId !in s.coord.rate
    ensures var (s', r') := RunAlone(s, r, env);
            && r'.pc == Done && r'.status == Some(PENDING) && r'.created
            && s'.docs == map[r.requestId := NewDoc(r.userId, r.totalAmount)]
            && s'.published == Events(r.requestId, 3) && r.requestId !in s'.coord.locks
  {
    var s1 := FirstReachesCreate(s, r, env);
    FirstCreates(s1, r.(pc := Create, locked := true), env);
  }

  lemma FirstReachesCreate(s: Store, r: Run, env: Env) returns (s': Store)
    requires r == NewRun(r.requestId, r.userId, r.totalAmount).(pc := Lock)
    requires s.docs == map[] && s.published == [] && r.requestId !in s.coord.locks && r.userId !in s.coord.rate
    ensures SameRun(s, r, s', r.(pc := Create, locked := true), env) && s'.docs == map[] && s'.published == []
  {
    var (s1, r1) := RunStep(s, r, env(Lock));
    assert RunAlone(s, r, env) == RunAlone(s1, r1, env);
    assert r1 == r.(pc := RateHit, locked := true);
    var (s2, r2) := RunStep(s1, r1, env(RateHit));
    assert RunAlone(s1, r1, env) == RunAlone(s2, r2, env);
    assert r2 == r1.(pc := RateArm);
    var (s3, r3) := RunStep(s2, r2, env(RateArm));
    assert RunAlone(s2, r2, env) == RunAlone(s3, r3, env);
    s' := s3;
  }

  lemma FirstCreates(s: Store, r: Run, env: Env)
    requires r.pc == Create && r.locked && r.sent == 0 && !r.threw && env == ALWAYS_OK && s.docs == map[]
             && s.published == []
    ensures var (s', r') := RunAlone(s, r, env);
            && r'.pc == Done && r'.status == Some(PENDING) && r'.created
            && s'.docs == map[r.requestId := NewDoc(r.userId, r.totalAmount)]
            && s'.published == Events(r.requestId, 3) && r.requestId !in s'.coord.locks
  {
    var (s4, r4) := RunStep(s, r, Ok);
    assert RunAlone(s, r, env) == RunAlone(s4, r4, env);
    assert r4 == r.(pc := CacheActive, created := true);
    var (s', r') := RunAlone(s4, r4, env);
    assert Events(r.requestId, 0) == [];
    AlongTheWay(s, s4, r4, env, s', r');
    StaysCreated(s4, r4, env);
    assert s.published + Events(r.requestId, 3) == Events(r.requestId, 3);
  }

  lemma {:induction false} StaysCreated(s: Store, r: Run, env: Env)
    requires r.created && r.locked && !Early(r.pc) && env == ALWAYS_OK && r.pc != RecordError && !r.threw
    ensures var r' := RunAlone(s, r, env).1; r'.created && r'.locked && !r'.threw
    decreases Rank(r.pc)
  {
    if r.pc != Done {
      RankDrops(s, r, Ok);
      StillCreated(s, r);
      StaysCreated(NextStore(s, r, Ok), NextRun(s, r, Ok), env);
    }
  }

  lemma StillCreated(s: Store, r: Run)
    requires r.created && r.locked && !Early(r.pc) && r.pc != RecordError && !r.threw
    ensures var n := NextRun(s, r, Ok); n.created && n.locked && !Early(n.pc) && n.pc != RecordError && !n.threw
  {
    if r.pc.Touch? {
      match r.pc.event case HotelRequested => case FlightRequested => case CarRequested =>
    }
  }

  // ---- The lock ----

  /** The lock does not exclude: a run that holds it too long shares the critical section with a second one, which is
      why the guarantees above rest on the unique requestId and not on the lock. */
  lemma LockIsNotExclusive(now: nat, requestId: string, userId: string, totalAmount: real, hotelJoin: seq<string>)
    ensures exists trace :: var w := Exec(now, trace, hotelJoin);
              && 0 in w.runs && 1 in w.runs && w.runs[0].requestId == requestId && w.runs[1].requestId == requestId
              && w.runs[0].locked && w.runs[1].locked && w.runs[0].pc == RateHit && w.runs[1].pc == RateHit
  {
    var t := TwoPastTheChecks(now, requestId, userId, totalAmount, hotelJoin);
    var a, b, c := Advance(0, Ok), Elapse(LOCK_TTL * 1000), Advance(1, Ok);
    Extend(now, t, a, hotelJoin);
    Extend(now, t + [a], b, hotelJoin);
    Extend(now, t + [a] + [b], c, hotelJoin);
    var w1 := Exec(now, t + [a], hotelJoin);
    assert w1.store.coord.locks == map[requestId := C.Timed(now, Some(now + 300_000))];
    var w2 := Exec(now, t + [a] + [b], hotelJoin);
    assert requestId !in w2.store.coord.locks;
    var w3 := Exec(now, t + [a] + [b] + [c], hotelJoin);
    assert w3.runs[0].locked && w3.runs[1].locked;
  }

  /** The lock expired under its holder: a second call launches the booking, and the first, still on its way, then finds
      the document at its own create and marks the live booking FAILED. */
  lemma ExpiredLockFailsALiveSaga(now: nat, requestId: string, userId: string, totalAmount: real,
      hotelJoin: seq<string>)
    ensures exists trace :: var w := Exec(now, trace, hotelJoin);
              && 1 in w.runs && w.runs[1].status == Some(PENDING) && w.runs[1].created && w.runs[1].pc == Done
              && 0 in w.runs && w.runs[0].locked && !w.runs[0].created
              && requestId in w.store.docs && w.store.docs[requestId].status == FAILED
              && w.store.published == Events(requestId, 3)
  {
    var before := HeldTooLong(now, requestId, userId, totalAmount, hotelJoin);
    var w := Exec(now, before, hotelJoin);
    var (s1, r1) := RunAlone(w.store, w.runs[1], ALWAYS_OK);
    AloneIsATrace(now, before, hotelJoin, 1, ALWAYS_OK, w, s1, r1);
    FirstLaunches(w.store, w.runs[1], ALWAYS_OK);
    var middle := before + Alone(1, w.runs[1], w.store, ALWAYS_OK);
    var trace := HolderFails(now, middle, hotelJoin, 0);
    assert Exec(now, trace, hotelJoin).runs[1] == r1;
  }

  /** Run 0 holds the lock past its ttl; run 1 waits at it. */
  lemma HeldTooLong(now: nat, requestId: string, userId: string, totalAmount: real, hotelJoin: seq<string>)
      returns (trace: seq<Action>)
    ensures var w := Exec(now, trace, hotelJoin);
            var r := NewRun(requestId, userId, totalAmount).(pc := Lock);
            && w.runs == map[0 := r.(pc := RateHit, locked := true), 1 := r]
            && w.store.docs == map[] && w.store.published == [] && requestId !in w.store.coord.locks
               && userId !in w.store.coord.rate
  {
    var t := TwoPastTheChecks(now, requestId, userId, totalAmount, hotelJoin);
    var a, b := Advance(0, Ok), Elapse(LOCK_TTL * 1000);
    Extend(now, t, a, hotelJoin);
    Extend(now, t + [a], b, hotelJoin);
    var w1 := Exec(now, t + [a], hotelJoin);
    assert w1.store.coord.locks == map[requestId := C.Timed(now, Some(now + 300_000))];
    trace := t + [a] + [b];
  }

  lemma HolderFails(now: nat, before: seq<Action>, hotelJoin: seq<string>, i: nat) returns (trace: seq<Action>)
    requires var w := Exec(now, before, hotelJoin);
             i in w.runs && w.runs[i].pc == RateHit && w.runs[i].locked && !w.runs[i].created && !w.runs[i].threw
             && w.runs[i].requestId in w.store.docs
    ensures var w, w' := Exec(now, before, hotelJoin), Exec(now, trace, hotelJoin);
            && (forall j :: j in w.runs && j != i ==> j in w'.runs && w'.runs[j] == w.runs[j])
            && i in w'.runs && w'.runs[i].locked && !w'.runs[i].created
            && w'.store.published == w.store.published
            && w.runs[i].requestId in w'.store.docs && w'.store.docs[w.runs[i].requestId].status == FAILED
  {
    var w := Exec(now, before, hotelJoin);
    var (s', r') := RunAlone(w.store, w.runs[i], ALWAYS_OK);
    AloneIsATrace(now, before, hotelJoin, i, ALWAYS_OK, w, s', r');
    LimitThenCreate(w.store, w.runs[i], ALWAYS_OK);
    StaysUncreated(w.store, w.runs[i], ALWAYS_OK);
    trace := before + Alone(i, w.runs[i], w.store, ALWAYS_OK);
  }

  /** Between the lock and create, or leaving without having created. */
  predicate Uncreating(pc: Pc) {
    pc.RateHit? || pc.RateArm? || pc.Create? || pc.RecordError? || pc.PutMeta? || pc.TouchMeta? || pc.Unlock?
    || pc.Uncache? || pc.Done?
  }

  lemma {:induction false} StaysUncreated(s: Store, r: Run, env: Env)
    requires !r.created && r.locked && Uncreating(r.pc)
             && (r.pc.RateHit? || r.pc.RateArm? || r.pc.Create? ==> r.requestId in s.docs)
    ensures var r' := RunAlone(s, r, env).1; !r'.created && r'.locked
    decreases Rank(r.pc)
  {
    if r.pc != Done {
      RankDrops(s, r, env(r.pc));
      StillUncreated(s, r, env(r.pc));
      StaysUncreated(NextStore(s, r, env(r.pc)), NextRun(s, r, env(r.pc)), env);
    }
  }

  lemma StillUncreated(s: Store, r: Run, reply: Reply)
    requires !r.created && r.locked && Uncreating(r.pc) && r.pc != Done
    requires r.pc.RateHit? || r.pc.RateArm? || r.pc.Create? ==> r.requestId in s.docs
    ensures var s', r' := NextStore(s, r, reply), NextRun(s, r, reply);
            && !r'.created && r'.locked && Uncreating(r'.pc)
               && (r'.pc.RateHit? || r'.pc.RateArm? || r'.pc.Create? ==> r'.requestId in s'.docs)
  {
  }

  // ---- When a document is marked FAILED ----

  /** The action is an error record that MongoDB carries out: of a run's catch block or of aggregateResults'. */
  predicate RecordsError(w: World, action: Action, requestId: string) {
    match action
    case Advance(i, reply) =>
      i in w.runs && reply != Lost && w.runs[i].pc == RecordError && w.runs[i].requestId == requestId
    case Proceed(i, choice) =>
      i in w.handlers && choice.reply != Lost && w.handlers[i].pc == AggError && w.handlers[i].requestId == requestId
    case _ => false
  }

  lemma RunMarks(s: Store, r: Run, reply: Reply, id: string)
    requires id in s.docs && s.docs[id].status != FAILED
    ensures var docs' := NextStore(s, r, reply).docs;
            id in docs' && (docs'[id].status == FAILED <==> reply != Lost && r.pc == RecordError && r.requestId == id)
  {
    match r.pc
    case Create =>
    case RecordError =>
    case _ => OtherRunStep(s, r, reply);
  }

  lemma HandlerMarks(s: Store, h: Handler, choice: Choice, id: string)
    requires id in s.docs && s.docs[id].status != FAILED
    ensures var docs' := NextHandlerStore(s, h, choice).docs;
            id in docs' && (docs'[id].status == FAILED <==>
                              choice.reply != Lost && h.pc == AggError && h.requestId == id)
  {
    match h.pc
    case Save =>
    case AggUpdate =>
    case AggError =>
    case _ =>
  }

  /** In any world, a document that is not FAILED becomes so exactly by an error record; which call records it, and
      whether it created the document or holds the lock, is not asked. */
  lemma FailedExactlyWhen(w: World, action: Action, hotelJoin: seq<string>, requestId: string)
    requires requestId in w.store.docs && w.store.docs[requestId].status != FAILED
    ensures var docs' := StepWorld(w, action, hotelJoin).store.docs;
            requestId in docs' && (docs'[requestId].status == FAILED <==> RecordsError(w, action, requestId))
  {
    match action
    case Advance(i, reply) => if i in w.runs { RunMarks(w.store, w.runs[i], reply, requestId); }
    case Proceed(i, choice) => if i in w.handlers { HandlerMarks(w.store, w.handlers[i], choice, requestId); }
    case _ =>
  }

  /** The commands of a run that end in its catch block. */
  predicate Throws(s: Store, r: Run, reply: Reply) {
    match r.pc
    case Find => reply != Ok
    case RateHit => C.Hit(s.coord, r.userId).1 > MAX_PER_MINUTE
    case Create => reply != Ok || r.requestId in s.docs
    case Emit(_) => reply != Ok
    case _ => false
  }

  lemma CatchExactlyWhen(s: Store, r: Run, reply: Reply)
    requires r.pc != RecordError
    ensures NextRun(s, r, reply).pc == RecordError <==> Throws(s, r, reply)
  {
    if r.pc.Touch? {
      match r.pc.event case HotelRequested => case FlightRequested => case CarRequested =>
    }
  }

  /** What is known of a run that has not taken the lock, and of one in its catch block. */
  predicate CatchOk(r: Run) {
    && (!r.locked ==> r.pc.Find? || r.pc.CheckActive? || r.pc.Lock? || r.pc.RecordError? || r.pc.PutMeta?
                      || r.pc.TouchMeta? || r.pc.Uncache? || r.pc.Done?)
    && (r.pc == RecordError ==> r.error.Some? && (!r.locked ==> r.error == Some(DriverError)))
  }

  lemma CatchOkEarly(s: Store, r: Run, reply: Reply)
    requires CatchOk(r) && Early(r.pc)
    ensures CatchOk(NextRun(s, r, reply))
  {
  }

  lemma CatchOkLate(s: Store, r: Run, reply: Reply)
    requires CatchOk(r) && !Early(r.pc)
    ensures CatchOk(NextRun(s, r, reply))
  {
    if r.pc.Touch? {
      match r.pc.event case HotelRequested => case FlightRequested => case CarRequested =>
    }
  }

  lemma {:induction false} CatchAlways(now: nat, trace: seq<Action>, hotelJoin: seq<string>, w: World, i: nat)
    requires w == Exec(now, trace, hotelJoin) && i in w.runs
    ensures CatchOk(w.runs[i])
    decreases |trace|
  {
    if trace != [] {
      var before, action := trace[..|trace| - 1], trace[|trace| - 1];
      var w0 := Exec(now, before, hotelJoin);
      if i in w0.runs {
        CatchAlways(now, before, hotelJoin, w0, i);
        if action.Advance? && action.run == i {
          if Early(w0.runs[i].pc) {
            CatchOkEarly(w0.store, w0.runs[i], action.reply);
          } else {
            CatchOkLate(w0.store, w0.runs[i], action.reply);
          }
        }
      }
    }
  }

  /** On every trace: a run that did not take the lock changes the documents only by recording that its own existence
      check failed; every other step of it leaves them alone. */
  lemma UnlockedRunsRecordOnlyAFailedLookup(now: nat, trace: seq<Action>, hotelJoin: seq<string>, i: nat, reply: Reply)
    requires i in Exec(now, trace, hotelJoin).runs && !Exec(now, trace, hotelJoin).runs[i].locked
    ensures var w := Exec(now, trace, hotelJoin);
            StepWorld(w, Advance(i, reply), hotelJoin).store.docs ==
            if w.runs[i].pc == RecordError && reply != Lost
            then SetError(w.store.docs, w.runs[i].requestId, DriverError) else w.store.docs
  {
    var w := Exec(now, trace, hotelJoin);
    CatchAlways(now, trace, hotelJoin, w, i);
    UnlockedStep(w.store, w.runs[i], reply);
  }

  lemma UnlockedStep(s: Store, r: Run, reply: Reply)
    requires CatchOk(r) && !r.locked
    ensures NextStore(s, r, reply).docs == if r.pc == RecordError && reply != Lost
                                           then SetError(s.docs, r.requestId, DriverError) else s.docs
  {
    if r.pc != RecordError {
      OtherRunStep(s, r, reply);
    }
  }

  /** And that is enough, from any reachable world: a resubmission whose existence check fails in the driver marks the
      document FAILED without ever having been near the lock. */
  lemma LookupFails(now: nat, before: seq<Action>, hotelJoin: seq<string>, i: nat, requestId: string, userId: string,
      totalAmount: real, w: World)
    returns (trace: seq<Action>)
    requires w == Exec(now, before, hotelJoin) && i !in w.runs && requestId in w.store.docs
    ensures var w' := Exec(now, trace, hotelJoin);
            && w'.store == w.store.(docs := SetError(w.store.docs, requestId, DriverError))
            && i in w'.runs && !w'.runs[i].locked && w'.runs == w.runs[i := w'.runs[i]]
  {
    var r0 := NewRun(requestId, userId, totalAmount);
    var a, b, c := Start(i, requestId, userId, totalAmount), Advance(i, Lost), Advance(i, Ok);
    Extend(now, before, a, hotelJoin);
    Extend(now, before + [a], b, hotelJoin);
    var r1 := Throw(r0, DriverError);
    assert Exec(now, before + [a] + [b], hotelJoin) == w.(runs := w.runs[i := r0][i := r1]);
    Extend(now, before + [a] + [b], c, hotelJoin);
    trace := before + [a] + [b] + [c];
    var r2 := NextRun(w.store, r1, Ok);
    assert w.runs[i := r0][i := r1][i := r2] == w.runs[i := r2];
  }

  lemma FailedLookupFailsALiveSaga(now: nat, requestId: string, userId: string, totalAmount: real,
      hotelJoin: seq<string>)
    ensures exists trace :: var w := Exec(now, trace, hotelJoin);
              LiveButFailed(w, requestId) && 2 in w.runs && !w.runs[2].locked
  {
    var before := LaunchedWhileOneWaits(now, requestId, userId, totalAmount, hotelJoin);
    var trace := LookupFails(now, before, hotelJoin, 2, requestId, userId, totalAmount, Exec(now, before, hotelJoin));
    assert LiveButFailed(Exec(now, trace, hotelJoin), requestId);
  }
}
