/** When a launched booking can be marked FAILED: which calls, replies and confirmations of one request, in some
    interleaving, end with all three of its events published and its document FAILED. */
module SagaFailures {
  import opened SagaTypes
  import opened SagaState
  import opened SagaProtocol
  import opened SagaDocuments
  import opened SagaLaunch
  import opened SagaJoin
  import opened SoloRuns
  import L = SagaLimits
  import N = SagaNumbers
  import R = SagaRedelivery
  import C = CoordinatorModel

  // ---- What is asked of one request ----

  /** At most so many calls of execute for the request. If `acked`, their MongoDB and broker commands are acknowledged.
      If `clean`, its confirmations name a reservation, have their MongoDB commands acknowledged, and draw numbers that
      no other document carries. */
  datatype Terms = Terms(requestId: string, submissions: nat, acked: bool, clean: bool)

  /** Everything else is free: other requests, the order, the clock, redeliveries and crashes. */
  predicate Fair(w: World, action: Action, t: Terms) {
    match action
    case Start(i, requestId, _, _) => requestId == t.requestId ==> i < t.submissions
    case Advance(i, reply) => t.acked && i in w.runs && w.runs[i].requestId == t.requestId ==> reply == Ok
    case Deliver(_, _, requestId, reservationId) => t.clean && requestId == t.requestId ==> reservationId != ""
    case Proceed(i, choice) =>
      t.clean && i in w.handlers && w.handlers[i].requestId == t.requestId ==>
        choice.reply == Ok
        && (w.handlers[i].pc == AggUpdate ==> !BookingIdTaken(w.store.docs, t.requestId, choice.bookingId))
    case Elapse(_) => true
  }

  predicate FairTrace(now: nat, trace: seq<Action>, t: Terms, hotelJoin: seq<string>) {
    trace == [] ||
    (FairTrace(now, trace[..|trace| - 1], t, hotelJoin)
     && Fair(Exec(now, trace[..|trace| - 1], hotelJoin), trace[|trace| - 1], t))
  }

  /** All three events of the request are published, and its document is FAILED. */
  predicate LaunchedButFailed(w: World, requestId: string) {
    && requestId in w.store.docs && w.store.docs[requestId].status == FAILED
    && EventsOf(w.store.published, requestId) == PUBLISH_ORDER
  }

  /** Some interleaving on these terms ends so. */
  ghost predicate CanBeFailed(now: nat, t: Terms, hotelJoin: seq<string>) {
    exists trace :: FairTrace(now, trace, t, hotelJoin) && LaunchedButFailed(Exec(now, trace, hotelJoin), t.requestId)
  }

  // ---- One acknowledged submission does not mark what it launched ----

  /** From the acknowledged create on, but for the catch block. */
  predicate PastCreate(pc: Pc) {
    pc.CacheActive? || pc.Enqueue? || pc.Emit? || pc.Count? || pc.Touch? || pc.Unlock? || pc.Uncache? || pc.Done?
  }

  predicate SoleRun(w: World, t: Terms) {
    && (forall i :: i in w.runs && w.runs[i].requestId == t.requestId ==> i < t.submissions)
    && (t.requestId in w.store.docs ==>
          0 in w.runs && w.runs[0].requestId == t.requestId && PastCreate(w.runs[0].pc))
  }

  lemma OtherRunsLeaveIt(s: Store, r: Run, reply: Reply, id: string)
    requires r.requestId != id
    ensures var docs' := NextStore(s, r, reply).docs;
            (id in docs' <==> id in s.docs) && (id in s.docs ==> docs'[id] == s.docs[id])
  {
    match r.pc
    case Create =>
    case RecordError =>
    case _ => OtherRunStep(s, r, reply);
  }

  /** An acknowledged step of the only run. */
  lemma OwnStep(s: Store, r: Run)
    requires r.requestId in s.docs ==> PastCreate(r.pc)
    ensures r.requestId in NextStore(s, r, Ok).docs ==> PastCreate(NextRun(s, r, Ok).pc)
  {
    if r.pc != RecordError {
      L.CatchExactlyWhen(s, r, Ok);
    }
    if r.pc.Touch? {
      match r.pc.event case HotelRequested => case FlightRequested => case CarRequested =>
    }
  }

  lemma AdvanceKeepsSole(w: World, i: nat, reply: Reply, t: Terms, hotelJoin: seq<string>)
    requires SoleRun(w, t) && t.submissions <= 1 && t.acked && Fair(w, Advance(i, reply), t)
    ensures SoleRun(StepWorld(w, Advance(i, reply), hotelJoin), t)
  {
    if i in w.runs {
      if w.runs[i].requestId == t.requestId {
        OwnStep(w.store, w.runs[i]);
      } else {
        OtherRunsLeaveIt(w.store, w.runs[i], reply, t.requestId);
      }
    }
  }

  lemma {:induction false} SoleAlways(now: nat, trace: seq<Action>, t: Terms, hotelJoin: seq<string>, w: World)
    requires w == Exec(now, trace, hotelJoin) && FairTrace(now, trace, t, hotelJoin) && t.submissions <= 1 && t.acked
    ensures SoleRun(w, t)
    decreases |trace|
  {
    if trace != [] {
      var before, action := trace[..|trace| - 1], trace[|trace| - 1];
      var w0 := Exec(now, before, hotelJoin);
      SoleAlways(now, before, t, hotelJoin, w0);
      match action
      case Advance(i, reply) => AdvanceKeepsSole(w0, i, reply, t, hotelJoin);
      case Proceed(i, choice) =>
        if i in w0.handlers { N.HandlerStepNumbers(w0.store, w0.handlers[i], choice, t.requestId); }
      case _ =>
    }
  }

  // ---- Clean confirmations do not either ----

  predicate CleanPc(pc: HandlerPc) {
    pc != AggError && pc != AggPutMeta && pc != AggTouchMeta && pc != Fail
  }

  predicate CleanHandlers(w: World, requestId: string) {
    forall i :: i in w.handlers && w.handlers[i].requestId == requestId ==>
      w.handlers[i].reservationId != "" && CleanPc(w.handlers[i].pc)
  }

  /** What sends a handler to aggregateResults' catch block. */
  predicate Misses(s: Store, h: Handler, choice: Choice) {
    match h.pc
    case AggFind => choice.reply != Ok || h.requestId !in s.docs || Incomplete(s.docs[h.requestId])
    case AggUpdate => choice.reply != Ok || BookingIdTaken(s.docs, h.requestId, choice.bookingId)
    case _ => false
  }

  lemma AggErrorExactlyWhen(s: Store, h: Handler, choice: Choice, hotelJoin: seq<string>)
    requires h.pc != AggError
    ensures NextHandler(s, h, choice, hotelJoin).pc == AggError <==> Misses(s, h, choice)
  {
  }

  predicate HasEmptyId(docs: Docs, id: string) {
    id in docs && exists service :: ReservationId(docs[id], service) == Some("")
  }

  lemma MissingIsEmpty(docs: Docs, id: string)
    requires AllIds(docs, id)
    ensures Incomplete(docs[id]) <==> HasEmptyId(docs, id)
  {
    if Incomplete(docs[id]) {
      IncompleteMeansEmpty(docs[id]);
    }
    if service :| ReservationId(docs[id], service) == Some("") {
      match service case Flight => case Hotel => case Car =>
    }
  }

  /** On every trace, aggregateResults gets to its error record exactly from its read, if that fails or an id is empty,
      and from its update, if that is not acknowledged or the number is taken. Its document is always there, with all
      three ids: the branch for a missing one is dead. */
  lemma AggregationFailsIff(now: nat, trace: seq<Action>, hotelJoin: seq<string>, i: nat, choice: Choice)
    requires KnownJoin(hotelJoin) && i in Exec(now, trace, hotelJoin).handlers
    requires Exec(now, trace, hotelJoin).handlers[i].pc != AggError
    ensures var w := Exec(now, trace, hotelJoin);
            var h := w.handlers[i];
            && (h.pc == AggFind || h.pc == AggUpdate ==> AllIds(w.store.docs, h.requestId))
            && (StepWorld(w, Proceed(i, choice), hotelJoin).handlers[i].pc == AggError <==>
                  || (h.pc == AggFind && (choice.reply != Ok || HasEmptyId(w.store.docs, h.requestId)))
                  || (h.pc == AggUpdate && (choice.reply != Ok
                                            || BookingIdTaken(w.store.docs, h.requestId, choice.bookingId))))
  {
    var w := Exec(now, trace, hotelJoin);
    JoinAlways(now, trace, hotelJoin);
    DocsAlways(now, trace, hotelJoin);
    assert CallOk(w.handlers[i]);
    AggErrorExactlyWhen(w.store, w.handlers[i], choice, hotelJoin);
    if w.handlers[i].pc == AggFind || w.handlers[i].pc == AggUpdate {
      JoinedMeansAllIds(w, hotelJoin, i);
      MissingIsEmpty(w.store.docs, w.handlers[i].requestId);
    }
  }

  /** Only that, and a save that is not acknowledged, leads off the clean way. */
  lemma CleanNext(s: Store, h: Handler, choice: Choice, hotelJoin: seq<string>)
    requires CleanPc(h.pc) && !Misses(s, h, choice) && (h.pc == Save ==> choice.reply == Ok)
    ensures CleanPc(NextHandler(s, h, choice, hotelJoin).pc)
  {
    AggErrorExactlyWhen(s, h, choice, hotelJoin);
  }

  lemma EmptyIdWasSent(w: World, id: string)
    requires EmptyInv(w) && AllIds(w.store.docs, id) && Incomplete(w.store.docs[id])
    ensures SentEmpty(w.handlers, id)
  {
    IncompleteMeansEmpty(w.store.docs[id]);
  }

  /** The read of a joined handler finds all ids, none of them empty. */
  lemma ReadIsComplete(w: World, i: nat, hotelJoin: seq<string>)
    requires JoinInv(w, hotelJoin) && DocsInv(w) && EmptyInv(w) && i in w.handlers && w.handlers[i].pc == AggFind
    requires CleanHandlers(w, w.handlers[i].requestId)
    ensures w.handlers[i].requestId in w.store.docs && !Incomplete(w.store.docs[w.handlers[i].requestId])
  {
    var id := w.handlers[i].requestId;
    assert CallOk(w.handlers[i]);
    JoinedMeansAllIds(w, hotelJoin, i);
    if Incomplete(w.store.docs[id]) {
      EmptyIdWasSent(w, id);
    }
  }

  lemma ProceedKeepsClean(w: World, i: nat, choice: Choice, t: Terms, hotelJoin: seq<string>)
    requires JoinInv(w, hotelJoin) && DocsInv(w) && EmptyInv(w)
    requires CleanHandlers(w, t.requestId) && t.clean && Fair(w, Proceed(i, choice), t)
    ensures CleanHandlers(StepWorld(w, Proceed(i, choice), hotelJoin), t.requestId)
  {
    if i in w.handlers && w.handlers[i].requestId == t.requestId {
      if w.handlers[i].pc == AggFind {
        ReadIsComplete(w, i, hotelJoin);
      }
      CleanNext(w.store, w.handlers[i], choice, hotelJoin);
    }
  }

  lemma {:induction false} CleanAlways(now: nat, trace: seq<Action>, t: Terms, hotelJoin: seq<string>, w: World)
    requires KnownJoin(hotelJoin) && w == Exec(now, trace, hotelJoin) && FairTrace(now, trace, t, hotelJoin) && t.clean
    ensures CleanHandlers(w, t.requestId)
    decreases |trace|
  {
    if trace != [] {
      var before, action := trace[..|trace| - 1], trace[|trace| - 1];
      var w0 := Exec(now, before, hotelJoin);
      CleanAlways(now, before, t, hotelJoin, w0);
      JoinAlways(now, before, hotelJoin);
      DocsAlways(now, before, hotelJoin);
      EmptyAlways(now, before, hotelJoin);
      match action
      case Proceed(i, choice) => ProceedKeepsClean(w0, i, choice, t, hotelJoin);
      case _ =>
    }
  }

  // ---- The impossible half ----

  lemma BornPending(w: World, action: Action, hotelJoin: seq<string>, id: string)
    requires id !in w.store.docs
    ensures var docs' := StepWorld(w, action, hotelJoin).store.docs; id in docs' ==> docs'[id].status == PENDING
  {
    match action
    case Advance(i, reply) =>
      if i in w.runs {
        if w.runs[i].pc != Create {
          N.RunStepNumbers(w.store, w.runs[i], reply, id);
          OnlyCreateAdds(w.store, w.runs[i], reply, id);
        }
      }
    case Proceed(i, choice) =>
      if i in w.handlers { N.HandlerStepNumbers(w.store, w.handlers[i], choice, id); }
    case _ =>
  }

  lemma OnlyCreateAdds(s: Store, r: Run, reply: Reply, id: string)
    requires r.pc != Create && id !in s.docs
    ensures id !in NextStore(s, r, reply).docs
  {
    match r.pc
    case RecordError =>
    case _ => OtherRunStep(s, r, reply);
  }

  lemma {:induction false} NeverFailed(now: nat, trace: seq<Action>, t: Terms, hotelJoin: seq<string>, w: World)
    requires KnownJoin(hotelJoin) && w == Exec(now, trace, hotelJoin) && FairTrace(now, trace, t, hotelJoin)
    requires t.submissions == 0 || (t.submissions == 1 && t.acked && t.clean)
    ensures t.requestId in w.store.docs ==> t.submissions == 1 && w.store.docs[t.requestId].status != FAILED
    decreases |trace|
  {
    if trace != [] {
      var before, action := trace[..|trace| - 1], trace[|trace| - 1];
      var w0 := Exec(now, before, hotelJoin);
      NeverFailed(now, before, t, hotelJoin, w0);
      if t.submissions == 0 {
        NeverCreated(now, trace, t, hotelJoin, w);
      } else if t.requestId in w0.store.docs {
        SoleAlways(now, before, t, hotelJoin, w0);
        CleanAlways(now, before, t, hotelJoin, w0);
        L.FailedExactlyWhen(w0, action, hotelJoin, t.requestId);
      } else {
        BornPending(w0, action, hotelJoin, t.requestId);
      }
    }
  }

  /** Nobody but a call of execute creates a document. */
  lemma {:induction false} NeverCreated(now: nat, trace: seq<Action>, t: Terms, hotelJoin: seq<string>, w: World)
    requires w == Exec(now, trace, hotelJoin) && FairTrace(now, trace, t, hotelJoin) && t.submissions == 0
    ensures t.requestId !in w.store.docs && forall i :: i in w.runs ==> w.runs[i].requestId != t.requestId
    decreases |trace|
  {
    if trace != [] {
      var before, action := trace[..|trace| - 1], trace[|trace| - 1];
      var w0 := Exec(now, before, hotelJoin);
      NeverCreated(now, before, t, hotelJoin, w0);
      match action
      case Advance(i, reply) =>
        if i in w0.runs { OtherRunsLeaveIt(w0.store, w0.runs[i], reply, t.requestId); }
      case Proceed(i, choice) =>
        if i in w0.handlers { N.HandlerStepNumbers(w0.store, w0.handlers[i], choice, t.requestId); }
      case _ =>
    }
  }

  // ---- The traces that do ----

  lemma {:induction false} WithinIsFair(now: nat, trace: seq<Action>, n: nat, acked: bool, quiet: bool, t: Terms,
      hotelJoin: seq<string>)
    requires L.AllWithin(trace, n, acked, quiet) && n <= t.submissions && (t.acked ==> acked) && (t.clean ==> quiet)
    ensures FairTrace(now, trace, t, hotelJoin)
    decreases |trace|
  {
    if trace != [] {
      var before := trace[..|trace| - 1];
      assert L.Within(trace[|trace| - 1], n, acked, quiet);
      forall k | 0 <= k < |before| ensures L.Within(before[k], n, acked, quiet) {
        assert before[k] == trace[k];
      }
      WithinIsFair(now, before, n, acked, quiet, t, hotelJoin);
    }
  }

  lemma EventsAreAll(id: string)
    ensures EventsOf(Events(id, 3), id) == PUBLISH_ORDER
  {
    var e := Events(id, 3);
    assert e[..2][..1][..0] == [] && EventsOf([], id) == [];
    assert EventsOf(e[..2][..1], id) == [HotelRequested];
    assert EventsOf(e[..2], id) == [HotelRequested, FlightRequested];
  }

  predicate Doomed(w: World, i: nat) {
    && i in w.runs && w.runs[i].requestId in w.store.docs
    && (w.runs[i].pc.RateHit? || w.runs[i].pc.RateArm? || w.runs[i].pc.Create? || w.runs[i].pc.RecordError?
        || (w.runs[i].pc.Lock? && w.runs[i].requestId !in w.store.coord.locks))
  }

  /** A run that passed its checks too early, acknowledged all along, gets to its error record. */
  lemma {:induction false} ReachesRecord(now: nat, before: seq<Action>, hotelJoin: seq<string>, i: nat, w: World)
      returns (trace: seq<Action>)
    requires w == Exec(now, before, hotelJoin) && Doomed(w, i)
    ensures var w' := Exec(now, trace, hotelJoin);
            && Doomed(w', i) && w'.runs[i].pc == RecordError && w'.runs[i].requestId == w.runs[i].requestId
            && w'.store.docs == w.store.docs && w'.store.published == w.store.published
    ensures before <= trace && forall k :: |before| <= k < |trace| ==> trace[k] == Advance(i, Ok)
    decreases Rank(w.runs[i].pc)
  {
    if w.runs[i].pc == RecordError {
      trace := before;
    } else {
      var s', r' := NextStore(w.store, w.runs[i], Ok), NextRun(w.store, w.runs[i], Ok);
      L.OneAdvance(now, before, hotelJoin, i, Ok, w);
      RankDrops(w.store, w.runs[i], Ok);
      trace := ReachesRecord(now, before + [Advance(i, Ok)], hotelJoin, i, w.(store := s', runs := w.runs[i := r']));
    }
  }

  /** A run of the request is at its error record while the document, fully launched, is not FAILED. */
  predicate AboutToMark(w: World, i: nat, requestId: string) {
    && i in w.runs && w.runs[i].requestId == requestId && w.runs[i].pc == RecordError
    && requestId in w.store.docs && w.store.docs[requestId].status != FAILED
    && EventsOf(w.store.published, requestId) == PUBLISH_ORDER
  }

  lemma SecondIsAboutToMark(now: nat, requestId: string, hotelJoin: seq<string>) returns (trace: seq<Action>)
    ensures AboutToMark(Exec(now, trace, hotelJoin), 1, requestId)
    ensures L.AllWithin(trace, 2, true, true)
  {
    var before := L.LaunchedWhileOneWaits(now, requestId, "", 0.0, hotelJoin);
    EventsAreAll(requestId);
    trace := ReachesRecord(now, before, hotelJoin, 1, Exec(now, before, hotelJoin));
    forall k | 0 <= k < |trace| ensures L.Within(trace[k], 2, true, true) {
      assert k < |before| ==> trace[k] == before[k] && L.Within(before[k], 2, true, true);
    }
  }

  /** The next acknowledged command of that run marks the booking. */
  lemma ThenMarks(now: nat, before: seq<Action>, hotelJoin: seq<string>, i: nat, requestId: string)
    requires AboutToMark(Exec(now, before, hotelJoin), i, requestId)
    ensures LaunchedButFailed(Exec(now, before + [Advance(i, Ok)], hotelJoin), requestId)
  {
    L.OneAdvance(now, before, hotelJoin, i, Ok, Exec(now, before, hotelJoin));
  }

  const LAST_UNACKED: Env := pc => if pc == Emit(CarRequested) then Unacked else Ok

  /** A creator whose last publication arrives without being acknowledged, from create on. */
  predicate LosesLast(s: Store, r: Run) {
    && r.created && r.locked && !r.threw && r.requestId in s.docs
    && match r.pc
       case CacheActive => r.sent == 0
       case Enqueue => r.sent == 0
       case Emit(event) => r.sent == Index(event)
       case Count(event) => event != CarRequested && r.sent == Index(event) + 1
       case Touch(event) => event != CarRequested && r.sent == Index(event) + 1
       case RecordError => r.sent == 3
       case _ => !Early(r.pc) && r.sent == 3 && s.docs[r.requestId].status == FAILED
  }

  lemma StillLosesLast(s: Store, r: Run)
    requires LosesLast(s, r) && r.pc != Done
    ensures LosesLast(NextStore(s, r, LAST_UNACKED(r.pc)), NextRun(s, r, LAST_UNACKED(r.pc)))
  {
    if r.pc.Emit? || r.pc.Touch? {
      PublishesAndLoses(s, r);
    } else if r.pc.CacheActive? || r.pc.Enqueue? || r.pc.Count? {
      QueuesAndLoses(s, r);
    } else {
      LeavesHavingLost(s, r);
    }
  }

  lemma PublishesAndLoses(s: Store, r: Run)
    requires LosesLast(s, r) && (r.pc.Emit? || r.pc.Touch?)
    ensures LosesLast(NextStore(s, r, LAST_UNACKED(r.pc)), NextRun(s, r, LAST_UNACKED(r.pc)))
  {
    match r.pc.event case HotelRequested => case FlightRequested => case CarRequested =>
  }

  lemma QueuesAndLoses(s: Store, r: Run)
    requires LosesLast(s, r) && (r.pc.CacheActive? || r.pc.Enqueue? || r.pc.Count?)
    ensures LosesLast(NextStore(s, r, Ok), NextRun(s, r, Ok))
  {
  }

  lemma LeavesHavingLost(s: Store, r: Run)
    requires LosesLast(s, r) && !r.pc.CacheActive? && !r.pc.Enqueue? && !r.pc.Emit? && !r.pc.Count? && !r.pc.Touch?
    ensures LosesLast(NextStore(s, r, Ok), NextRun(s, r, Ok))
  {
  }

  lemma {:induction false} LosesToTheEnd(s: Store, r: Run)
    requires LosesLast(s, r)
    ensures var (s', r') := RunAlone(s, r, LAST_UNACKED); LosesLast(s', r') && r'.pc == Done
    ensures RunAlone(s, r, LAST_UNACKED).1.requestId == r.requestId
    decreases Rank(r.pc)
  {
    if r.pc != Done {
      RankDrops(s, r, LAST_UNACKED(r.pc));
      StillLosesLast(s, r);
      LosesToTheEnd(NextStore(s, r, LAST_UNACKED(r.pc)), NextRun(s, r, LAST_UNACKED(r.pc)));
    }
  }

  /** One call, whose last publication is not acknowledged: it marks the booking it has just launched. */
  lemma OneCallMarksItsOwn(now: nat, requestId: string, hotelJoin: seq<string>) returns (trace: seq<Action>)
    ensures LaunchedButFailed(Exec(now, trace, hotelJoin), requestId)
    ensures L.AllWithin(trace, 1, false, true)
  {
    var before := L.OnePastTheChecks(now, requestId, "", 0.0, hotelJoin);
    var w := Exec(now, before, hotelJoin);
    var r := w.runs[0];
    var (s', r') := RunAlone(w.store, r, LAST_UNACKED);
    L.AloneIsATrace(now, before, hotelJoin, 0, LAST_UNACKED, w, s', r');
    L.AloneIsWithin(0, r, w.store, LAST_UNACKED, 1, false);
    trace := before + L.Alone(0, r, w.store, LAST_UNACKED);
    LosesFromLock(w.store, r);
    LaunchAlways(now, trace, hotelJoin);
    assert RunOk(s', Exec(now, trace, hotelJoin).runs[0]);
    assert PUBLISH_ORDER[..3] == PUBLISH_ORDER;
    BothWithin(before, L.Alone(0, r, w.store, LAST_UNACKED), 1, false);
  }

  lemma BothWithin(before: seq<Action>, rest: seq<Action>, n: nat, acked: bool)
    requires L.AllWithin(before, n, true, true) && L.AllWithin(rest, n, acked, true)
    ensures L.AllWithin(before + rest, n, acked, true)
  {
    forall k | 0 <= k < |before + rest| ensures L.Within((before + rest)[k], n, acked, true) {
      assert k < |before| ==> L.Within(before[k], n, true, true);
    }
  }

  lemma LosesFromLock(s: Store, r: Run)
    requires r == NewRun(r.requestId, r.userId, r.totalAmount).(pc := Lock)
    requires s.docs == map[] && s.published == [] && r.requestId !in s.coord.locks && r.userId !in s.coord.rate
    ensures var (s', r') := RunAlone(s, r, LAST_UNACKED);
            LosesLast(s', r') && r'.pc == Done && r'.requestId == r.requestId
  {
    var s1 := L.FirstReachesCreate(s, r, LAST_UNACKED);
    var r1 := r.(pc := Create, locked := true);
    OneCommand(s, r, s1, r1, LAST_UNACKED);
    LosesToTheEnd(NextStore(s1, r1, Ok), NextRun(s1, r1, Ok));
  }

  /** One step of a handler at the end of a trace. */
  lemma OneProceed(now: nat, before: seq<Action>, hotelJoin: seq<string>, i: nat, choice: Choice, w: World)
      returns (trace: seq<Action>, w': World)
    requires w == Exec(now, before, hotelJoin) && i in w.handlers
    ensures w' == Exec(now, trace, hotelJoin) && i in w'.handlers
    ensures w'.store == NextHandlerStore(w.store, w.handlers[i], choice)
    ensures w'.handlers[i] == NextHandler(w.store, w.handlers[i], choice, hotelJoin)
    ensures L.AllWithin(before, 1, true, false) ==> L.AllWithin(trace, 1, true, false)
  {
    L.Extend(now, before, Proceed(i, choice), hotelJoin);
    trace := before + [Proceed(i, choice)];
    w' := Exec(now, trace, hotelJoin);
  }

  /** A joined handler of the only document, up to its update. */
  lemma UpToUpdate(now: nat, before: seq<Action>, hotelJoin: seq<string>, i: nat, w: World)
      returns (trace: seq<Action>, w': World)
    requires w == Exec(now, before, hotelJoin) && i in w.handlers
    requires w.handlers[i].pc == CountConfirm && w.handlers[i].joined
    requires w.handlers[i].requestId in w.store.docs && !Incomplete(w.store.docs[w.handlers[i].requestId])
    ensures w' == Exec(now, trace, hotelJoin) && i in w'.handlers
    ensures w'.handlers[i] == w.handlers[i].(pc := AggUpdate, called := true)
    ensures w'.store.docs == w.store.docs && w'.store.published == w.store.published
    ensures L.AllWithin(before, 1, true, false) ==> L.AllWithin(trace, 1, true, false)
  {
    var choice := Choice(Ok, "", C.OfLock);
    var t1, w1 := OneProceed(now, before, hotelJoin, i, choice, w);
    var t2, w2 := OneProceed(now, t1, hotelJoin, i, choice, w1);
    trace, w' := OneProceed(now, t2, hotelJoin, i, choice, w2);
  }

  lemma UpdateUnacked(s: Store, h: Handler, number: string, id: string, d: Doc, hotelJoin: seq<string>)
    requires h.pc == AggUpdate && h.requestId == id && s.docs == map[id := d]
    ensures var choice := Choice(Unacked, number, C.OfLock);
            && NextHandlerStore(s, h, choice) == s.(docs := map[id := Finalized(d, number)])
            && NextHandler(s, h, choice, hotelJoin) == h.(pc := AggError, error := DriverError)
  {
  }

  /** And on, with that update applied but not acknowledged, over its error record. */
  lemma UpdatesAndMarks(now: nat, before: seq<Action>, hotelJoin: seq<string>, i: nat, number: string, id: string,
      d: Doc, w: World)
    returns (trace: seq<Action>)
    requires w == Exec(now, before, hotelJoin) && i in w.handlers && w.handlers[i].pc == AggUpdate
    requires w.handlers[i].requestId == id && w.store.docs == map[id := d]
    ensures var w' := Exec(now, trace, hotelJoin);
            && id in w'.store.docs && w'.store.docs[id].status == FAILED
            && w'.store.docs[id].bookingId == Some(number)
            && w'.store.published == w.store.published
    ensures L.AllWithin(before, 1, true, false) ==> L.AllWithin(trace, 1, true, false)
  {
    UpdateUnacked(w.store, w.handlers[i], number, id, d, hotelJoin);
    var t1, w1 := OneProceed(now, before, hotelJoin, i, Choice(Unacked, number, C.OfLock), w);
    var w2;
    trace, w2 := OneProceed(now, t1, hotelJoin, i, Choice(Ok, number, C.OfLock), w1);
  }

  /** One call, every command of it acknowledged, and three confirmations: aggregateResults writes the booking number,
      is not told so, and marks the booking it has just finished. */
  lemma AggregationMarksItsOwn(now: nat, requestId: string, number: string, hotelJoin: seq<string>)
      returns (trace: seq<Action>)
    requires KnownJoin(hotelJoin)
    ensures LaunchedButFailed(Exec(now, trace, hotelJoin), requestId)
    ensures Exec(now, trace, hotelJoin).store.docs[requestId].bookingId == Some(number)
    ensures L.AllWithin(trace, 1, true, false)
  {
    var t := R.ThreeSavedIsReached(now, hotelJoin, requestId, "", 0.0, Hotel, "h", Car, "c", Flight, "f");
    var w := Exec(now, t, hotelJoin);
    R.ThirdCompletes("", 0.0, Hotel, "h", Car, "c", Flight, "f");
    StepsTell(w.store.docs[requestId]);
    var t1, w1 := UpToUpdate(now, t, hotelJoin, 2, w);
    trace := UpdatesAndMarks(now, t1, hotelJoin, 2, number, requestId, w.store.docs[requestId], w1);
    EventsAreAll(requestId);
  }

  // ---- Theorems ----

  /** Whether a launched booking can end FAILED: exactly if its request is submitted more than once, or, submitted once,
      some command of that call or of a confirmation can fail, a confirmation can name no reservation, or a drawn number
      can be taken. A single call with everything acknowledged and clean confirmations never gets there, however they,
      redeliveries, the clock and all other requests interleave. */
  lemma CanBeFailedIff(now: nat, t: Terms, hotelJoin: seq<string>)
    requires KnownJoin(hotelJoin)
    ensures CanBeFailed(now, t, hotelJoin) <==>
              t.submissions >= 2 || (t.submissions == 1 && !(t.acked && t.clean))
  {
    if t.submissions >= 2 {
      var before := SecondIsAboutToMark(now, t.requestId, hotelJoin);
      var trace := before + [Advance(1, Ok)];
      ThenMarks(now, before, hotelJoin, 1, t.requestId);
      MoreWithin(before, Advance(1, Ok), 2, true, true);
      WithinIsFair(now, trace, 2, true, true, t, hotelJoin);
    } else if t.submissions == 1 && !t.acked {
      var trace := OneCallMarksItsOwn(now, t.requestId, hotelJoin);
      WithinIsFair(now, trace, 1, false, true, t, hotelJoin);
    } else if t.submissions == 1 && !t.clean {
      var trace := AggregationMarksItsOwn(now, t.requestId, "", hotelJoin);
      WithinIsFair(now, trace, 1, true, false, t, hotelJoin);
    } else {
      forall trace | FairTrace(now, trace, t, hotelJoin)
        ensures !LaunchedButFailed(Exec(now, trace, hotelJoin), t.requestId)
      {
        NeverFailed(now, trace, t, hotelJoin, Exec(now, trace, hotelJoin));
      }
    }
  }

  lemma MoreWithin(before: seq<Action>, action: Action, n: nat, acked: bool, quiet: bool)
    requires L.AllWithin(before, n, acked, quiet) && L.Within(action, n, acked, quiet)
    ensures L.AllWithin(before + [action], n, acked, quiet)
  {
  }

  /** Some interleaving on these terms brings a run of the request to the point of marking the launched booking. */
  ghost predicate RunCanMark(now: nat, t: Terms, hotelJoin: seq<string>) {
    exists trace, i :: FairTrace(now, trace, t, hotelJoin) && AboutToMark(Exec(now, trace, hotelJoin), i, t.requestId)
  }

  /** With all commands of its calls acknowledged, a run marks the launched booking exactly if there is a second one. */
  lemma RunMarksIff(now: nat, t: Terms, hotelJoin: seq<string>)
    requires t.acked
    ensures RunCanMark(now, t, hotelJoin) <==> t.submissions >= 2
  {
    if t.submissions >= 2 {
      var trace := SecondIsAboutToMark(now, t.requestId, hotelJoin);
      WithinIsFair(now, trace, 2, true, true, t, hotelJoin);
      assert AboutToMark(Exec(now, trace, hotelJoin), 1, t.requestId);
    } else {
      forall trace, i | FairTrace(now, trace, t, hotelJoin)
        ensures !AboutToMark(Exec(now, trace, hotelJoin), i, t.requestId)
      {
        SoleAlways(now, trace, t, hotelJoin, Exec(now, trace, hotelJoin));
      }
    }
  }
}
