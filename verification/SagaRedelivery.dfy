/** Confirmations redelivered, or arriving with the hotel's last: what a handler does from its save on, when it replaces
    a booking number, and the runs from the initial world that show it. */
module SagaRedelivery {
  import opened SagaTypes
  import opened SagaState
  import opened SagaProtocol
  import opened SagaDocuments
  import opened SagaJoin
  import opened SoloHandlers
  import L = SagaLimits
  import N = SagaNumbers
  import opened SoloRuns
  import C = CoordinatorModel

  // ---- A handler that joins ----

  predicate Acknowledged(env: HandlerEnv) {
    && env.replies(Save) == Ok && env.replies(AggFind) == Ok && env.replies(AggUpdate) == Ok
    && multiset(env.order) == multiset(C.ALL_DELETIONS)
  }

  /** A confirmation handled alone, with its commands acknowledged, that reaches the join point: the document is final
      with the number drawn, the client is told that number, and Redis has nothing left of the request. */
  lemma JoinedConfirmation(s: Store, service: Service, requestId: string, reservationId: string, env: HandlerEnv)
    requires Acknowledged(env) && requestId in s.docs
    requires var d := Confirmed(s.docs[requestId], service, reservationId);
             Joins(env.hotelJoin, service, d.completedSteps) && !Incomplete(d)
    requires !BookingIdTaken(s.docs, requestId, env.bookingId)
    ensures var s' := HandleAlone(s, NewHandler(service, requestId, reservationId), env).0;
            && s'.docs == Finalize(SaveConfirmed(s.docs, service, requestId, reservationId), requestId, env.bookingId)
            && s'.notes == s.notes + [BookingConfirmed(requestId, env.bookingId)]
            && s'.coord == C.Without(s.coord, requestId) && s'.published == s.published
  {
    var h := NewHandler(service, requestId, reservationId);
    OneMore(s, h, s, h, env);
    var s1, h1 := s.(docs := SaveConfirmed(s.docs, service, requestId, reservationId)),
      h.(pc := CountConfirm, joined := true);
    assert NextHandlerStore(s, h, At(env, Save)) == s1 && NextHandler(s, h, At(env, Save), env.hotelJoin) == h1;
    assert !BookingIdTaken(s1.docs, requestId, env.bookingId);
    JoinedGoesOn(s1, h1, env);
  }

  /** The same from after its save. */
  lemma JoinedGoesOn(s: Store, h: Handler, env: HandlerEnv)
    requires Acknowledged(env) && h.pc == CountConfirm && h.joined && h.requestId in s.docs
             && !Incomplete(s.docs[h.requestId])
    requires !BookingIdTaken(s.docs, h.requestId, env.bookingId)
    ensures var s' := HandleAlone(s, h, env).0;
            && s'.docs == Finalize(s.docs, h.requestId, env.bookingId)
            && s'.notes == s.notes + [BookingConfirmed(h.requestId, env.bookingId)]
            && s'.coord == C.Without(s.coord, h.requestId) && s'.published == s.published
  {
    OneMore(s, h, s, h, env);
    var s2, h2 := NextHandlerStore(s, h, At(env, CountConfirm)), h.(pc := TouchConfirm);
    OneMore(s, h, s2, h2, env);
    var s3, h3 := NextHandlerStore(s2, h2, At(env, TouchConfirm)), h2.(pc := AggFind, called := true);
    Aggregates(s3, h3, env);
    C.WithoutForgets(s.coord, h.requestId, StepOf(h.service));
  }

  lemma Aggregates(s: Store, h: Handler, env: HandlerEnv)
    requires Acknowledged(env) && h.pc == AggFind && h.requestId in s.docs && !Incomplete(s.docs[h.requestId])
    requires !BookingIdTaken(s.docs, h.requestId, env.bookingId)
    ensures var s' := HandleAlone(s, h, env).0;
            && s'.docs == Finalize(s.docs, h.requestId, env.bookingId)
            && s'.notes == s.notes + [BookingConfirmed(h.requestId, env.bookingId)]
            && s'.coord == C.Without(s.coord, h.requestId) && s'.published == s.published
  {
    OneMore(s, h, s, h, env);
    var h1 := h.(pc := AggUpdate);
    assert NextHandlerStore(s, h, At(env, AggFind)) == s && NextHandler(s, h, At(env, AggFind), env.hotelJoin) == h1;
    OneMore(s, h, s, h1, env);
    var s2, h2 := s.(docs := Finalize(s.docs, h.requestId, env.bookingId)),
      h1.(pc := AggCount, bookingId := env.bookingId);
    assert NextHandlerStore(s, h1, At(env, AggUpdate)) == s2
           && NextHandler(s, h1, At(env, AggUpdate), env.hotelJoin) == h2;
    CleansUp(s2, h2, env);
  }

  lemma {:induction false} CleansUp(s: Store, h: Handler, env: HandlerEnv)
    requires multiset(env.order) == multiset(C.ALL_DELETIONS) && h.pc == AggCount
    ensures var s' := HandleAlone(s, h, env).0;
            && s'.docs == s.docs && s'.notes == s.notes + [BookingConfirmed(h.requestId, h.bookingId)]
            && s'.coord == C.Without(s.coord, h.requestId) && s'.published == s.published
  {
    var id := h.requestId;
    CountAndDequeue(s, h, s, h, env);
    var s3, h3 := s.(coord := C.Dequeue(C.ExpireSteps(C.CountStep(s.coord, id, COMPLETED), id), id)),
      h.(pc := AggClean(C.ALL_DELETIONS));
    C.NoRepeats(env.order);
    assert [] + env.order == env.order;
    CleanContinues(s3, h3, [], env.order, env);
    C.CleanupInAnyOrder(s3.coord, env.order, id);
    ThenConfirms(s3.(coord := C.Without(s3.coord, id)), h.(pc := Confirm), env);
    C.WithoutForgets(s.coord, id, COMPLETED);
  }

  lemma ThenConfirms(s: Store, h: Handler, env: HandlerEnv)
    requires h.pc == Confirm
    ensures HandleAlone(s, h, env).0 == s.(notes := s.notes + [BookingConfirmed(h.requestId, h.bookingId)])
  {
    OneMore(s, h, s, h, env);
  }

  // ---- When a redelivery replaces the number ----

  predicate PastNumbering(pc: HandlerPc) {
    pc != Save && pc != CountConfirm && pc != TouchConfirm && pc != AggFind && pc != AggUpdate
  }

  lemma StaysPastNumbering(s: Store, h: Handler, choice: Choice, hotelJoin: seq<string>)
    requires PastNumbering(h.pc)
    ensures PastNumbering(NextHandler(s, h, choice, hotelJoin).pc)
  {
  }

  /** After its final update, or without one, a handler changes no number. */
  lemma {:induction false} NoMoreNumbers(s: Store, h: Handler, env: HandlerEnv, r: string)
    requires PastNumbering(h.pc) && r in s.docs
    ensures var docs' := HandleAlone(s, h, env).0.docs; r in docs' && docs'[r].bookingId == s.docs[r].bookingId
    decreases HandlerRank(h.pc)
  {
    if h.pc != Over {
      HandlerRankDrops(s, h, env);
      StaysPastNumbering(s, h, At(env, h.pc), env.hotelJoin);
      N.HandlerStepNumbers(s, h, At(env, h.pc), r);
      NoMoreNumbers(NextHandlerStore(s, h, At(env, h.pc)), NextHandler(s, h, At(env, h.pc), env.hotelJoin), env, r);
    }
  }

  /** What a redelivered confirmation needs in order to draw another number. */
  predicate Rebooks(docs: Docs, service: Service, requestId: string, reservationId: string, env: HandlerEnv)
    requires requestId in docs
  {
    var d := Confirmed(docs[requestId], service, reservationId);
    && env.replies(Save) == Ok && Joins(env.hotelJoin, service, d.completedSteps)
    && env.replies(AggFind) == Ok && !Incomplete(d)
    && env.replies(AggUpdate) != Lost && !BookingIdTaken(docs, requestId, env.bookingId)
  }

  /** A confirmation handled alone when its document already carries a number: it replaces the number exactly if its
      save and its read are acknowledged, its service's constant is met, the ids are complete, and its update is
      neither lost nor refused. That the booking is finished is not asked. */
  lemma RedeliveryRebooksIff(s: Store, service: Service, requestId: string, reservationId: string, env: HandlerEnv)
    requires requestId in s.docs && s.docs[requestId].bookingId.Some?
             && s.docs[requestId].bookingId != Some(env.bookingId)
    ensures var docs' := HandleAlone(s, NewHandler(service, requestId, reservationId), env).0.docs;
            && requestId in docs'
            && (docs'[requestId].bookingId != s.docs[requestId].bookingId <==>
                  Rebooks(s.docs, service, requestId, reservationId, env))
            && (Rebooks(s.docs, service, requestId, reservationId, env) ==>
                  docs'[requestId].bookingId == Some(env.bookingId))
  {
    var h := NewHandler(service, requestId, reservationId);
    OneMore(s, h, s, h, env);
    var s1, h1 := NextHandlerStore(s, h, At(env, Save)), NextHandler(s, h, At(env, Save), env.hotelJoin);
    N.HandlerStepNumbers(s, h, At(env, Save), requestId);
    if env.replies(Save) != Ok {
      NoMoreNumbers(s1, h1, env, requestId);
    } else {
      assert s1.docs[requestId] == Confirmed(s.docs[requestId], service, reservationId);
      FromSave(s1, h1, env);
      SameTaken(s.docs, service, requestId, reservationId, env.bookingId);
    }
  }

  lemma SameTaken(docs: Docs, service: Service, requestId: string, reservationId: string, bookingId: string)
    ensures BookingIdTaken(SaveConfirmed(docs, service, requestId, reservationId), requestId, bookingId) <==>
            BookingIdTaken(docs, requestId, bookingId)
  {
    var docs' := SaveConfirmed(docs, service, requestId, reservationId);
    assert forall r :: r != requestId ==> (r in docs' <==> r in docs) && (r in docs ==> docs'[r] == docs[r]);
  }

  lemma FromSave(s: Store, h: Handler, env: HandlerEnv)
    requires h.pc == CountConfirm && h.requestId in s.docs
    ensures var docs' := HandleAlone(s, h, env).0.docs;
            && h.requestId in docs'
            && docs'[h.requestId].bookingId ==
               if h.joined && env.replies(AggFind) == Ok && !Incomplete(s.docs[h.requestId])
                  && env.replies(AggUpdate) != Lost && !BookingIdTaken(s.docs, h.requestId, env.bookingId)
               then Some(env.bookingId) else s.docs[h.requestId].bookingId
  {
    OneMore(s, h, s, h, env);
    var s2, h2 := NextHandlerStore(s, h, At(env, CountConfirm)), h.(pc := TouchConfirm);
    OneMore(s, h, s2, h2, env);
    var s3, h3 := NextHandlerStore(s2, h2, At(env, TouchConfirm)),
      NextHandler(s2, h2, At(env, TouchConfirm), env.hotelJoin);
    assert s3.docs == s.docs;
    if h.joined {
      FromRead(s3, h3, env);
    } else {
      NoMoreNumbers(s3, h3, env, h.requestId);
    }
  }

  lemma FromRead(s: Store, h: Handler, env: HandlerEnv)
    requires h.pc == AggFind && h.requestId in s.docs
    ensures var docs' := HandleAlone(s, h, env).0.docs;
            && h.requestId in docs'
            && docs'[h.requestId].bookingId ==
               if env.replies(AggFind) == Ok && !Incomplete(s.docs[h.requestId])
                  && env.replies(AggUpdate) != Lost && !BookingIdTaken(s.docs, h.requestId, env.bookingId)
               then Some(env.bookingId) else s.docs[h.requestId].bookingId
  {
    OneMore(s, h, s, h, env);
    var h1 := NextHandler(s, h, At(env, AggFind), env.hotelJoin);
    assert NextHandlerStore(s, h, At(env, AggFind)) == s;
    if h1.pc == AggUpdate {
      FromUpdate(s, h1, env);
    } else {
      NoMoreNumbers(s, h1, env, h.requestId);
    }
  }

  lemma FromUpdate(s: Store, h: Handler, env: HandlerEnv)
    requires h.pc == AggUpdate && h.requestId in s.docs
    ensures var docs' := HandleAlone(s, h, env).0.docs;
            && h.requestId in docs'
            && docs'[h.requestId].bookingId ==
               if env.replies(AggUpdate) != Lost && !BookingIdTaken(s.docs, h.requestId, env.bookingId)
               then Some(env.bookingId) else s.docs[h.requestId].bookingId
  {
    OneMore(s, h, s, h, env);
    N.HandlerStepNumbers(s, h, At(env, AggUpdate), h.requestId);
    NoMoreNumbers(NextHandlerStore(s, h, At(env, AggUpdate)), NextHandler(s, h, At(env, AggUpdate), env.hotelJoin), env,
                  h.requestId);
  }

  // ---- A handler that goes on alone is one of the interleavings ----

  /** From after its save, letting one handler go on to its end by itself is a trace. */
  lemma {:induction false} HandlerIsATrace(now: nat, before: seq<Action>, i: nat, env: HandlerEnv, w: World, s': Store,
      h': Handler)
    returns (trace: seq<Action>)
    requires w == Exec(now, before, env.hotelJoin) && i in w.handlers && w.handlers[i].pc != Save
    requires (s', h') == HandleAlone(w.store, w.handlers[i], env)
    ensures var w' := Exec(now, trace, env.hotelJoin);
            w'.store == s' && w'.handlers == w.handlers[i := h'] && w'.runs == w.runs && w'.saves == w.saves
    decreases HandlerRank(w.handlers[i].pc)
  {
    if w.handlers[i].pc == Over {
      trace := before;
      assert w.handlers[i := h'] == w.handlers;
    } else {
      var t, w1 := FirstOfHandler(now, before, i, env, w);
      trace := HandlerIsATrace(now, t, i, env, w1, s', h');
      assert w1.handlers[i := h'] == w.handlers[i := h'];
    }
  }

  lemma FirstOfHandler(now: nat, before: seq<Action>, i: nat, env: HandlerEnv, w: World)
      returns (trace: seq<Action>, w1: World)
    requires w == Exec(now, before, env.hotelJoin) && i in w.handlers && w.handlers[i].pc != Save
             && w.handlers[i].pc != Over
    ensures w1 == Exec(now, trace, env.hotelJoin) && i in w1.handlers && w1.handlers[i].pc != Save
    ensures w1.handlers == w.handlers[i := w1.handlers[i]] && w1.runs == w.runs && w1.saves == w.saves
    ensures HandlerRank(w1.handlers[i].pc) < HandlerRank(w.handlers[i].pc)
    ensures HandleAlone(w.store, w.handlers[i], env) == HandleAlone(w1.store, w1.handlers[i], env)
  {
    var h := w.handlers[i];
    var action := Proceed(i, At(env, h.pc));
    HandlerRankDrops(w.store, h, env);
    L.Extend(now, before, action, env.hotelJoin);
    trace := before + [action];
    w1 := Exec(now, trace, env.hotelJoin);
    NeverSavesAgain(w.store, h, At(env, h.pc), env.hotelJoin);
  }

  lemma NeverSavesAgain(s: Store, h: Handler, choice: Choice, hotelJoin: seq<string>)
    requires h.pc != Save
    ensures NextHandler(s, h, choice, hotelJoin).pc != Save
  {
  }

  /** A confirmation delivered and saved, with the save acknowledged. */
  lemma DeliverAndSave(now: nat, before: seq<Action>, hotelJoin: seq<string>, w: World, i: nat, service: Service,
      requestId: string, reservationId: string)
    returns (trace: seq<Action>)
    requires w == Exec(now, before, hotelJoin) && i !in w.handlers && requestId in w.store.docs
    ensures var w' := Exec(now, trace, hotelJoin);
            var docs' := SaveConfirmed(w.store.docs, service, requestId, reservationId);
            var joined := Joins(hotelJoin, service, docs'[requestId].completedSteps);
            && w'.store == w.store.(docs := docs') && w'.runs == w.runs
            && w'.handlers == w.handlers[i := NewHandler(service, requestId, reservationId).(pc := CountConfirm,
                                                                                             joined := joined)]
            && w'.saves == w.saves + [Saved(i, service, requestId, true, joined)]
    ensures L.AllWithin(before, 1, true, false) ==> L.AllWithin(trace, 1, true, false)
  {
    var a, b := Deliver(i, service, requestId, reservationId), Proceed(i, Choice(Ok, "", C.OfLock));
    L.Extend(now, before, a, hotelJoin);
    L.Extend(now, before + [a], b, hotelJoin);
    trace := before + [a] + [b];
    var h0 := NewHandler(service, requestId, reservationId);
    var h1 := NextHandler(w.store, h0, Choice(Ok, "", C.OfLock), hotelJoin);
    assert w.handlers[i := h0][i := h1] == w.handlers[i := h1];
  }

  // ---- Three confirmations ----

  function FirstTwo(d: Doc, a: Service, x: string, b: Service, y: string): Doc {
    Confirmed(Confirmed(d, a, x), b, y)
  }

  /** A new document confirmed by two services is not joined by anyone, whatever the hotel's constant. */
  lemma FirstTwoDoNotJoin(userId: string, totalAmount: real, a: Service, x: string, b: Service, y: string,
      hotelJoin: seq<string>, service: Service)
    requires KnownJoin(hotelJoin)
    ensures var d := FirstTwo(NewDoc(userId, totalAmount), a, x, b, y);
            Sound(d) && !Joins(hotelJoin, service, d.completedSteps)
  {
    var d0 := NewDoc(userId, totalAmount);
    NewDocSound(userId, totalAmount);
    ConfirmedIsSound(d0, a, x);
    ConfirmedIsSound(Confirmed(d0, a, x), b, y);
    var d := FirstTwo(d0, a, x, b, y);
    var c := if a != Flight && b != Flight then Flight else if a != Hotel && b != Hotel then Hotel else Car;
    assert ReservationId(d, c).None?;
    IdsMeanSteps(d);
    StepsTell(d);
  }

  /** Confirmed by the third, it has all ids and all three steps. */
  lemma ThirdCompletes(userId: string, totalAmount: real, a: Service, x: string, b: Service, y: string, c: Service,
      z: string)
    requires a != b && a != c && b != c && x != "" && y != "" && z != ""
    ensures var d := Confirmed(FirstTwo(NewDoc(userId, totalAmount), a, x, b, y), c, z);
            Sound(d) && AllConfirmed(d) && !Incomplete(d)
  {
    FirstTwoDoNotJoin(userId, totalAmount, a, x, b, y, SHARED_JOIN, c);
    var d := FirstTwo(NewDoc(userId, totalAmount), a, x, b, y);
    ConfirmedIsSound(d, c, z);
    AllThreeIds(NewDoc(userId, totalAmount), a, x, b, y, c, z);
    IdsMeanSteps(Confirmed(d, c, z));
  }

  lemma AllThreeIds(d: Doc, a: Service, x: string, b: Service, y: string, c: Service, z: string)
    requires a != b && a != c && b != c && x != "" && y != "" && z != ""
    ensures var d3 := Confirmed(FirstTwo(d, a, x, b, y), c, z);
            !Incomplete(d3) && forall service :: ReservationId(d3, service).Some?
  {
    match a case Flight => case Hotel => case Car =>
  }

  /** A launched request whose three confirmations were saved in the order given, each by a handler of its own. */
  predicate ThreeSaved(w: World, hotelJoin: seq<string>, requestId: string, userId: string, totalAmount: real,
                       a: Service, x: string, b: Service, y: string, c: Service, z: string)
  {
    var d := Confirmed(FirstTwo(NewDoc(userId, totalAmount), a, x, b, y), c, z);
    && w.store.docs == map[requestId := d] && w.store.notes == []
    && w.handlers.Keys == {0, 1, 2}
    && w.saves == [Saved(0, a, requestId, true, false), Saved(1, b, requestId, true, false),
                   Saved(2, c, requestId, true, Joins(hotelJoin, c, d.completedSteps))]
    && w.handlers[0] == NewHandler(a, requestId, x).(pc := CountConfirm)
    && w.handlers[1] == NewHandler(b, requestId, y).(pc := CountConfirm)
    && w.handlers[2] == NewHandler(c, requestId, z).(pc := CountConfirm,
                                                     joined := Joins(hotelJoin, c, d.completedSteps))
  }

  /** One more confirmation of the only document. */
  lemma OneMoreSaved(now: nat, before: seq<Action>, hotelJoin: seq<string>, w: World, i: nat, service: Service,
      requestId: string,
                     reservationId: string, d: Doc, joined: bool)
    returns (trace: seq<Action>, w': World)
    requires w == Exec(now, before, hotelJoin) && i !in w.handlers && w.store.docs == map[requestId := d]
    requires joined == Joins(hotelJoin, service, Confirmed(d, service, reservationId).completedSteps)
    ensures w' == Exec(now, trace, hotelJoin)
    ensures w'.store.docs == map[requestId := Confirmed(d, service, reservationId)]
    ensures w'.store.notes == w.store.notes && w'.store.published == w.store.published
    ensures w'.handlers == w.handlers[i := NewHandler(service, requestId, reservationId).(pc := CountConfirm,
                                                                                          joined := joined)]
    ensures w'.saves == w.saves + [Saved(i, service, requestId, true, joined)]
    ensures L.AllWithin(before, 1, true, false) ==> L.AllWithin(trace, 1, true, false)
  {
    trace := DeliverAndSave(now, before, hotelJoin, w, i, service, requestId, reservationId);
    w' := Exec(now, trace, hotelJoin);
  }

  lemma TwoSaved(now: nat, hotelJoin: seq<string>, requestId: string, userId: string, totalAmount: real,
                 a: Service, x: string, b: Service, y: string)
    returns (trace: seq<Action>, w: World)
    requires KnownJoin(hotelJoin)
    ensures w == Exec(now, trace, hotelJoin)
    ensures w.store.docs == map[requestId := FirstTwo(NewDoc(userId, totalAmount), a, x, b, y)]
    ensures w.store.notes == [] && w.store.published == Events(requestId, 3)
    ensures w.handlers == map[0 := NewHandler(a, requestId, x).(pc := CountConfirm),
                              1 := NewHandler(b, requestId, y).(pc := CountConfirm)]
    ensures w.saves == [Saved(0, a, requestId, true, false), Saved(1, b, requestId, true, false)]
    ensures L.AllWithin(trace, 1, true, false)
  {
    var d0 := NewDoc(userId, totalAmount);
    var t0 := L.LaunchedAlone(now, requestId, userId, totalAmount, hotelJoin);
    assert forall k :: 0 <= k < |t0| ==> L.Within(t0[k], 1, true, true);
    FirstTwoDoNotJoin(userId, totalAmount, a, x, a, x, hotelJoin, a);
    ConfirmedTwice(d0, a, x);
    var t1, w1 := OneMoreSaved(now, t0, hotelJoin, Exec(now, t0, hotelJoin), 0, a, requestId, x, d0, false);
    FirstTwoDoNotJoin(userId, totalAmount, a, x, b, y, hotelJoin, b);
    trace, w := OneMoreSaved(now, t1, hotelJoin, w1, 1, b, requestId, y, Confirmed(d0, a, x), false);
  }

  /** The three confirmations of a launched request, in any order of the services, from the initial world. */
  lemma ThreeSavedIsReached(now: nat, hotelJoin: seq<string>, requestId: string, userId: string, totalAmount: real,
                            a: Service, x: string, b: Service, y: string, c: Service, z: string)
    returns (trace: seq<Action>)
    requires KnownJoin(hotelJoin) && a != b && a != c && b != c
    ensures ThreeSaved(Exec(now, trace, hotelJoin), hotelJoin, requestId, userId, totalAmount, a, x, b, y, c, z)
    ensures Exec(now, trace, hotelJoin).store.published == Events(requestId, 3)
    ensures L.AllWithin(trace, 1, true, false)
  {
    var t, w := TwoSaved(now, hotelJoin, requestId, userId, totalAmount, a, x, b, y);
    var d := FirstTwo(NewDoc(userId, totalAmount), a, x, b, y);
    var joined := Joins(hotelJoin, c, Confirmed(d, c, z).completedSteps);
    var w3;
    trace, w3 := OneMoreSaved(now, t, hotelJoin, w, 2, c, requestId, z, d, joined);
  }

  lemma ConfirmedTwice(d: Doc, a: Service, x: string)
    ensures Confirmed(Confirmed(d, a, x), a, x) == Confirmed(d, a, x)
  {
  }

  /** A handler that does not join ends without having changed a document or told the client anything. */
  lemma UnjoinedEnds(s: Store, h: Handler, env: HandlerEnv)
    requires h.pc == CountConfirm && !h.joined
    ensures var (s', h') := HandleAlone(s, h, env);
            s'.docs == s.docs && s'.notes == s.notes && s'.published == s.published && h' == h.(pc := Over)
  {
    OneMore(s, h, s, h, env);
    var s2, h2 := NextHandlerStore(s, h, At(env, CountConfirm)), h.(pc := TouchConfirm);
    OneMore(s, h, s2, h2, env);
    var s3 := NextHandlerStore(s2, h2, At(env, TouchConfirm));
    assert HandleAlone(s3, h.(pc := Over), env) == (s3, h.(pc := Over));
  }

  lemma UnjoinedIsATrace(now: nat, before: seq<Action>, i: nat, env: HandlerEnv, w: World) returns (trace: seq<Action>)
    requires w == Exec(now, before, env.hotelJoin) && i in w.handlers && w.handlers[i].pc == CountConfirm
             && !w.handlers[i].joined
    ensures var w' := Exec(now, trace, env.hotelJoin);
            && w'.store.docs == w.store.docs && w'.store.notes == w.store.notes
               && w'.store.published == w.store.published
            && w'.handlers == w.handlers[i := w.handlers[i].(pc := Over)] && w'.saves == w.saves
  {
    var (s', h') := HandleAlone(w.store, w.handlers[i], env);
    UnjoinedEnds(w.store, w.handlers[i], env);
    trace := HandlerIsATrace(now, before, i, env, w, s', h');
  }

  /** What a stranded request looks like: all three reservations confirmed, all handlers over, nobody told. */
  predicate StrandedFor(w: World, requestId: string) {
    && AllIds(w.store.docs, requestId) && w.store.docs[requestId].bookingId.None?
       && w.store.docs[requestId].status == PENDING
    && w.store.notes == [] && w.store.published == Events(requestId, 3)
    && w.handlers.Keys == {0, 1, 2} && forall i :: i in w.handlers ==> w.handlers[i].pc == Over
  }

  const PLAIN: HandlerEnv := HandlerEnv(pc => Ok, "", [], HOTEL_JOIN)

  /** The hotel's confirmation last, with the constants as the source has them: reached from the initial world, with
      every command acknowledged, are three confirmations each saved once, three handlers that are over, and no
      booking. */
  lemma HotelLastIsReached(now: nat, requestId: string, userId: string, totalAmount: real, x: string, y: string,
      z: string)
    requires x != "" && y != "" && z != ""
    ensures exists trace :: var w := Exec(now, trace, HOTEL_JOIN);
              OnceEach(w.saves, requestId, 0, 1, 2) && w.saves[2].service == Hotel && StrandedFor(w, requestId)
  {
    var t := ThreeSavedIsReached(now, HOTEL_JOIN, requestId, userId, totalAmount, Flight, x, Car, y, Hotel, z);
    var w := Exec(now, t, HOTEL_JOIN);
    HotelLastDocument(userId, totalAmount, x, y, z);
    var trace := AllThreeEnd(now, t, w);
    assert OnceEach(w.saves, requestId, 0, 1, 2);
    assert StrandedFor(Exec(now, trace, HOTEL_JOIN), requestId);
  }

  lemma HotelLastDocument(userId: string, totalAmount: real, x: string, y: string, z: string)
    requires x != "" && y != "" && z != ""
    ensures var d := Confirmed(FirstTwo(NewDoc(userId, totalAmount), Flight, x, Car, y), Hotel, z);
            && !Joins(HOTEL_JOIN, Hotel, d.completedSteps) && d.bookingId.None? && d.status == PENDING
            && forall service :: ReservationId(d, service).Some?
    ensures {Flight, Car, Hotel} == ALL_SERVICES
  {
    ThirdCompletes(userId, totalAmount, Flight, x, Car, y, Hotel, z);
    var d := Confirmed(FirstTwo(NewDoc(userId, totalAmount), Flight, x, Car, y), Hotel, z);
    StepsTell(d);
    IdsMeanSteps(d);
  }

  lemma AllThreeEnd(now: nat, before: seq<Action>, w: World) returns (trace: seq<Action>)
    requires w == Exec(now, before, HOTEL_JOIN) && w.handlers.Keys == {0, 1, 2}
    requires forall i :: i in w.handlers ==> w.handlers[i].pc == CountConfirm && !w.handlers[i].joined
    ensures var w' := Exec(now, trace, HOTEL_JOIN);
            && w'.store.docs == w.store.docs && w'.store.notes == w.store.notes
               && w'.store.published == w.store.published
            && w'.saves == w.saves && w'.handlers.Keys == {0, 1, 2} && forall i :: i in w'.handlers ==>
                 w'.handlers[i].pc == Over
  {
    var t0 := UnjoinedIsATrace(now, before, 0, PLAIN, w);
    var w0 := Exec(now, t0, HOTEL_JOIN);
    var t1 := UnjoinedIsATrace(now, t0, 1, PLAIN, w0);
    var w1 := Exec(now, t1, HOTEL_JOIN);
    trace := UnjoinedIsATrace(now, t1, 2, PLAIN, w1);
  }

  // ---- A redelivery from the initial world ----

  function Drawing(number: string): HandlerEnv {
    HandlerEnv(pc => Ok, number, [C.OfLock, C.OfActive, C.OfSteps, C.OfPending, C.OfMeta], SHARED_JOIN)
  }

  lemma DrawingIsAcknowledged(number: string)
    ensures Acknowledged(Drawing(number))
  {
    assert multiset([C.OfLock, C.OfActive, C.OfSteps, C.OfPending, C.OfMeta]) == multiset(C.ALL_DELETIONS);
  }

  /** A joined handler of the only document goes on to its end. */
  lemma JoinedIsATrace(now: nat, before: seq<Action>, i: nat, number: string, requestId: string, d: Doc, w: World)
    returns (trace: seq<Action>)
    requires w == Exec(now, before, SHARED_JOIN) && i in w.handlers && w.handlers[i].pc == CountConfirm
             && w.handlers[i].joined
    requires w.handlers[i].requestId == requestId && w.store.docs == map[requestId := d] && !Incomplete(d)
    ensures var w' := Exec(now, trace, SHARED_JOIN);
            && w'.store.docs == map[requestId := Finalized(d, number)]
            && w'.store.notes == w.store.notes + [BookingConfirmed(requestId, number)]
            && w'.handlers.Keys == w.handlers.Keys && w'.saves == w.saves
  {
    var env := Drawing(number);
    var (s', h') := HandleAlone(w.store, w.handlers[i], env);
    SoleJoinedGoesOn(w.store, w.handlers[i], number, requestId, d);
    trace := HandlerIsATrace(now, before, i, env, w, s', h');
    assert w.handlers[i := h'].Keys == w.handlers.Keys;
  }

  lemma SoleJoinedGoesOn(s: Store, h: Handler, number: string, requestId: string, d: Doc)
    requires h.pc == CountConfirm && h.joined && h.requestId == requestId && s.docs == map[requestId := d]
             && !Incomplete(d)
    ensures var s' := HandleAlone(s, h, Drawing(number)).0;
            s'.docs == map[requestId := Finalized(d, number)]
            && s'.notes == s.notes + [BookingConfirmed(requestId, number)]
  {
    DrawingIsAcknowledged(number);
    JoinedGoesOn(s, h, Drawing(number));
  }

  /** The booking of a request whose three confirmations were saved, finished with a first number. */
  lemma FinishedIsReached(now: nat, requestId: string, userId: string, totalAmount: real, x: string, y: string,
      z: string, number: string)
    returns (trace: seq<Action>, d: Doc)
    requires x != "" && y != "" && z != ""
    ensures var w := Exec(now, trace, SHARED_JOIN);
            && w.store.docs == map[requestId := Finalized(d, number)] && !Incomplete(d)
            && d == Confirmed(FirstTwo(NewDoc(userId, totalAmount), Flight, x, Hotel, y), Car, z)
            && w.store.notes == [BookingConfirmed(requestId, number)] && w.handlers.Keys == {0, 1, 2}
            && OnceEach(w.saves, requestId, 0, 1, 2) && |w.saves| == 3 && w.saves[2].service == Car
  {
    var t := ThreeSavedIsReached(now, SHARED_JOIN, requestId, userId, totalAmount, Flight, x, Hotel, y, Car, z);
    var w := Exec(now, t, SHARED_JOIN);
    d := w.store.docs[requestId];
    ThirdCompletes(userId, totalAmount, Flight, x, Hotel, y, Car, z);
    StepsTell(d);
    trace := JoinedIsATrace(now, t, 2, number, requestId, d, w);
    assert {Flight, Hotel, Car} == ALL_SERVICES;
  }

  /** The failing input, from the initial world: one request, each confirmation saved once, one of them delivered again.
      The client is told two numbers, and the document carries the second. */
  lemma RedeliveryIsReached(now: nat, requestId: string, userId: string, totalAmount: real, x: string, y: string,
      z: string,
                            first: string, second: string)
    requires x != "" && y != "" && z != ""
    ensures exists trace :: var w := Exec(now, trace, SHARED_JOIN);
              && w.store.notes == [BookingConfirmed(requestId, first), BookingConfirmed(requestId, second)]
              && requestId in w.store.docs && w.store.docs[requestId].bookingId == Some(second)
              && |w.saves| == 4 && w.saves[3].service == w.saves[2].service
  {
    var t, d := FinishedIsReached(now, requestId, userId, totalAmount, x, y, z, first);
    var trace := Redelivered(now, t, requestId, Finalized(d, first), z, second, Exec(now, t, SHARED_JOIN));
    assert Exec(now, trace, SHARED_JOIN).store.docs[requestId].bookingId == Some(second);
  }

  lemma Redelivered(now: nat, before: seq<Action>, requestId: string, d: Doc, z: string, number: string, w: World)
    returns (trace: seq<Action>)
    requires w == Exec(now, before, SHARED_JOIN) && w.store.docs == map[requestId := d] && w.handlers.Keys == {0, 1, 2}
    requires z != "" && !Incomplete(d) && d.completedSteps == FINAL_STEPS
    ensures var w' := Exec(now, trace, SHARED_JOIN);
            && requestId in w'.store.docs && w'.store.docs[requestId].bookingId == Some(number)
            && w'.store.notes == w.store.notes + [BookingConfirmed(requestId, number)]
            && |w'.saves| == |w.saves| + 1 && w.saves <= w'.saves && w'.saves[|w.saves|].service == Car
  {
    var d1 := Confirmed(d, Car, z);
    FinalJoins(d, z);
    var t1, w1 := OneMoreSaved(now, before, SHARED_JOIN, w, 3, Car, requestId, z, d, true);
    trace := JoinedIsATrace(now, t1, 3, number, requestId, d1, w1);
  }

  lemma FinalJoins(d: Doc, z: string)
    requires z != "" && !Incomplete(d) && d.completedSteps == FINAL_STEPS
    ensures var d' := Confirmed(d, Car, z); !Incomplete(d') && Joins(SHARED_JOIN, Car, d'.completedSteps)
  {
    assert FINAL_STEPS[0] == FLIGHT_CONFIRMED && FINAL_STEPS[1] == HOTEL_CONFIRMED && FINAL_STEPS[2] == CAR_CONFIRMED;
  }
}
