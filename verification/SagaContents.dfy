/** What the stores say about a request, over every interleaving: whose the documents are, and what the active cache
    answers. */
module SagaContents {
  import opened SagaTypes
  import opened SagaState
  import opened SagaProtocol
  import opened SagaDocuments
  import opened SagaLaunch
  import C = CoordinatorModel

  // ---- Whose a document is ----

  /** User and amount are those that call i of the request was made with. */
  predicate MadeBy(runs: map<nat, Run>, i: nat, requestId: string, userId: string, totalAmount: real) {
    i in runs && runs[i].requestId == requestId && runs[i].userId == userId && runs[i].totalAmount == totalAmount
  }

  ghost predicate MadeBySome(runs: map<nat, Run>, requestId: string, userId: string, totalAmount: real) {
    exists i :: MadeBy(runs, i, requestId, userId, totalAmount)
  }

  predicate CreatorsOwn(docs: Docs, r: Run) {
    r.created ==>
      r.requestId in docs && docs[r.requestId].userId == r.userId && docs[r.requestId].totalAmount == r.totalAmount
  }

  ghost predicate OwnersInv(w: World) {
    && (forall id :: id in w.store.docs ==>
          MadeBySome(w.runs, id, w.store.docs[id].userId, w.store.docs[id].totalAmount))
    && forall i :: i in w.runs ==> CreatorsOwn(w.store.docs, w.runs[i])
  }

  /** A new document is the run's; the others keep their owners. */
  lemma RunKeepsOwners(s: Store, r: Run, reply: Reply, id: string)
    ensures var docs' := NextStore(s, r, reply).docs;
            && (id in s.docs ==> id in docs')
            && (id in docs' ==>
                  (docs'[id].userId, docs'[id].totalAmount) ==
                  if id in s.docs then (s.docs[id].userId, s.docs[id].totalAmount) else (r.userId, r.totalAmount))
            && (id in docs' && id !in s.docs ==> id == r.requestId)
  {
    match r.pc
    case Create =>
    case RecordError =>
    case _ => OtherRunStep(s, r, reply);
  }

  lemma CreatedIsThere(s: Store, r: Run, reply: Reply)
    requires NextRun(s, r, reply).created && !r.created
    ensures r.requestId !in s.docs && r.requestId in NextStore(s, r, reply).docs
  {
  }

  lemma CreatedStays(s: Store, r: Run, reply: Reply)
    ensures r.created ==> NextRun(s, r, reply).created
  {
  }

  lemma HandlerKeepsOwners(s: Store, h: Handler, choice: Choice, id: string)
    ensures var docs' := NextHandlerStore(s, h, choice).docs;
            && (id in docs' <==> id in s.docs)
            && (id in docs' ==>
                  docs'[id].userId == s.docs[id].userId && docs'[id].totalAmount == s.docs[id].totalAmount)
  {
    match h.pc
    case Save =>
    case AggUpdate =>
    case AggError =>
    case _ => assert NextHandlerStore(s, h, choice).docs == s.docs;
  }

  lemma StillMadeBySome(runs: map<nat, Run>, i: nat, r: Run, id: string, userId: string, totalAmount: real)
    requires MadeBySome(runs, id, userId, totalAmount)
    requires i in runs ==> (r.requestId, r.userId, r.totalAmount) ==
                           (runs[i].requestId, runs[i].userId, runs[i].totalAmount)
    ensures MadeBySome(runs[i := r], id, userId, totalAmount)
  {
    var j :| MadeBy(runs, j, id, userId, totalAmount);
    assert MadeBy(runs[i := r], j, id, userId, totalAmount);
  }

  lemma AdvanceKeepsOwners(w: World, i: nat, reply: Reply, hotelJoin: seq<string>)
    requires OwnersInv(w) && i in w.runs
    ensures OwnersInv(StepWorld(w, Advance(i, reply), hotelJoin))
  {
    var r, r' := w.runs[i], NextRun(w.store, w.runs[i], reply);
    var docs' := NextStore(w.store, r, reply).docs;
    forall id | id in docs' ensures MadeBySome(w.runs[i := r'], id, docs'[id].userId, docs'[id].totalAmount) {
      RunKeepsOwners(w.store, r, reply, id);
      if id !in w.store.docs {
        assert MadeBy(w.runs, i, id, docs'[id].userId, docs'[id].totalAmount);
      }
      StillMadeBySome(w.runs, i, r', id, docs'[id].userId, docs'[id].totalAmount);
    }
    forall j | j in w.runs ensures CreatorsOwn(docs', w.runs[i := r'][j]) {
      assert CreatorsOwn(w.store.docs, w.runs[j]);
      RunKeepsOwners(w.store, r, reply, w.runs[j].requestId);
      if j == i && r'.created && !r.created {
        CreatedIsThere(w.store, r, reply);
      }
    }
  }

  lemma ProceedKeepsOwners(w: World, i: nat, choice: Choice, hotelJoin: seq<string>)
    requires OwnersInv(w) && i in w.handlers
    ensures OwnersInv(StepWorld(w, Proceed(i, choice), hotelJoin))
  {
    var docs' := NextHandlerStore(w.store, w.handlers[i], choice).docs;
    forall id | id in docs' ensures MadeBySome(w.runs, id, docs'[id].userId, docs'[id].totalAmount) {
      HandlerKeepsOwners(w.store, w.handlers[i], choice, id);
    }
    forall j | j in w.runs ensures CreatorsOwn(docs', w.runs[j]) {
      assert CreatorsOwn(w.store.docs, w.runs[j]);
      HandlerKeepsOwners(w.store, w.handlers[i], choice, w.runs[j].requestId);
    }
  }

  lemma StartKeepsOwners(w: World, i: nat, requestId: string, userId: string, totalAmount: real, hotelJoin: seq<string>)
    requires OwnersInv(w) && i !in w.runs
    ensures OwnersInv(StepWorld(w, Start(i, requestId, userId, totalAmount), hotelJoin))
  {
    var r := NewRun(requestId, userId, totalAmount);
    forall id | id in w.store.docs
      ensures MadeBySome(w.runs[i := r], id, w.store.docs[id].userId, w.store.docs[id].totalAmount)
    {
      StillMadeBySome(w.runs, i, r, id, w.store.docs[id].userId, w.store.docs[id].totalAmount);
    }
  }

  lemma {:induction false} OwnersAlways(now: nat, trace: seq<Action>, hotelJoin: seq<string>, w: World)
    requires w == Exec(now, trace, hotelJoin)
    ensures OwnersInv(w)
    decreases |trace|
  {
    if trace != [] {
      var before := trace[..|trace| - 1];
      var w0 := Exec(now, before, hotelJoin);
      OwnersAlways(now, before, hotelJoin, w0);
      match trace[|trace| - 1]
      case Start(i, requestId, userId, totalAmount) =>
        if i !in w0.runs { StartKeepsOwners(w0, i, requestId, userId, totalAmount, hotelJoin); }
      case Advance(i, reply) => if i in w0.runs { AdvanceKeepsOwners(w0, i, reply, hotelJoin); }
      case Proceed(i, choice) => if i in w0.handlers { ProceedKeepsOwners(w0, i, choice, hotelJoin); }
      case _ =>
    }
  }

  /** In every reachable world, a document has the user and the total amount of a call with its request id; and those of
      the call that created it, if one was told that it did. */
  lemma DocumentsAreTheirCallers(now: nat, trace: seq<Action>, hotelJoin: seq<string>, requestId: string)
    requires requestId in Exec(now, trace, hotelJoin).store.docs
    ensures var w := Exec(now, trace, hotelJoin);
            var d := w.store.docs[requestId];
            && (exists i :: i in w.runs && w.runs[i].requestId == requestId && w.runs[i].userId == d.userId
                            && w.runs[i].totalAmount == d.totalAmount)
            && (forall i :: i in w.runs && w.runs[i].requestId == requestId && w.runs[i].created ==>
                  w.runs[i].userId == d.userId && w.runs[i].totalAmount == d.totalAmount)
  {
    var w := Exec(now, trace, hotelJoin);
    OwnersAlways(now, trace, hotelJoin, w);
    var i :| MadeBy(w.runs, i, requestId, w.store.docs[requestId].userId, w.store.docs[requestId].totalAmount);
    forall j | j in w.runs ensures CreatorsOwn(w.store.docs, w.runs[j]) {
    }
  }

  // ---- What the active cache answers ----

  /** A cached request is PENDING, without a number, as a call of it was made, and for an hour at most. */
  ghost predicate CachedOk(w: World, id: string)
    requires id in w.store.coord.active
  {
    var e := w.store.coord.active[id];
    && e.value.bookingId == None && e.value.status == PENDING
    && MadeBySome(w.runs, id, e.value.userId, e.value.totalAmount)
    && e.expiry.Some? && e.expiry.value <= w.store.coord.now + 3_600_000
  }

  ghost predicate CacheInv(w: World) {
    forall id :: id in w.store.coord.active ==> CachedOk(w, id)
  }

  /** Only CacheActive puts anything in. */
  lemma RunCaches(s: Store, r: Run, reply: Reply)
    requires r.pc == CacheActive
    ensures NextStore(s, r, reply).coord.active ==
            s.coord.active[r.requestId := C.Timed(C.ActiveState(None, r.userId, PENDING, r.totalAmount),
                                                  Some(s.coord.now + 3_600_000))]
  {
  }

  lemma RunUncaches(s: Store, r: Run, reply: Reply)
    requires r.pc != CacheActive
    ensures NextStore(s, r, reply).coord.active == if r.pc == Uncache then s.coord.active - {r.requestId}
                                                   else s.coord.active
  {
    match r.pc
    case Lock =>
    case RateHit =>
    case RateArm =>
    case Count(event) =>
    case Touch(event) =>
    case PutMeta =>
    case TouchMeta =>
    case _ =>
  }

  /** No command of a run changes the time. */
  lemma RunOnCache(s: Store, r: Run, reply: Reply, id: string)
    requires id in NextStore(s, r, reply).coord.active
    ensures var c' := NextStore(s, r, reply).coord;
            && c'.now == s.coord.now
            && if r.pc == CacheActive && r.requestId == id
               then c'.active[id] == C.Timed(C.ActiveState(None, r.userId, PENDING, r.totalAmount),
                                             Some(s.coord.now + 3_600_000))
               else id in s.coord.active && c'.active[id] == s.coord.active[id]
  {
    RunStepQuiet(s, r, reply);
    if r.pc == CacheActive {
      RunCaches(s, r, reply);
    } else {
      RunUncaches(s, r, reply);
    }
  }

  lemma HandlerOnCache(s: Store, h: Handler, choice: Choice, id: string)
    requires id in NextHandlerStore(s, h, choice).coord.active
    ensures var c' := NextHandlerStore(s, h, choice).coord;
            c'.now == s.coord.now && id in s.coord.active && c'.active[id] == s.coord.active[id]
  {
    match h.pc
    case AggClean(todo) => { match choice.next case OfActive => case _ => }
    case _ =>
  }

  lemma StepKeepsCache(w: World, action: Action, hotelJoin: seq<string>)
    requires CacheInv(w)
    ensures CacheInv(StepWorld(w, action, hotelJoin))
  {
    var w' := StepWorld(w, action, hotelJoin);
    forall id | id in w'.store.coord.active ensures CachedOk(w', id) {
      match action
      case Start(i, requestId, userId, totalAmount) =>
        assert CachedOk(w, id);
        if i !in w.runs {
          StillMadeBySome(w.runs, i, NewRun(requestId, userId, totalAmount), id, w.store.coord.active[id].value.userId,
                          w.store.coord.active[id].value.totalAmount);
        }
      case Advance(i, reply) => if i in w.runs { AdvanceKeepsCached(w, i, reply, hotelJoin, id); }
                                else { assert CachedOk(w, id); }
      case Proceed(i, choice) =>
        if i in w.handlers { HandlerOnCache(w.store, w.handlers[i], choice, id); }
        assert CachedOk(w, id);
      case _ => assert CachedOk(w, id);
    }
  }

  lemma AdvanceKeepsCached(w: World, i: nat, reply: Reply, hotelJoin: seq<string>, id: string)
    requires CacheInv(w) && i in w.runs && id in StepWorld(w, Advance(i, reply), hotelJoin).store.coord.active
    ensures CachedOk(StepWorld(w, Advance(i, reply), hotelJoin), id)
  {
    var r, r' := w.runs[i], NextRun(w.store, w.runs[i], reply);
    RunOnCache(w.store, r, reply, id);
    if r.pc == CacheActive && r.requestId == id {
      assert MadeBy(w.runs, i, id, r.userId, r.totalAmount);
      StillMadeBySome(w.runs, i, r', id, r.userId, r.totalAmount);
    } else {
      assert CachedOk(w, id);
      StillMadeBySome(w.runs, i, r', id, w.store.coord.active[id].value.userId,
                      w.store.coord.active[id].value.totalAmount);
    }
  }

  lemma {:induction false} CacheAlways(now: nat, trace: seq<Action>, hotelJoin: seq<string>, w: World)
    requires w == Exec(now, trace, hotelJoin)
    ensures CacheInv(w)
    decreases |trace|
  {
    if trace != [] {
      var before := trace[..|trace| - 1];
      CacheAlways(now, before, hotelJoin, Exec(now, before, hotelJoin));
      StepKeepsCache(Exec(now, before, hotelJoin), trace[|trace| - 1], hotelJoin);
    }
  }

  predicate NotYetLocked(r: Run) {
    r.pc.Find? || r.pc.CheckActive? || r.pc.Lock? ==> !r.locked
  }

  lemma StaysNotYetLocked(s: Store, r: Run, reply: Reply)
    requires NotYetLocked(r)
    ensures NotYetLocked(NextRun(s, r, reply))
  {
    if r.pc.Touch? {
      match r.pc.event case HotelRequested => case FlightRequested => case CarRequested =>
    }
  }

  lemma {:induction false} LocksComeLater(now: nat, trace: seq<Action>, hotelJoin: seq<string>, w: World, i: nat)
    requires w == Exec(now, trace, hotelJoin) && i in w.runs
    ensures NotYetLocked(w.runs[i])
    decreases |trace|
  {
    if trace != [] {
      var before, action := trace[..|trace| - 1], trace[|trace| - 1];
      var w0 := Exec(now, before, hotelJoin);
      if i in w0.runs {
        LocksComeLater(now, before, hotelJoin, w0, i);
        if action.Advance? && action.run == i {
          StaysNotYetLocked(w0.store, w0.runs[i], action.reply);
        }
      }
    }
  }

  /** In every reachable world, a call that finds its request in the active cache answers PENDING, no number, and that
      the saga is in progress, and takes no lock; a call that does not goes on to the lock. */
  lemma ActiveCallsAreToldPending(now: nat, trace: seq<Action>, hotelJoin: seq<string>, i: nat, reply: Reply)
    requires i in Exec(now, trace, hotelJoin).runs && Exec(now, trace, hotelJoin).runs[i].pc == CheckActive
    ensures var w := Exec(now, trace, hotelJoin);
            var r' := StepWorld(w, Advance(i, reply), hotelJoin).runs[i];
            if w.runs[i].requestId in w.store.coord.active
            then r'.pc == Uncache && r'.status == Some(PENDING) && r'.bookingId == None
                 && r'.message == Some(InProgress(w.runs[i].requestId))
            else r'.pc == Lock
  {
    var w := Exec(now, trace, hotelJoin);
    CacheAlways(now, trace, hotelJoin, w);
    LocksComeLater(now, trace, hotelJoin, w, i);
    if w.runs[i].requestId in w.store.coord.active {
      assert CachedOk(w, w.runs[i].requestId);
    }
  }
}
