/** The Redis pending queue agrees with the documents over every interleaving. */
module SagaQueue {
  import opened SagaTypes
  import opened SagaState
  import opened SagaProtocol
  import opened SagaDocuments
  import opened SagaLaunch
  import C = CoordinatorModel

  predicate IsPending(docs: Docs, requestId: string) {
    requestId in docs && docs[requestId].status == PENDING
  }

  predicate QueuedOk(s: Store, r: Run) {
    r.created && r.queuedAt.Some? && IsPending(s.docs, r.requestId) ==>
      r.requestId in s.coord.pending && s.coord.pending[r.requestId] == r.queuedAt.value
  }

  /** A handler takes a request off the queue only after its document left PENDING. */
  predicate HandlerPast(docs: Docs, h: Handler) {
    PastWrite(h.pc) ==> h.requestId in docs && docs[h.requestId].status != PENDING
  }

  ghost predicate QueueInv(w: World) {
    && (forall i :: i in w.runs ==> QueuedOk(w.store, w.runs[i]))
    && (forall i :: i in w.handlers ==> HandlerPast(w.store.docs, w.handlers[i]))
  }

  /** Only Enqueue touches the queue, and a document that is PENDING after a run's command was so before or is new. */
  lemma RunStepQueue(s: Store, r: Run, reply: Reply)
    ensures var (s', r') := RunStep(s, r, reply);
            && s'.coord.pending == (if r.pc == Enqueue then s.coord.pending[r.requestId := s.coord.now]
                                    else s.coord.pending)
            && (r.pc != Enqueue ==> r'.queuedAt == r.queuedAt)
            && (r.pc == Enqueue ==> r'.queuedAt == Some(s.coord.now))
  {
  }

  lemma RunStepPending(s: Store, r: Run, reply: Reply, id: string)
    requires IsPending(RunStep(s, r, reply).0.docs, id)
    ensures IsPending(s.docs, id) || (id !in s.docs && id == r.requestId && r.pc == Create)
  {
    match r.pc
    case Create =>
    case RecordError =>
    case _ => assert RunStep(s, r, reply).0.docs == s.docs;
  }

  lemma {:induction false} AdvanceKeepsQueued(w: World, i: nat, reply: Reply, j: nat)
    requires QueueInv(w) && LaunchInv(w) && i in w.runs && j in w.runs
    ensures var (s', r') := RunStep(w.store, w.runs[i], reply); QueuedOk(s', w.runs[i := r'][j])
  {
    var (s', r') := RunStep(w.store, w.runs[i], reply);
    var q, r := w.runs[j], w.runs[i];
    RunStepQueue(w.store, r, reply);
    RunStepIdentity(w.store, r, reply);
    assert RunOk(w.store, q) && RunOk(w.store, r) && QueuedOk(w.store, q);
    if IsPending(s'.docs, q.requestId) {
      RunStepPending(w.store, r, reply, q.requestId);
    }
  }

  lemma {:induction false} HandlerStepPending(s: Store, h: Handler, choice: Choice, hotelJoin: seq<string>, id: string)
    requires HandlerPast(s.docs, h)
    requires IsPending(HandlerStep(s, h, choice, hotelJoin).0.docs, id)
    ensures IsPending(s.docs, id)
    ensures var s' := HandlerStep(s, h, choice, hotelJoin).0;
            (id in s'.coord.pending <==> id in s.coord.pending) &&
            (id in s.coord.pending ==> s'.coord.pending[id] == s.coord.pending[id])
  {
    match h.pc
    case AggClean(todo) => { match choice.next case OfPending => case _ => }
    case AggDequeue =>
    case Save =>
    case AggUpdate =>
    case AggError =>
    case _ => assert HandlerStep(s, h, choice, hotelJoin).0.docs == s.docs;
  }

  lemma HandlerStepPast(s: Store, h: Handler, choice: Choice, hotelJoin: seq<string>)
    requires HandlerPast(s.docs, h) && (h.pc == AggUpdate ==> h.requestId in s.docs)
    ensures var (s', h') := HandlerStep(s, h, choice, hotelJoin); HandlerPast(s'.docs, h')
  {
    if h.pc != AggUpdate {
      var h' := HandlerStep(s, h, choice, hotelJoin).1;
      assert PastWrite(h'.pc) ==> PastWrite(h.pc) && HandlerStep(s, h, choice, hotelJoin).0.docs == s.docs;
    }
  }

  lemma {:induction false} ProceedKeepsQueue(w: World, i: nat, choice: Choice, hotelJoin: seq<string>)
    requires QueueInv(w) && DocsInv(w)
    ensures QueueInv(StepWorld(w, Proceed(i, choice), hotelJoin))
  {
    if i in w.handlers {
      var h := w.handlers[i];
      var w' := StepWorld(w, Proceed(i, choice), hotelJoin);
      OneActionGrows(w, Proceed(i, choice), hotelJoin);
      HandlerStepPast(w.store, h, choice, hotelJoin);
      forall j | j in w.runs ensures QueuedOk(w'.store, w.runs[j]) {
        assert QueuedOk(w.store, w.runs[j]);
        if IsPending(w'.store.docs, w.runs[j].requestId) {
          HandlerStepPending(w.store, h, choice, hotelJoin, w.runs[j].requestId);
        }
      }
      forall j | j in w.handlers && j != i ensures HandlerPast(w'.store.docs, w.handlers[j]) {
        assert HandlerPast(w.store.docs, w.handlers[j]);
      }
    }
  }

  lemma {:induction false} AdvanceKeepsQueue(w: World, i: nat, reply: Reply, hotelJoin: seq<string>)
    requires QueueInv(w) && DocsInv(w) && LaunchInv(w)
    ensures QueueInv(StepWorld(w, Advance(i, reply), hotelJoin))
  {
    if i in w.runs {
      var w' := StepWorld(w, Advance(i, reply), hotelJoin);
      OneActionGrows(w, Advance(i, reply), hotelJoin);
      forall j | j in w'.runs ensures QueuedOk(w'.store, w'.runs[j]) {
        AdvanceKeepsQueued(w, i, reply, j);
      }
      forall j | j in w.handlers ensures HandlerPast(w'.store.docs, w.handlers[j]) {
        assert HandlerPast(w.store.docs, w.handlers[j]);
      }
    }
  }

  lemma {:induction false} QueueAlways(now: nat, trace: seq<Action>, hotelJoin: seq<string>)
    ensures QueueInv(Exec(now, trace, hotelJoin))
  {
    if trace != [] {
      var before := trace[..|trace| - 1];
      QueueAlways(now, before, hotelJoin);
      LaunchAlways(now, before, hotelJoin);
      DocsAlways(now, before, hotelJoin);
      var w := Exec(now, before, hotelJoin);
      match trace[|trace| - 1]
      case Advance(i, reply) => AdvanceKeepsQueue(w, i, reply, hotelJoin);
      case Proceed(i, choice) => ProceedKeepsQueue(w, i, choice, hotelJoin);
      case _ =>
    }
  }

  /** A PENDING document whose creating run passed the enqueue step is in the queue with that step's time, so
      getStuckSagas(t) lists it exactly when it was enqueued at least t ago. */
  lemma PendingMeansQueued(now: nat, trace: seq<Action>, hotelJoin: seq<string>, i: nat, olderThanMs: int)
    requires var w := Exec(now, trace, hotelJoin);
             i in w.runs && w.runs[i].created && w.runs[i].queuedAt.Some?
             && IsPending(w.store.docs, w.runs[i].requestId)
    ensures var w := Exec(now, trace, hotelJoin);
            var r := w.runs[i];
            && r.requestId in w.store.coord.pending && w.store.coord.pending[r.requestId] == r.queuedAt.value
            && (r.requestId in C.Stuck(w.store.coord, olderThanMs) <==>
                  w.store.coord.now - r.queuedAt.value >= olderThanMs)
  {
    QueueAlways(now, trace, hotelJoin);
    assert QueuedOk(Exec(now, trace, hotelJoin).store, Exec(now, trace, hotelJoin).runs[i]);
  }
}
