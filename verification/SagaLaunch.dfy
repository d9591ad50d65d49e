/** At-most-once launch, and agreement of the Redis pending queue with the documents, over every interleaving. */
module SagaLaunch {
  import opened SagaTypes
  import opened SagaState
  import opened SagaProtocol
  import opened SagaDocuments

  /** The request events published for one request, in order. */
  function EventsOf(log: seq<(Event, string)>, requestId: string): seq<Event> {
    if log == [] then [] else
      var last := log[|log| - 1];
      EventsOf(log[..|log| - 1], requestId) + if last.1 == requestId then [last.0] else []
  }

  lemma EventsOfAppend(log: seq<(Event, string)>, event: Event, id: string, requestId: string)
    ensures EventsOf(log + [(event, id)], requestId) ==
            EventsOf(log, requestId) + if id == requestId then [event] else []
  {
    assert (log + [(event, id)])[..|log|] == log;
  }

  /** How far a run has published, by where it is. */
  predicate Progress(r: Run) {
    match r.pc
    case Find => !r.created
    case CheckActive => !r.created
    case Lock => !r.created
    case RateHit => !r.created
    case RateArm => !r.created
    case Create => !r.created
    case CacheActive => r.created && r.sent == 0 && r.queuedAt.None?
    case Enqueue => r.created && r.sent == 0 && r.queuedAt.None?
    case Emit(event) => r.created && r.sent == Index(event) && r.queuedAt.Some?
    case Count(event) => r.created && r.sent == Index(event) + 1 && r.queuedAt.Some?
    case Touch(event) => r.created && r.sent == Index(event) + 1 && r.queuedAt.Some?
    case _ => r.sent <= 3
  }

  predicate RunOk(s: Store, r: Run) {
    && Progress(r)
    && (!r.created ==> r.sent == 0 && r.queuedAt.None?)
    && (r.created ==> r.requestId in s.docs && r.sent <= 3
                      && EventsOf(s.published, r.requestId) == PUBLISH_ORDER[..r.sent])
    && (r.queuedAt.Some? ==> r.queuedAt.value <= s.coord.now)
  }

  ghost predicate AtMostOneCreator(runs: map<nat, Run>) {
    forall i, j | i in runs && j in runs && runs[i].created && runs[j].created ::
      runs[i].requestId == runs[j].requestId ==> i == j
  }

  ghost predicate HasCreator(runs: map<nat, Run>, requestId: string) {
    exists i :: i in runs && runs[i].created && runs[i].requestId == requestId
  }

  ghost predicate LaunchInv(w: World) {
    && (forall i :: i in w.runs ==> RunOk(w.store, w.runs[i]))
    && AtMostOneCreator(w.runs)
    && (forall r :: !HasCreator(w.runs, r) ==> EventsOf(w.store.published, r) == [])
  }

  /** A run's command only publishes for its own request, and only if it created the document. */
  lemma RunStepPublishes(s: Store, r: Run, reply: Reply, requestId: string)
    requires RunOk(s, r)
    ensures var s' := RunStep(s, r, reply).0;
            EventsOf(s'.published, requestId) == EventsOf(s.published, requestId)
            || (r.created && requestId == r.requestId)
  {
    match r.pc
    case Emit(event) => EventsOfAppend(s.published, event, r.requestId, requestId);
    case _ => assert RunStep(s, r, reply).0.published == s.published;
  }

  /** An event is published in its turn. */
  lemma EmitOk(s: Store, r: Run, reply: Reply)
    requires RunOk(s, r) && r.pc.Emit?
    ensures RunOk(RunStep(s, r, reply).0, RunStep(s, r, reply).1)
  {
    var event := r.pc.event;
    EventsOfAppend(s.published, event, r.requestId, r.requestId);
    assert PUBLISH_ORDER[Index(event)] == event;
    assert PUBLISH_ORDER[..r.sent + 1] == PUBLISH_ORDER[..r.sent] + [event];
  }

  /** Only Emit publishes, and no command of a run moves the clock. */
  lemma {:induction false} RunStepQuiet(s: Store, r: Run, reply: Reply)
    ensures var s' := RunStep(s, r, reply).0;
            s'.coord.now == s.coord.now && (!r.pc.Emit? ==> s'.published == s.published)
  {
    match r.pc
    case RecordError =>
    case Create =>
    case _ =>
  }

  /** What a run step changes of its own record. */
  lemma RunStepRecord(s: Store, r: Run, reply: Reply)
    requires RunOk(s, r) && !r.pc.Emit?
    ensures var r' := RunStep(s, r, reply).1;
            && r'.requestId == r.requestId && r'.sent == r.sent
            && (r.created ==> r'.created)
            && (r'.created && !r.created ==> r.pc == Create && r.requestId !in s.docs)
            && (r'.queuedAt != r.queuedAt ==> r.pc == Enqueue && r'.queuedAt == Some(s.coord.now))
  {
  }

  predicate BeforeCreate(pc: Pc) {
    pc.Find? || pc.CheckActive? || pc.Lock? || pc.RateHit? || pc.RateArm?
  }

  lemma ProgressBeforeCreate(s: Store, r: Run, reply: Reply)
    requires Progress(r) && BeforeCreate(r.pc) && r.sent == 0
    ensures Progress(RunStep(s, r, reply).1)
  {
  }

  predicate Publishing(pc: Pc) {
    pc.CacheActive? || pc.Enqueue? || pc.Count? || pc.Touch?
  }

  lemma ProgressPublishing(s: Store, r: Run, reply: Reply)
    requires Progress(r) && Publishing(r.pc) && r.sent <= 3
    ensures Progress(RunStep(s, r, reply).1)
  {
    if r.pc.Touch? {
      match r.pc.event case HotelRequested => case FlightRequested => case CarRequested =>
    }
  }

  lemma RunStepProgress(s: Store, r: Run, reply: Reply)
    requires Progress(r) && r.sent <= 3 && !r.pc.Emit?
    requires !r.created ==> r.sent == 0 && r.queuedAt.None?
    ensures Progress(RunStep(s, r, reply).1)
  {
    if BeforeCreate(r.pc) {
      ProgressBeforeCreate(s, r, reply);
    } else if Publishing(r.pc) {
      ProgressPublishing(s, r, reply);
    }
  }

  lemma NoEventsYet(w: World, r: string)
    requires LaunchInv(w) && r !in w.store.docs
    ensures EventsOf(w.store.published, r) == [] && !HasCreator(w.runs, r)
  {
    forall i | i in w.runs && w.runs[i].created ensures w.runs[i].requestId != r {
      assert RunOk(w.store, w.runs[i]);
    }
  }

  lemma {:induction false} RunStepOk(w: World, i: nat, reply: Reply)
    requires LaunchInv(w) && AllSound(w.store.docs) && i in w.runs
    ensures var (s', r') := RunStep(w.store, w.runs[i], reply); RunOk(s', r')
  {
    var r := w.runs[i];
    assert RunOk(w.store, r);
    if r.pc.Emit? {
      EmitOk(w.store, r, reply);
    } else {
      RunStepQuiet(w.store, r, reply);
      RunStepRecord(w.store, r, reply);
      RunStepProgress(w.store, r, reply);
      RunStepDocs(w.store, r, reply);
      assert w.store.docs.Keys <= RunStep(w.store, r, reply).0.docs.Keys;
      assert r.pc == Create && RunStep(w.store, r, reply).1.created ==>
               r.requestId in RunStep(w.store, r, reply).0.docs;
      if r.requestId !in w.store.docs {
        NoEventsYet(w, r.requestId);
      }
    }
  }

  /** What one command changes of a run that matters to other runs. */
  lemma {:induction false} RunStepIdentity(s: Store, r: Run, reply: Reply)
    requires RunOk(s, r)
    ensures var (s', r') := RunStep(s, r, reply);
            && r'.requestId == r.requestId && s'.coord.now == s.coord.now
            && (r.created ==> r'.created) && (r'.created && !r.created ==> r.requestId !in s.docs)
  {
    RunStepQuiet(s, r, reply);
    if !r.pc.Emit? {
      RunStepRecord(s, r, reply);
    }
  }

  /** The creators after a run's command. */
  lemma CreatorsAfter(w: World, i: nat, r': Run, id: string)
    requires i in w.runs && (w.runs[i].created ==> r'.created) && r'.requestId == w.runs[i].requestId
    requires !HasCreator(w.runs[i := r'], id)
    ensures !HasCreator(w.runs, id) && !(r'.created && r'.requestId == id)
  {
    var runs' := w.runs[i := r'];
    assert i in runs' && runs'[i] == r';
    forall j | j in w.runs && w.runs[j].created ensures w.runs[j].requestId != id {
      assert j != i ==> runs'[j] == w.runs[j];
    }
  }

  lemma {:induction false} AdvanceKeepsLaunch(w: World, i: nat, reply: Reply, hotelJoin: seq<string>)
    requires LaunchInv(w) && AllSound(w.store.docs)
    ensures LaunchInv(StepWorld(w, Advance(i, reply), hotelJoin))
  {
    if i in w.runs {
      var r := w.runs[i];
      var (s', r') := RunStep(w.store, r, reply);
      var runs' := w.runs[i := r'];
      assert RunOk(w.store, r);
      RunStepIdentity(w.store, r, reply);
      RunStepDocs(w.store, r, reply);
      RunStepOk(w, i, reply);
      if r.requestId !in w.store.docs {
        NoEventsYet(w, r.requestId);
      }
      AdvanceKeepsLaunchPart(w, i, s', r', reply);
    }
  }

  lemma {:induction false} AdvanceKeepsLaunchPart(w: World, i: nat, s': Store, r': Run, reply: Reply)
    requires LaunchInv(w) && i in w.runs && RunStep(w.store, w.runs[i], reply) == (s', r')
    requires RunOk(s', r') && r'.requestId == w.runs[i].requestId && s'.coord.now == w.store.coord.now
    requires DocsGrow(w.store.docs, s'.docs) && (w.runs[i].created ==> r'.created)
    requires r'.created && !w.runs[i].created ==> !HasCreator(w.runs, r'.requestId)
    ensures LaunchInv(w.(store := s', runs := w.runs[i := r']))
  {
    var runs' := w.runs[i := r'];
    forall j | j in runs' ensures RunOk(s', runs'[j]) {
      if j != i {
        assert RunOk(w.store, w.runs[j]) && RunOk(w.store, w.runs[i]);
        RunStepPublishes(w.store, w.runs[i], reply, w.runs[j].requestId);
      }
    }
    forall id | !HasCreator(runs', id) ensures EventsOf(s'.published, id) == [] {
      RunStepPublishes(w.store, w.runs[i], reply, id);
      CreatorsAfter(w, i, r', id);
    }
  }

  /** Steps that publish nothing and keep the documents keep the launch invariant. */
  lemma OthersKeepLaunch(w: World, w': World)
    requires LaunchInv(w)
    requires w'.runs == w.runs && w'.store.published == w.store.published && w'.store.coord.now >= w.store.coord.now
    requires DocsGrow(w.store.docs, w'.store.docs)
    ensures LaunchInv(w')
  {
    forall i | i in w'.runs ensures RunOk(w'.store, w'.runs[i]) {
      assert RunOk(w.store, w.runs[i]);
    }
  }

  lemma {:induction false} HandlerStepFrame(s: Store, h: Handler, choice: Choice, hotelJoin: seq<string>)
    ensures var s' := HandlerStep(s, h, choice, hotelJoin).0;
            s'.published == s.published && s'.coord.now == s.coord.now
  {
    match h.pc
    case AggClean(todo) => { match choice.next case OfLock => case _ => }
    case AggUpdate =>
    case _ =>
  }

  lemma StartKeepsLaunch(w: World, i: nat, requestId: string, userId: string, totalAmount: real, hotelJoin: seq<string>)
    requires LaunchInv(w)
    ensures LaunchInv(StepWorld(w, Start(i, requestId, userId, totalAmount), hotelJoin))
  {
    if i !in w.runs {
      var runs' := w.runs[i := NewRun(requestId, userId, totalAmount)];
      forall id | !HasCreator(runs', id) ensures !HasCreator(w.runs, id) {
        forall j | j in w.runs && w.runs[j].created ensures w.runs[j].requestId != id {
          assert runs'[j] == w.runs[j];
        }
      }
    }
  }

  lemma ActionKeepsLaunch(w: World, action: Action, hotelJoin: seq<string>)
    requires LaunchInv(w) && DocsInv(w)
    ensures LaunchInv(StepWorld(w, action, hotelJoin))
  {
    match action
    case Start(i, requestId, userId, totalAmount) => StartKeepsLaunch(w, i, requestId, userId, totalAmount, hotelJoin);
    case Advance(i, reply) => AdvanceKeepsLaunch(w, i, reply, hotelJoin);
    case Proceed(i, choice) =>
      OneActionGrows(w, action, hotelJoin);
      if i in w.handlers {
        HandlerStepFrame(w.store, w.handlers[i], choice, hotelJoin);
      }
      OthersKeepLaunch(w, StepWorld(w, action, hotelJoin));
    case _ =>
      OthersKeepLaunch(w, StepWorld(w, action, hotelJoin));
  }

  lemma {:induction false} LaunchAlways(now: nat, trace: seq<Action>, hotelJoin: seq<string>)
    ensures LaunchInv(Exec(now, trace, hotelJoin))
  {
    if trace != [] {
      var before := trace[..|trace| - 1];
      LaunchAlways(now, before, hotelJoin);
      DocsAlways(now, before, hotelJoin);
      ActionKeepsLaunch(Exec(now, before, hotelJoin), trace[|trace| - 1], hotelJoin);
    }
  }

  /** However runs, messages, lock expiry and deletion, crashes and lost acknowledgements interleave, at most one run
      per request gets past create, and what is published for a request is a prefix of HOTEL, FLIGHT, CAR. */
  lemma AtMostOnceLaunch(now: nat, trace: seq<Action>, hotelJoin: seq<string>, requestId: string)
    ensures AtMostOneCreator(Exec(now, trace, hotelJoin).runs)
    ensures EventsOf(Exec(now, trace, hotelJoin).store.published, requestId) <= PUBLISH_ORDER
  {
    LaunchAlways(now, trace, hotelJoin);
    var w := Exec(now, trace, hotelJoin);
    if i :| i in w.runs && w.runs[i].created && w.runs[i].requestId == requestId {
      assert RunOk(w.store, w.runs[i]);
    }
  }
}
