/** The join point of the three confirmations: which handler goes on to aggregate, over every interleaving. */
module SagaJoin {
  import opened SagaTypes
  import opened SagaState
  import opened SagaProtocol
  import opened SagaDocuments

  /** The services whose confirmation of one request has been saved. */
  function SavedServices(saves: seq<Saved>, requestId: string): set<Service> {
    set k | 0 <= k < |saves| && saves[k].requestId == requestId :: saves[k].service
  }

  const ALL_SERVICES: set<Service> := {Flight, Hotel, Car}

  lemma SavedServicesAppend(saves: seq<Saved>, x: Saved, requestId: string)
    ensures SavedServices(saves + [x], requestId) ==
            SavedServices(saves, requestId) + if x.requestId == requestId then {x.service} else {}
  {
    var more := saves + [x];
    assert forall k :: 0 <= k < |saves| ==> more[k] == saves[k];
    assert more[|saves|] == x;
  }

  /** Whether a service's constant can be met at all: the hotel's, as the source has it, cannot. */
  predicate CanJoin(hotelJoin: seq<string>, service: Service) {
    service == Hotel ==> hotelJoin == SHARED_JOIN
  }

  ghost predicate KnownJoin(hotelJoin: seq<string>) {
    hotelJoin == SHARED_JOIN || hotelJoin == HOTEL_JOIN
  }

  /** A save joins exactly when it is acknowledged, its service can join, and it completes or follows the three. */
  predicate JoinRule(hotelJoin: seq<string>, saves: seq<Saved>, k: nat)
    requires k < |saves|
  {
    var x := saves[k];
    x.joined <==> x.acked && CanJoin(hotelJoin, x.service) && SavedServices(saves[..k + 1], x.requestId) == ALL_SERVICES
  }

  predicate HasStep(docs: Docs, requestId: string, service: Service) {
    requestId in docs && StepOf(service) in docs[requestId].completedSteps
  }

  ghost predicate StepsMatch(docs: Docs, saves: seq<Saved>) {
    forall r, service :: HasStep(docs, r, service) <==> service in SavedServices(saves, r)
  }

  ghost predicate SaveBy(saves: seq<Saved>, i: nat) {
    exists k :: 0 <= k < |saves| && saves[k].handler == i
  }

  ghost predicate JoinedSaveBy(saves: seq<Saved>, i: nat) {
    exists k :: 0 <= k < |saves| && saves[k].handler == i && saves[k].joined
  }

  /** How a handler's place, its join and its call of aggregateResults fit together. */
  predicate CallOk(h: Handler) {
    match h.pc
    case Save => !h.joined && !h.called && !h.incomplete
    case CountConfirm => !h.called && !h.incomplete
    case TouchConfirm => !h.called && !h.incomplete
    case AggFind => h.called && h.joined && !h.incomplete
    case AggUpdate => h.called && h.joined
    case _ => h.called == h.joined
  }

  predicate RecordsHandler(x: Saved, handlers: map<nat, Handler>) {
    && x.handler in handlers && handlers[x.handler].service == x.service && handlers[x.handler].requestId == x.requestId
  }

  ghost predicate JoinInv(w: World, hotelJoin: seq<string>) {
    && StepsMatch(w.store.docs, w.saves)
    && (forall k :: 0 <= k < |w.saves| ==> JoinRule(hotelJoin, w.saves, k) && RecordsHandler(w.saves[k], w.handlers))
    && (forall j, k :: 0 <= j < k < |w.saves| ==> w.saves[j].handler != w.saves[k].handler)
    && (forall i :: i in w.handlers ==>
          && CallOk(w.handlers[i])
          && (w.handlers[i].pc == Save ==> !SaveBy(w.saves, i))
          && (w.handlers[i].joined <==> JoinedSaveBy(w.saves, i)))
  }

  lemma StepsTell(d: Doc)
    requires Sound(d)
    ensures !Joins(HOTEL_JOIN, Hotel, d.completedSteps)
    ensures forall service :: Joins(SHARED_JOIN, service, d.completedSteps) <==> AllConfirmed(d)
    ensures forall service :: service != Hotel ==> (Joins(HOTEL_JOIN, service, d.completedSteps) <==> AllConfirmed(d))
  {
    var odd := HOTEL_JOIN[0];
    assert odd in JoinSteps(HOTEL_JOIN, Hotel) && odd[0] == 'f';
    assert odd !in KNOWN_STEPS by {
      assert FLIGHT_CONFIRMED[0] == 'F' && HOTEL_CONFIRMED[0] == 'H' && CAR_CONFIRMED[0] == 'C' && COMPLETED[0] == 'C';
    }
    assert SHARED_JOIN[0] == FLIGHT_CONFIRMED && SHARED_JOIN[1] == HOTEL_CONFIRMED && SHARED_JOIN[2] == CAR_CONFIRMED;
    assert forall s :: s in SHARED_JOIN <==> s == FLIGHT_CONFIRMED || s == HOTEL_CONFIRMED || s == CAR_CONFIRMED;
  }

  lemma AllServicesMeansAllConfirmed(d: Doc, services: set<Service>)
    requires forall service :: StepOf(service) in d.completedSteps <==> service in services
    ensures services == ALL_SERVICES <==> AllConfirmed(d)
  {
    assert StepOf(Flight) == FLIGHT_CONFIRMED && StepOf(Hotel) == HOTEL_CONFIRMED && StepOf(Car) == CAR_CONFIRMED;
    if AllConfirmed(d) {
      forall service ensures service in services {
        match service case Flight => case Hotel => case Car =>
      }
      assert services == ALL_SERVICES;
    } else {
      assert Flight !in services || Hotel !in services || Car !in services;
    }
  }

  /** A save that reaches a document extends the match between steps and saved services. */
  lemma SaveStepsMatch(docs: Docs, saves: seq<Saved>, x: Saved, reservationId: string)
    requires StepsMatch(docs, saves) && x.requestId in docs
    ensures StepsMatch(SaveConfirmed(docs, x.service, x.requestId, reservationId), saves + [x])
  {
    var docs' := SaveConfirmed(docs, x.service, x.requestId, reservationId);
    forall r, service
      ensures HasStep(docs', r, service) <==> service in SavedServices(saves + [x], r)
    {
      SavedServicesAppend(saves, x, r);
      StepsDistinct(service, x.service);
      assert HasStep(docs, r, service) <==> service in SavedServices(saves, r);
    }
  }

  /** The new save obeys the join rule; the earlier ones still do. */
  lemma SaveJoinRule(docs: Docs, saves: seq<Saved>, x: Saved, hotelJoin: seq<string>)
    requires KnownJoin(hotelJoin) && AllSound(docs) && StepsMatch(docs, saves + [x]) && x.requestId in docs
    requires x.joined <==> x.acked && Joins(hotelJoin, x.service, docs[x.requestId].completedSteps)
    requires forall k :: 0 <= k < |saves| ==> JoinRule(hotelJoin, saves, k)
    ensures forall k :: 0 <= k < |saves| + 1 ==> JoinRule(hotelJoin, saves + [x], k)
  {
    var more := saves + [x];
    var d := docs[x.requestId];
    assert Sound(d);
    StepsTell(d);
    AllServicesMeansAllConfirmed(d, SavedServices(more, x.requestId));
    assert more[..|saves| + 1] == more;
    assert HOTEL_JOIN != SHARED_JOIN by { assert HOTEL_JOIN[0][0] == 'f' && SHARED_JOIN[0][0] == 'F'; }
    forall k | 0 <= k < |saves| ensures JoinRule(hotelJoin, more, k) {
      assert more[..k + 1] == saves[..k + 1];
      assert JoinRule(hotelJoin, saves, k);
    }
  }

  /** Commands that neither save nor add a confirmation step leave the match alone. */
  lemma OtherStepsMatch(docs: Docs, docs': Docs, saves: seq<Saved>)
    requires StepsMatch(docs, saves)
    requires forall r, service :: HasStep(docs', r, service) <==>
                                  HasStep(docs, r, service)
    ensures StepsMatch(docs', saves)
  {
  }

  lemma RunStepSteps(s: Store, r: Run, reply: Reply, id: string, service: Service)
    ensures var docs' := RunStep(s, r, reply).0.docs;
            HasStep(docs', id, service) <==> HasStep(s.docs, id, service)
  {
    match r.pc
    case Create =>
    case RecordError =>
    case _ => assert RunStep(s, r, reply).0.docs == s.docs;
  }

  lemma HandlerStepSteps(s: Store, h: Handler, choice: Choice, hotelJoin: seq<string>, issued: set<(string, string)>,
      id: string, service: Service)
    requires AllSound(s.docs) && HandlerOk(s.docs, issued, h)
    requires h.pc != Save || choice.reply == Lost || h.requestId !in s.docs
    ensures var docs' := HandlerStep(s, h, choice, hotelJoin).0.docs;
            HasStep(docs', id, service) <==> HasStep(s.docs, id, service)
  {
    match h.pc
    case Save =>
    case AggUpdate =>
      IdsMeanSteps(s.docs[h.requestId]);
      StepsDistinct(service, service);
      { match service case Flight => case Hotel => case Car => }
    case AggError =>
    case _ => assert HandlerStep(s, h, choice, hotelJoin).0.docs == s.docs;
  }

  lemma HandlerStepCall(s: Store, h: Handler, choice: Choice, hotelJoin: seq<string>)
    requires CallOk(h)
    ensures var h' := HandlerStep(s, h, choice, hotelJoin).1;
            && CallOk(h') && h'.requestId == h.requestId && h'.service == h.service
            && h'.reservationId == h.reservationId && (h.pc != Save ==> h'.joined == h.joined && h'.pc != Save)
  {
  }

  /** A save that reaches a document: it is recorded, and joins by the rule. */
  lemma {:induction false} SaveKeepsJoin(w: World, i: nat, choice: Choice, hotelJoin: seq<string>)
    requires KnownJoin(hotelJoin) && JoinInv(w, hotelJoin) && DocsInv(w)
    requires i in w.handlers && w.handlers[i].pc == Save && choice.reply != Lost
             && w.handlers[i].requestId in w.store.docs
    ensures JoinInv(StepWorld(w, Proceed(i, choice), hotelJoin), hotelJoin)
  {
    var h := w.handlers[i];
    var (s', h') := HandlerStep(w.store, h, choice, hotelJoin);
    var x := Saved(i, h.service, h.requestId, choice.reply == Ok, h'.joined);
    assert CallOk(h);
    SaveStepsMatch(w.store.docs, w.saves, x, h.reservationId);
    SaveKeepsSound(w.store.docs, h.service, h.requestId, h.reservationId);
    SaveJoinRule(s'.docs, w.saves, x, hotelJoin);
    HandlerStepCall(w.store, h, choice, hotelJoin);
    OneMoreSaveKeepsJoin(w, i, h', x, StepWorld(w, Proceed(i, choice), hotelJoin), hotelJoin);
  }

  lemma OneMoreSaveKeepsJoin(w: World, i: nat, h': Handler, x: Saved, w': World, hotelJoin: seq<string>)
    requires JoinInv(w, hotelJoin) && i in w.handlers && w.handlers[i].pc == Save
    requires w'.saves == w.saves + [x] && w'.handlers == w.handlers[i := h']
    requires StepsMatch(w'.store.docs, w'.saves)
    requires forall k :: 0 <= k < |w'.saves| ==> JoinRule(hotelJoin, w'.saves, k)
    requires CallOk(h') && h'.pc != Save && x == Saved(i, h'.service, h'.requestId, x.acked, h'.joined)
    requires h'.service == w.handlers[i].service && h'.requestId == w.handlers[i].requestId
    ensures JoinInv(w', hotelJoin)
  {
    forall k | 0 <= k < |w'.saves| ensures RecordsHandler(w'.saves[k], w'.handlers) {
      assert k < |w.saves| ==> RecordsHandler(w.saves[k], w.handlers);
    }
    SaveRecords(w.handlers, w.saves, i, h', x);
  }

  /** The bookkeeping between handlers and recorded saves. */
  lemma SaveRecords(handlers: map<nat, Handler>, saves: seq<Saved>, i: nat, h': Handler, x: Saved)
    requires i in handlers && x.handler == i && x.joined == h'.joined && CallOk(h') && h'.pc != Save
    requires !SaveBy(saves, i)
    requires forall j, k :: 0 <= j < k < |saves| ==> saves[j].handler != saves[k].handler
    requires forall j :: j in handlers ==>
          && CallOk(handlers[j])
          && (handlers[j].pc == Save ==> !SaveBy(saves, j))
          && (handlers[j].joined <==> JoinedSaveBy(saves, j))
    ensures var more, handlers' := saves + [x], handlers[i := h'];
          && (forall j, k :: 0 <= j < k < |more| ==> more[j].handler != more[k].handler)
          && (forall j :: j in handlers' ==>
                && CallOk(handlers'[j])
                && (handlers'[j].pc == Save ==> !SaveBy(more, j))
                && (handlers'[j].joined <==> JoinedSaveBy(more, j)))
  {
    var more, handlers' := saves + [x], handlers[i := h'];
    forall j | j in handlers'
      ensures handlers'[j].pc == Save ==> !SaveBy(more, j)
      ensures handlers'[j].joined <==> JoinedSaveBy(more, j)
    {
      if j == i {
        assert more[|saves|] == x;
      } else if JoinedSaveBy(saves, j) {
        var k :| 0 <= k < |saves| && saves[k].handler == j && saves[k].joined;
        assert more[k] == saves[k];
      }
    }
  }

  lemma NothingJoinsWithoutSteps(hotelJoin: seq<string>, service: Service)
    requires KnownJoin(hotelJoin)
    ensures !Joins(hotelJoin, service, [])
  {
    var first := JoinSteps(hotelJoin, service)[0];
    assert first in JoinSteps(hotelJoin, service);
  }

  /** Any other command of a handler records nothing and leaves its join as it was. */
  lemma OtherStepJoined(s: Store, h: Handler, choice: Choice, hotelJoin: seq<string>)
    requires KnownJoin(hotelJoin) && CallOk(h)
    requires h.pc != Save || choice.reply == Lost || h.requestId !in s.docs
    ensures HandlerStep(s, h, choice, hotelJoin).1.joined == h.joined
  {
    NothingJoinsWithoutSteps(hotelJoin, h.service);
  }

  lemma {:induction false} OtherKeepsJoin(w: World, i: nat, choice: Choice, hotelJoin: seq<string>)
    requires KnownJoin(hotelJoin) && JoinInv(w, hotelJoin) && DocsInv(w)
    requires i in w.handlers
    requires w.handlers[i].pc != Save || choice.reply == Lost || w.handlers[i].requestId !in w.store.docs
    ensures JoinInv(StepWorld(w, Proceed(i, choice), hotelJoin), hotelJoin)
  {
    var h := w.handlers[i];
    var (s', h') := HandlerStep(w.store, h, choice, hotelJoin);
    HandlerStepCall(w.store, h, choice, hotelJoin);
    OtherStepJoined(w.store, h, choice, hotelJoin);
    forall r, service
      ensures HasStep(s'.docs, r, service) <==>
              HasStep(w.store.docs, r, service)
    {
      HandlerStepSteps(w.store, h, choice, hotelJoin, w.issued, r, service);
    }
    OtherStepsMatch(w.store.docs, s'.docs, w.saves);
    SameSavesKeepJoin(w, i, s', h', StepWorld(w, Proceed(i, choice), hotelJoin), hotelJoin);
  }

  lemma SameSavesKeepJoin(w: World, i: nat, s': Store, h': Handler, w': World, hotelJoin: seq<string>)
    requires JoinInv(w, hotelJoin) && i in w.handlers
    requires w'.store == s' && w'.saves == w.saves && w'.handlers == w.handlers[i := h']
    requires StepsMatch(s'.docs, w.saves)
    requires CallOk(h') && h'.joined == w.handlers[i].joined && (h'.pc == Save ==> w.handlers[i].pc == Save)
    requires h'.service == w.handlers[i].service && h'.requestId == w.handlers[i].requestId
    ensures JoinInv(w', hotelJoin)
  {
    forall k | 0 <= k < |w.saves| ensures RecordsHandler(w.saves[k], w'.handlers) {
      assert RecordsHandler(w.saves[k], w.handlers);
    }
  }

  lemma {:induction false} ActionKeepsJoin(w: World, action: Action, hotelJoin: seq<string>)
    requires KnownJoin(hotelJoin) && JoinInv(w, hotelJoin) && DocsInv(w)
    ensures JoinInv(StepWorld(w, action, hotelJoin), hotelJoin)
  {
    match action
    case Proceed(i, choice) =>
      if i in w.handlers {
        if w.handlers[i].pc == Save && choice.reply != Lost && w.handlers[i].requestId in w.store.docs {
          SaveKeepsJoin(w, i, choice, hotelJoin);
        } else {
          OtherKeepsJoin(w, i, choice, hotelJoin);
        }
      }
    case Advance(i, reply) =>
      if i in w.runs {
        var docs' := RunStep(w.store, w.runs[i], reply).0.docs;
        forall r, service
          ensures HasStep(docs', r, service) <==>
                  HasStep(w.store.docs, r, service)
        {
          RunStepSteps(w.store, w.runs[i], reply, r, service);
        }
        OtherStepsMatch(w.store.docs, docs', w.saves);
      }
    case Deliver(i, service, requestId, reservationId) =>
      DeliverKeepsJoin(w, i, service, requestId, reservationId, hotelJoin);
    case _ =>
  }

  lemma DeliverKeepsJoin(w: World, i: nat, service: Service, requestId: string, reservationId: string,
      hotelJoin: seq<string>)
    requires JoinInv(w, hotelJoin)
    ensures JoinInv(StepWorld(w, Deliver(i, service, requestId, reservationId), hotelJoin), hotelJoin)
  {
    if i !in w.handlers {
      assert !SaveBy(w.saves, i) && !JoinedSaveBy(w.saves, i);
    }
  }

  lemma {:induction false} JoinAlways(now: nat, trace: seq<Action>, hotelJoin: seq<string>)
    requires KnownJoin(hotelJoin)
    ensures JoinInv(Exec(now, trace, hotelJoin), hotelJoin)
  {
    if trace != [] {
      var before := trace[..|trace| - 1];
      JoinAlways(now, before, hotelJoin);
      DocsAlways(now, before, hotelJoin);
      ActionKeepsJoin(Exec(now, before, hotelJoin), trace[|trace| - 1], hotelJoin);
    }
  }

  // ---- Theorems ----

  /** Which saved confirmations join, whatever the interleaving: the acknowledged ones of a service that can join, from
      the save that completes the three onwards. */
  lemma WhoJoins(now: nat, trace: seq<Action>, hotelJoin: seq<string>, k: nat)
    requires KnownJoin(hotelJoin) && k < |Exec(now, trace, hotelJoin).saves|
    ensures var saves := Exec(now, trace, hotelJoin).saves;
            saves[k].joined <==> saves[k].acked && CanJoin(hotelJoin, saves[k].service) &&
                                 SavedServices(saves[..k + 1], saves[k].requestId) == ALL_SERVICES
  {
    JoinAlways(now, trace, hotelJoin);
    assert JoinRule(hotelJoin, Exec(now, trace, hotelJoin).saves, k);
  }

  /** The handlers that called aggregateResults. */
  function Callers(w: World): set<nat> {
    set i | i in w.handlers && w.handlers[i].called
  }

  /** The handlers whose save joined. */
  function Joiners(w: World): set<nat> {
    set k | 0 <= k < |w.saves| && w.saves[k].joined :: w.saves[k].handler
  }

  /** Once every handler is over, aggregateResults was called once for each save that joined and for nothing else. */
  lemma CallsAreJoins(now: nat, trace: seq<Action>, hotelJoin: seq<string>)
    requires KnownJoin(hotelJoin)
    ensures var w := Exec(now, trace, hotelJoin);
            && Callers(w) <= Joiners(w)
            && ((forall i :: i in w.handlers ==> w.handlers[i].pc == Over) ==> Callers(w) == Joiners(w))
            && (forall j, k :: 0 <= j < k < |w.saves| ==> w.saves[j].handler != w.saves[k].handler)
  {
    JoinAlways(now, trace, hotelJoin);
    var w := Exec(now, trace, hotelJoin);
    forall i | i in w.handlers
      ensures w.handlers[i].called ==> i in Joiners(w)
      ensures w.handlers[i].pc == Over ==> (i in Joiners(w) ==> w.handlers[i].called)
    {
      assert CallOk(w.handlers[i]) && (w.handlers[i].joined <==> JoinedSaveBy(w.saves, i));
    }
  }

  /** A service whose only save of a request is at position k is not among those saved before k. */
  lemma NotYetSaved(saves: seq<Saved>, requestId: string, k: nat, upTo: nat)
    requires upTo <= k < |saves|
    requires forall j :: 0 <= j < k && saves[j].requestId == requestId ==> saves[j].service != saves[k].service
    ensures SavedServices(saves[..upTo], requestId) != ALL_SERVICES
  {
    assert saves[k].service !in SavedServices(saves[..upTo], requestId);
    assert saves[k].service in ALL_SERVICES by { match saves[k].service case Flight => case Hotel => case Car => }
  }

  lemma AllSaved(saves: seq<Saved>, requestId: string, a: nat, b: nat, c: nat)
    requires a < b < c < |saves|
    requires saves[a].requestId == requestId && saves[b].requestId == requestId && saves[c].requestId == requestId
    requires {saves[a].service, saves[b].service, saves[c].service} == ALL_SERVICES
    ensures SavedServices(saves[..c + 1], requestId) == ALL_SERVICES
  {
    var prefix := saves[..c + 1];
    assert prefix[a] == saves[a] && prefix[b] == saves[b] && prefix[c] == saves[c];
    assert {saves[a].service, saves[b].service, saves[c].service} <= SavedServices(prefix, requestId);
    forall service: Service ensures service in ALL_SERVICES {
      match service case Flight => case Hotel => case Car =>
    }
  }

  lemma ThreeDistinct(a: Service, b: Service, c: Service)
    requires {a, b, c} == ALL_SERVICES
    ensures a != b && a != c && b != c
  {
    assert Flight in {a, b, c} && Hotel in {a, b, c} && Car in {a, b, c};
  }

  /** The three confirmations of a request are each saved once, at a, b and c. */
  ghost predicate OnceEach(saves: seq<Saved>, requestId: string, a: nat, b: nat, c: nat) {
    && a < b < c < |saves|
    && (forall k :: 0 <= k < |saves| && saves[k].requestId == requestId <==> k in {a, b, c})
    && {saves[a].service, saves[b].service, saves[c].service} == ALL_SERVICES
  }

  /** Exactly once per service: when the three confirmations of a request are each saved once, in any order and
      interleaved with anything, the first two do not join, and the last does unless it is the hotel's with the
      hotel's own constant, in which case no handler aggregates. */
  lemma EachConfirmedOnce(now: nat, trace: seq<Action>, hotelJoin: seq<string>, requestId: string, a: nat, b: nat,
      c: nat)
    requires KnownJoin(hotelJoin)
    requires var saves := Exec(now, trace, hotelJoin).saves;
             OnceEach(saves, requestId, a, b, c) && saves[a].acked && saves[b].acked && saves[c].acked
    ensures var saves := Exec(now, trace, hotelJoin).saves;
            && !saves[a].joined && !saves[b].joined
            && (saves[c].joined <==> (saves[c].service == Hotel ==> hotelJoin == SHARED_JOIN))
  {
    var saves := Exec(now, trace, hotelJoin).saves;
    WhoJoins(now, trace, hotelJoin, a);
    WhoJoins(now, trace, hotelJoin, b);
    WhoJoins(now, trace, hotelJoin, c);
    ThreeDistinct(saves[a].service, saves[b].service, saves[c].service);
    NotYetSaved(saves, requestId, c, a + 1);
    NotYetSaved(saves, requestId, c, b + 1);
    AllSaved(saves, requestId, a, b, c);
  }

  /** The hotel's handler never aggregates with the constant the source gives it. */
  lemma HotelNeverAggregates(now: nat, trace: seq<Action>, i: nat)
    requires i in Exec(now, trace, HOTEL_JOIN).handlers && Exec(now, trace, HOTEL_JOIN).handlers[i].called
    ensures Exec(now, trace, HOTEL_JOIN).handlers[i].service != Hotel
  {
    CallsAreJoins(now, trace, HOTEL_JOIN);
    JoinAlways(now, trace, HOTEL_JOIN);
    var w := Exec(now, trace, HOTEL_JOIN);
    assert i in Callers(w);
    var k :| 0 <= k < |w.saves| && w.saves[k].joined && w.saves[k].handler == i;
    assert JoinRule(HOTEL_JOIN, w.saves, k) && RecordsHandler(w.saves[k], w.handlers);
    assert HOTEL_JOIN[0][0] == 'f' && SHARED_JOIN[0][0] == 'F';
  }

  // ---- No booking without a join ----

  ghost predicate HasCaller(handlers: map<nat, Handler>, requestId: string) {
    exists i :: i in handlers && handlers[i].requestId == requestId && handlers[i].called
  }

  ghost predicate BookedByCaller(w: World) {
    forall r :: r in w.store.docs && w.store.docs[r].bookingId.Some? ==> HasCaller(w.handlers, r)
  }

  lemma CallersStay(handlers: map<nat, Handler>, i: nat, h': Handler, requestId: string)
    requires HasCaller(handlers, requestId)
    requires i in handlers ==> h'.requestId == handlers[i].requestId && (handlers[i].called ==> h'.called)
    ensures HasCaller(handlers[i := h'], requestId)
  {
    var j :| j in handlers && handlers[j].requestId == requestId && handlers[j].called;
    assert j in handlers[i := h'];
  }

  /** Only aggregateResults, past its read, gives a document its booking number. */
  lemma HandlerStepBooks(s: Store, h: Handler, choice: Choice, hotelJoin: seq<string>, id: string)
    requires CallOk(h)
    requires var docs' := HandlerStep(s, h, choice, hotelJoin).0.docs; id in docs' && docs'[id].bookingId.Some?
    ensures (id in s.docs && s.docs[id].bookingId.Some?) || (id == h.requestId && h.called)
    ensures h.called ==> HandlerStep(s, h, choice, hotelJoin).1.called
  {
    match h.pc
    case Save =>
    case AggUpdate =>
    case AggError =>
    case _ => assert HandlerStep(s, h, choice, hotelJoin).0.docs == s.docs;
  }

  lemma RunStepBooks(s: Store, r: Run, reply: Reply, id: string)
    requires var docs' := RunStep(s, r, reply).0.docs; id in docs' && docs'[id].bookingId.Some?
    ensures id in s.docs && s.docs[id].bookingId.Some?
  {
    match r.pc
    case Create =>
    case RecordError =>
    case _ => assert RunStep(s, r, reply).0.docs == s.docs;
  }

  lemma {:induction false} ActionKeepsBooked(w: World, action: Action, hotelJoin: seq<string>)
    requires BookedByCaller(w) && JoinInv(w, hotelJoin)
    ensures BookedByCaller(StepWorld(w, action, hotelJoin))
  {
    var w' := StepWorld(w, action, hotelJoin);
    forall r | r in w'.store.docs && w'.store.docs[r].bookingId.Some? ensures HasCaller(w'.handlers, r) {
      match action
      case Advance(i, reply) =>
        if i in w.runs { RunStepBooks(w.store, w.runs[i], reply, r); }
      case Proceed(i, choice) =>
        if i in w.handlers {
          var h := w.handlers[i];
          assert CallOk(h);
          HandlerStepBooks(w.store, h, choice, hotelJoin, r);
          HandlerStepCall(w.store, h, choice, hotelJoin);
          if h.called && h.requestId == r {
            assert HasCaller(w.handlers, r);
          }
          CallersStay(w.handlers, i, HandlerStep(w.store, h, choice, hotelJoin).1, r);
        }
      case Deliver(i, service, requestId, reservationId) =>
        if i !in w.handlers {
          CallersStay(w.handlers, i, NewHandler(service, requestId, reservationId), r);
        }
      case _ =>
    }
  }

  lemma {:induction false} BookedAlways(now: nat, trace: seq<Action>, hotelJoin: seq<string>)
    requires KnownJoin(hotelJoin)
    ensures BookedByCaller(Exec(now, trace, hotelJoin))
  {
    if trace != [] {
      var before := trace[..|trace| - 1];
      BookedAlways(now, before, hotelJoin);
      JoinAlways(now, before, hotelJoin);
      ActionKeepsBooked(Exec(now, before, hotelJoin), trace[|trace| - 1], hotelJoin);
    }
  }

  /** With the constants as the source has them, a request whose three confirmations are each saved once, the hotel's
      last, is stranded: it has all three reservations but no booking number, in every interleaving. */
  lemma HotelLastStrands(now: nat, trace: seq<Action>, requestId: string, a: nat, b: nat, c: nat)
    requires var saves := Exec(now, trace, HOTEL_JOIN).saves;
             OnceEach(saves, requestId, a, b, c) && saves[c].service == Hotel
    ensures var docs := Exec(now, trace, HOTEL_JOIN).store.docs;
            AllIds(docs, requestId) && docs[requestId].bookingId.None? && docs[requestId].status != CONFIRMED
  {
    var w := Exec(now, trace, HOTEL_JOIN);
    JoinAlways(now, trace, HOTEL_JOIN);
    BookedAlways(now, trace, HOTEL_JOIN);
    DocsAlways(now, trace, HOTEL_JOIN);
    NoneJoined(now, trace, requestId, a, b, c);
    AllSaved(w.saves, requestId, a, b, c);
    Stranded(w, requestId, c);
  }

  lemma Stranded(w: World, requestId: string, c: nat)
    requires JoinInv(w, HOTEL_JOIN) && BookedByCaller(w) && AllSound(w.store.docs)
    requires c < |w.saves| && SavedServices(w.saves[..c + 1], requestId) == ALL_SERVICES
    requires forall k :: 0 <= k < |w.saves| && w.saves[k].requestId == requestId ==> !w.saves[k].joined
    ensures AllIds(w.store.docs, requestId)
    ensures w.store.docs[requestId].bookingId.None? && w.store.docs[requestId].status != CONFIRMED
  {
    AllSavedMeansAllIds(w.store.docs, w.saves, c + 1, requestId);
    assert Sound(w.store.docs[requestId]);
    NoJoinNoCaller(w, requestId);
  }

  lemma NoJoinNoCaller(w: World, requestId: string)
    requires JoinInv(w, HOTEL_JOIN)
    requires forall k :: 0 <= k < |w.saves| && w.saves[k].requestId == requestId ==> !w.saves[k].joined
    ensures !HasCaller(w.handlers, requestId)
  {
    forall i | i in w.handlers && w.handlers[i].called ensures w.handlers[i].requestId != requestId {
      assert CallOk(w.handlers[i]);
      var k :| 0 <= k < |w.saves| && w.saves[k].handler == i && w.saves[k].joined;
      assert RecordsHandler(w.saves[k], w.handlers);
    }
  }

  lemma NoneJoined(now: nat, trace: seq<Action>, requestId: string, a: nat, b: nat, c: nat)
    requires var saves := Exec(now, trace, HOTEL_JOIN).saves;
             OnceEach(saves, requestId, a, b, c) && saves[c].service == Hotel
    ensures var saves := Exec(now, trace, HOTEL_JOIN).saves;
            forall k :: 0 <= k < |saves| && saves[k].requestId == requestId ==> !saves[k].joined
  {
    var saves := Exec(now, trace, HOTEL_JOIN).saves;
    WhoJoins(now, trace, HOTEL_JOIN, a);
    WhoJoins(now, trace, HOTEL_JOIN, b);
    WhoJoins(now, trace, HOTEL_JOIN, c);
    ThreeDistinct(saves[a].service, saves[b].service, saves[c].service);
    NotYetSaved(saves, requestId, c, a + 1);
    NotYetSaved(saves, requestId, c, b + 1);
    assert HOTEL_JOIN[0][0] == 'f' && SHARED_JOIN[0][0] == 'F';
  }

  // ---- The incomplete branch of aggregateResults ----

  ghost predicate SentEmpty(handlers: map<nat, Handler>, requestId: string) {
    exists j :: j in handlers && handlers[j].requestId == requestId && handlers[j].reservationId == ""
  }

  ghost predicate EmptyInv(w: World) {
    && (forall r, service :: r in w.store.docs && ReservationId(w.store.docs[r], service) == Some("") ==>
          SentEmpty(w.handlers, r))
    && (forall i :: i in w.handlers && w.handlers[i].incomplete ==> SentEmpty(w.handlers, w.handlers[i].requestId))
  }

  /** Where all three services have saved, the document has all three ids. */
  lemma AllSavedMeansAllIds(docs: Docs, saves: seq<Saved>, upTo: nat, requestId: string)
    requires StepsMatch(docs, saves) && AllSound(docs)
    requires upTo <= |saves| && SavedServices(saves[..upTo], requestId) == ALL_SERVICES
    ensures AllIds(docs, requestId)
  {
    forall service ensures HasStep(docs, requestId, service) {
      SavedStays(saves, upTo, requestId, service);
    }
    assert HasStep(docs, requestId, Flight);
    assert Sound(docs[requestId]);
    assert forall service :: HasStep(docs, requestId, service) ==> ReservationId(docs[requestId], service).Some?;
  }

  /** A handler that reached aggregateResults has all three ids in its document. */
  lemma JoinedMeansAllIds(w: World, hotelJoin: seq<string>, i: nat)
    requires JoinInv(w, hotelJoin) && AllSound(w.store.docs) && i in w.handlers && w.handlers[i].joined
    ensures AllIds(w.store.docs, w.handlers[i].requestId)
  {
    var k :| 0 <= k < |w.saves| && w.saves[k].handler == i && w.saves[k].joined;
    assert JoinRule(hotelJoin, w.saves, k) && RecordsHandler(w.saves[k], w.handlers);
    AllSavedMeansAllIds(w.store.docs, w.saves, k + 1, w.handlers[i].requestId);
  }

  lemma SavedStays(saves: seq<Saved>, upTo: nat, requestId: string, service: Service)
    requires upTo <= |saves| && SavedServices(saves[..upTo], requestId) == ALL_SERVICES
    ensures service in SavedServices(saves, requestId)
  {
    assert service in ALL_SERVICES by { match service case Flight => case Hotel => case Car => }
    var prefix := saves[..upTo];
    var j :| 0 <= j < |prefix| && prefix[j].requestId == requestId && prefix[j].service == service;
    assert saves[j] == prefix[j];
  }

  lemma StillSent(handlers: map<nat, Handler>, i: nat, h': Handler, requestId: string)
    requires SentEmpty(handlers, requestId)
    requires i in handlers ==> h'.requestId == handlers[i].requestId && h'.reservationId == handlers[i].reservationId
    ensures SentEmpty(handlers[i := h'], requestId)
  {
    var j :| j in handlers && handlers[j].requestId == requestId && handlers[j].reservationId == "";
    assert j in handlers[i := h'];
  }

  lemma HandlerStepIds(s: Store, h: Handler, choice: Choice, hotelJoin: seq<string>, id: string, service: Service)
    ensures var docs' := HandlerStep(s, h, choice, hotelJoin).0.docs;
            id in docs' && ReservationId(docs'[id], service) == Some("") ==>
              (id in s.docs && ReservationId(s.docs[id], service) == Some(""))
              || (id == h.requestId && h.reservationId == "")
  {
    match h.pc
    case Save => { match service case Flight => case Hotel => case Car => }
    case AggUpdate => { match service case Flight => case Hotel => case Car => }
    case AggError => { match service case Flight => case Hotel => case Car => }
    case _ => assert HandlerStep(s, h, choice, hotelJoin).0.docs == s.docs;
  }

  lemma ProceedKeepsEmpty(w: World, i: nat, choice: Choice, hotelJoin: seq<string>)
    requires EmptyInv(w) && JoinInv(w, hotelJoin) && DocsInv(w)
    ensures EmptyInv(StepWorld(w, Proceed(i, choice), hotelJoin))
  {
    if i in w.handlers {
      var h := w.handlers[i];
      var (s', h') := HandlerStep(w.store, h, choice, hotelJoin);
      var w' := StepWorld(w, Proceed(i, choice), hotelJoin);
      assert CallOk(h);
      HandlerStepCall(w.store, h, choice, hotelJoin);
      if h.reservationId == "" {
        assert SentEmpty(w.handlers, h.requestId);
      }
      forall r, service | r in s'.docs
                          && ReservationId(s'.docs[r], service) == Some("") ensures SentEmpty(w'.handlers, r) {
        HandlerStepIds(w.store, h, choice, hotelJoin, r, service);
        StillSent(w.handlers, i, h', r);
      }
      if h'.incomplete && !h.incomplete {
        JoinedMeansAllIds(w, hotelJoin, i);
        IncompleteMeansEmpty(w.store.docs[h.requestId]);
      }
      forall j | j in w'.handlers && w'.handlers[j].incomplete
        ensures SentEmpty(w'.handlers, w'.handlers[j].requestId)
      {
        StillSent(w.handlers, i, h', w'.handlers[j].requestId);
      }
    }
  }

  lemma IncompleteMeansEmpty(d: Doc)
    requires (forall service :: ReservationId(d, service).Some?) && Incomplete(d)
    ensures exists service :: ReservationId(d, service) == Some("")
  {
    assert ReservationId(d, Flight).Some? && ReservationId(d, Hotel).Some? && ReservationId(d, Car).Some?;
    assert ReservationId(d, Flight) == Some("") || ReservationId(d, Hotel) == Some("")
           || ReservationId(d, Car) == Some("");
  }

  lemma AdvanceKeepsEmpty(w: World, i: nat, reply: Reply, hotelJoin: seq<string>)
    requires EmptyInv(w)
    ensures EmptyInv(StepWorld(w, Advance(i, reply), hotelJoin))
  {
    if i in w.runs {
      var docs' := RunStep(w.store, w.runs[i], reply).0.docs;
      forall r, service | r in docs' && ReservationId(docs'[r], service) == Some("") ensures SentEmpty(w.handlers, r) {
        RunStepIds(w.store, w.runs[i], reply, r, service);
      }
    }
  }

  lemma RunStepIds(s: Store, r: Run, reply: Reply, id: string, service: Service)
    requires var docs' := RunStep(s, r, reply).0.docs; id in docs' && ReservationId(docs'[id], service) == Some("")
    ensures id in s.docs && ReservationId(s.docs[id], service) == Some("")
  {
    match r.pc
    case Create => { match service case Flight => case Hotel => case Car => }
    case RecordError => { match service case Flight => case Hotel => case Car => }
    case _ => assert RunStep(s, r, reply).0.docs == s.docs;
  }

  lemma {:induction false} EmptyAlways(now: nat, trace: seq<Action>, hotelJoin: seq<string>)
    requires KnownJoin(hotelJoin)
    ensures EmptyInv(Exec(now, trace, hotelJoin))
  {
    if trace != [] {
      var before := trace[..|trace| - 1];
      EmptyAlways(now, before, hotelJoin);
      JoinAlways(now, before, hotelJoin);
      DocsAlways(now, before, hotelJoin);
      var w := Exec(now, before, hotelJoin);
      match trace[|trace| - 1]
      case Advance(i, reply) => AdvanceKeepsEmpty(w, i, reply, hotelJoin);
      case Proceed(i, choice) => ProceedKeepsEmpty(w, i, choice, hotelJoin);
      case Deliver(i, service, requestId, reservationId) =>
        if i !in w.handlers {
          forall r | SentEmpty(w.handlers, r)
            ensures SentEmpty(w.handlers[i := NewHandler(service, requestId, reservationId)], r)
          {
            StillSent(w.handlers, i, NewHandler(service, requestId, reservationId), r);
          }
        }
      case _ =>
    }
  }

  /** aggregateResults, reached from the join point, finds incomplete ids only if some confirmation of that request
      carried an empty id: with non-empty ids the branch is dead. */
  lemma IncompleteNeedsEmptyId(now: nat, trace: seq<Action>, hotelJoin: seq<string>, i: nat)
    requires KnownJoin(hotelJoin)
    requires i in Exec(now, trace, hotelJoin).handlers && Exec(now, trace, hotelJoin).handlers[i].incomplete
    ensures SentEmpty(Exec(now, trace, hotelJoin).handlers, Exec(now, trace, hotelJoin).handlers[i].requestId)
  {
    EmptyAlways(now, trace, hotelJoin);
  }
}
