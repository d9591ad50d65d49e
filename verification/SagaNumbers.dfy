/** Booking numbers over every interleaving: how many a request can get, and who gives it the one it keeps. */
module SagaNumbers {
  import opened SagaTypes
  import opened SagaState
  import opened SagaProtocol
  import opened SagaDocuments
  import opened SagaJoin

  /** Every number that a request's document carried. */
  function Numbers(issued: set<(string, string)>, requestId: string): set<string> {
    set x | x in issued && x.0 == requestId :: x.1
  }

  predicate PastUpdate(h: Handler) {
    h.called && h.pc != AggFind && h.pc != AggUpdate
  }

  /** The handlers of a request whose final update, if they issued one, is behind them. */
  function Writers(handlers: map<nat, Handler>, requestId: string): set<nat> {
    set i | i in handlers && handlers[i].requestId == requestId && PastUpdate(handlers[i])
  }

  predicate NumberKnown(docs: Docs, issued: set<(string, string)>, requestId: string) {
    requestId in docs && docs[requestId].bookingId.Some? ==> (requestId, docs[requestId].bookingId.value) in issued
  }

  ghost predicate NumbersInv(w: World) {
    forall r :: |Numbers(w.issued, r)| <= |Writers(w.handlers, r)| && NumberKnown(w.store.docs, w.issued, r)
  }

  /** The number of a document changes only with a final update that is not lost and not refused. */
  predicate Renumbers(s: Store, h: Handler, choice: Choice) {
    h.pc == AggUpdate && choice.reply != Lost && !BookingIdTaken(s.docs, h.requestId, choice.bookingId)
    && h.requestId in s.docs
  }

  lemma HandlerStepNumbers(s: Store, h: Handler, choice: Choice, r: string)
    ensures var docs' := NextHandlerStore(s, h, choice).docs;
            && docs'.Keys == s.docs.Keys
            && (r in s.docs ==>
                  docs'[r].bookingId == if Renumbers(s, h, choice) && r == h.requestId then Some(choice.bookingId)
                                        else s.docs[r].bookingId)
  {
    match h.pc
    case Save =>
    case AggUpdate =>
    case AggError =>
    case _ =>
  }

  lemma RunStepNumbers(s: Store, r: Run, reply: Reply, id: string)
    ensures var docs' := NextStore(s, r, reply).docs;
            && s.docs.Keys <= docs'.Keys
            && (id in docs' ==> docs'[id].bookingId == if id in s.docs then s.docs[id].bookingId else None)
  {
    match r.pc
    case Create =>
    case RecordError =>
    case _ => OtherRunStep(s, r, reply);
  }

  lemma HandlerStaysPast(s: Store, h: Handler, choice: Choice, hotelJoin: seq<string>)
    requires PastUpdate(h) && CallOk(h)
    ensures PastUpdate(NextHandler(s, h, choice, hotelJoin))
  {
  }

  lemma UpdatePasses(s: Store, h: Handler, choice: Choice, hotelJoin: seq<string>)
    requires h.pc == AggUpdate && h.called
    ensures !PastUpdate(h) && PastUpdate(NextHandler(s, h, choice, hotelJoin))
  {
  }

  lemma SubsetSize<T>(a: set<T>, b: set<T>)
    requires a <= b
    ensures |a| <= |b|
  {
    assert b == a + (b - a);
  }

  lemma WritersGrow(handlers: map<nat, Handler>, i: nat, h': Handler, r: string)
    requires i in handlers && h'.requestId == handlers[i].requestId && (PastUpdate(handlers[i]) ==> PastUpdate(h'))
    ensures |Writers(handlers[i := h'], r)| >=
            |Writers(handlers, r)| + if r == h'.requestId && PastUpdate(h') && !PastUpdate(handlers[i]) then 1 else 0
  {
    var before, after := Writers(handlers, r), Writers(handlers[i := h'], r);
    if r == h'.requestId && PastUpdate(h') && !PastUpdate(handlers[i]) {
      assert i !in before;
      SubsetSize(before + {i}, after);
    } else {
      SubsetSize(before, after);
    }
  }

  lemma NumbersGrow(issued: set<(string, string)>, more: set<(string, string)>, id: string, number: string, r: string)
    requires more <= {(id, number)}
    ensures |Numbers(issued + more, r)| <= |Numbers(issued, r)| + if r == id then 1 else 0
  {
    var added := if r == id then {number} else {};
    SubsetSize(Numbers(issued + more, r), Numbers(issued, r) + added);
  }

  lemma ProceedKeepsNumbers(w: World, i: nat, choice: Choice, hotelJoin: seq<string>)
    requires NumbersInv(w) && (i in w.handlers ==> CallOk(w.handlers[i]))
    ensures NumbersInv(StepWorld(w, Proceed(i, choice), hotelJoin))
  {
    if i in w.handlers {
      var h := w.handlers[i];
      var s', h' := NextHandlerStore(w.store, h, choice), NextHandler(w.store, h, choice, hotelJoin);
      if PastUpdate(h) {
        HandlerStaysPast(w.store, h, choice, hotelJoin);
      }
      HandlerStepNumbers(w.store, h, choice, h.requestId);
      var more := Issued(s'.docs, h.requestId);
      if Renumbers(w.store, h, choice) {
        UpdatePasses(w.store, h, choice, hotelJoin);
      } else {
        assert NumberKnown(w.store.docs, w.issued, h.requestId);
        assert w.issued + more == w.issued;
      }
      forall r ensures |Numbers(w.issued + more, r)| <= |Writers(w.handlers[i := h'], r)|
      && NumberKnown(s'.docs, w.issued + more, r) {
        assert |Numbers(w.issued, r)| <= |Writers(w.handlers, r)| && NumberKnown(w.store.docs, w.issued, r);
        WritersGrow(w.handlers, i, h', r);
        HandlerStepNumbers(w.store, h, choice, r);
        if Renumbers(w.store, h, choice) {
          NumbersGrow(w.issued, more, h.requestId, choice.bookingId, r);
        }
      }
    }
  }

  lemma OthersKeepNumbers(w: World, action: Action, hotelJoin: seq<string>)
    requires NumbersInv(w) && !action.Proceed?
    ensures NumbersInv(StepWorld(w, action, hotelJoin))
  {
    var w' := StepWorld(w, action, hotelJoin);
    forall r ensures |Numbers(w'.issued, r)| <= |Writers(w'.handlers, r)| && NumberKnown(w'.store.docs, w'.issued, r) {
      assert |Numbers(w.issued, r)| <= |Writers(w.handlers, r)| && NumberKnown(w.store.docs, w.issued, r);
      match action
      case Advance(i, reply) => if i in w.runs { RunStepNumbers(w.store, w.runs[i], reply, r); }
      case Deliver(i, service, requestId, reservationId) =>
        if i !in w.handlers { SubsetSize(Writers(w.handlers, r), Writers(w'.handlers, r)); }
      case _ =>
    }
  }

  lemma {:induction false} NumbersAlways(now: nat, trace: seq<Action>, hotelJoin: seq<string>, w: World)
    requires KnownJoin(hotelJoin) && w == Exec(now, trace, hotelJoin)
    ensures NumbersInv(w)
    decreases |trace|
  {
    if trace != [] {
      var before, action := trace[..|trace| - 1], trace[|trace| - 1];
      var w0 := Exec(now, before, hotelJoin);
      NumbersAlways(now, before, hotelJoin, w0);
      JoinAlways(now, before, hotelJoin);
      if action.Proceed? {
        ProceedKeepsNumbers(w0, action.handler, action.choice, hotelJoin);
      } else {
        OthersKeepNumbers(w0, action, hotelJoin);
      }
    }
  }

  // ---- Theorems ----

  /** The saves of a request that reached the join point. */
  function JoinedSaves(saves: seq<Saved>, requestId: string): set<nat> {
    set k: nat | k < |saves| && saves[k].joined && saves[k].requestId == requestId
  }

  /** A set reached from another by a map is no larger. */
  lemma {:induction false} ImageAtMost(from: set<nat>, to: set<nat>, saves: seq<Saved>)
    requires forall k :: k in from ==> k < |saves|
    requires forall i :: i in to ==> exists k :: k in from && saves[k].handler == i
    ensures |to| <= |from|
    decreases |from|
  {
    if k :| k in from {
      var i := saves[k].handler;
      forall j | j in to - {i} ensures exists n :: n in from - {k} && saves[n].handler == j {
        var n :| n in from && saves[n].handler == j;
        assert n in from - {k};
      }
      ImageAtMost(from - {k}, to - {i}, saves);
      if i in to {
        assert to == to - {i} + {i};
      } else {
        assert to == to - {i};
      }
    } else if i :| i in to {
      assert false;
    }
  }

  lemma WritersHaveJoined(w: World, hotelJoin: seq<string>, requestId: string)
    requires JoinInv(w, hotelJoin)
    ensures |Writers(w.handlers, requestId)| <= |JoinedSaves(w.saves, requestId)|
  {
    var from := JoinedSaves(w.saves, requestId);
    forall i | i in Writers(w.handlers, requestId) ensures exists k :: k in from && w.saves[k].handler == i {
      assert CallOk(w.handlers[i]) && w.handlers[i].joined && JoinedSaveBy(w.saves, i);
      var k: nat :| k < |w.saves| && w.saves[k].handler == i && w.saves[k].joined;
      assert RecordsHandler(w.saves[k], w.handlers);
      assert k in from;
    }
    ImageAtMost(from, Writers(w.handlers, requestId), w.saves);
  }

  /** Over every interleaving, a request has been given at most as many booking numbers as its confirmations reached the
      join point: a second number needs a second such confirmation. */
  lemma NumbersNeedJoins(now: nat, trace: seq<Action>, hotelJoin: seq<string>, requestId: string)
    requires KnownJoin(hotelJoin)
    ensures var w := Exec(now, trace, hotelJoin);
            |Numbers(w.issued, requestId)| <= |JoinedSaves(w.saves, requestId)|
  {
    var w := Exec(now, trace, hotelJoin);
    NumbersAlways(now, trace, hotelJoin, w);
    JoinAlways(now, trace, hotelJoin);
    WritersHaveJoined(w, hotelJoin, requestId);
  }

  lemma OnlyTheLastJoins(now: nat, trace: seq<Action>, hotelJoin: seq<string>, requestId: string, a: nat, b: nat,
      c: nat, w: World)
    requires KnownJoin(hotelJoin) && w == Exec(now, trace, hotelJoin) && OnceEach(w.saves, requestId, a, b, c)
    ensures !w.saves[a].joined && !w.saves[b].joined && JoinedSaves(w.saves, requestId) <= {c}
  {
    WhoJoins(now, trace, hotelJoin, a);
    WhoJoins(now, trace, hotelJoin, b);
    ThreeDistinct(w.saves[a].service, w.saves[b].service, w.saves[c].service);
    NotYetSaved(w.saves, requestId, c, a + 1);
    NotYetSaved(w.saves, requestId, c, b + 1);
    forall k | k in JoinedSaves(w.saves, requestId) ensures k == c {
      assert k in {a, b, c};
    }
  }

  /** A request whose three confirmations are each saved once gets at most one booking number, ever; and the handler
      that got past its acknowledged update gave the document the number it still carries. */
  lemma OneNumber(now: nat, trace: seq<Action>, hotelJoin: seq<string>, requestId: string, a: nat, b: nat, c: nat)
    requires KnownJoin(hotelJoin) && OnceEach(Exec(now, trace, hotelJoin).saves, requestId, a, b, c)
    ensures var w := Exec(now, trace, hotelJoin);
            && |Numbers(w.issued, requestId)| <= 1
            && forall i :: i in w.handlers && w.handlers[i].requestId == requestId && PastWrite(w.handlers[i].pc) ==>
                 requestId in w.store.docs && w.store.docs[requestId].bookingId == Some(w.handlers[i].bookingId)
  {
    var w := Exec(now, trace, hotelJoin);
    NumbersNeedJoins(now, trace, hotelJoin, requestId);
    OnlyTheLastJoins(now, trace, hotelJoin, requestId, a, b, c, w);
    SubsetSize(JoinedSaves(w.saves, requestId), {c});
    DocsAlways(now, trace, hotelJoin);
    NumbersAlways(now, trace, hotelJoin, w);
    forall i | i in w.handlers && w.handlers[i].requestId == requestId && PastWrite(w.handlers[i].pc)
      ensures requestId in w.store.docs && w.store.docs[requestId].bookingId == Some(w.handlers[i].bookingId)
    {
      assert HandlerOk(w.store.docs, w.issued, w.handlers[i]);
      assert IssuedOk(w.store.docs, (requestId, w.handlers[i].bookingId));
      assert NumberKnown(w.store.docs, w.issued, requestId);
      SameNumber(w.issued, requestId, w.handlers[i].bookingId, w.store.docs[requestId].bookingId.value);
    }
  }

  lemma SameNumber(issued: set<(string, string)>, requestId: string, x: string, y: string)
    requires (requestId, x) in issued && (requestId, y) in issued && |Numbers(issued, requestId)| <= 1
    ensures x == y
  {
    assert x in Numbers(issued, requestId) && y in Numbers(issued, requestId);
    if x != y {
      SubsetSize({x, y}, Numbers(issued, requestId));
    }
  }

  /** The handlers of one request that called aggregateResults. */
  function CallersFor(w: World, requestId: string): set<nat> {
    set i | i in Callers(w) && w.handlers[i].requestId == requestId
  }

  /** Each confirmed once and acknowledged: when the handlers of the request are over, aggregateResults was called
      exactly once, by the handler of the last confirmation; unless that is the hotel's with the hotel's own constant:
      then never. */
  lemma CalledOnce(now: nat, trace: seq<Action>, hotelJoin: seq<string>, requestId: string, a: nat, b: nat, c: nat)
    requires KnownJoin(hotelJoin) && OnceEach(Exec(now, trace, hotelJoin).saves, requestId, a, b, c)
    requires var saves := Exec(now, trace, hotelJoin).saves; saves[a].acked && saves[b].acked && saves[c].acked
    requires var w := Exec(now, trace, hotelJoin);
             forall i :: i in w.handlers && w.handlers[i].requestId == requestId ==> w.handlers[i].pc == Over
    ensures var w := Exec(now, trace, hotelJoin);
            CallersFor(w, requestId) ==
            if w.saves[c].service == Hotel && hotelJoin != SHARED_JOIN then {} else {w.saves[c].handler}
  {
    var w := Exec(now, trace, hotelJoin);
    JoinAlways(now, trace, hotelJoin);
    EachConfirmedOnce(now, trace, hotelJoin, requestId, a, b, c);
    OnlyTheLastJoins(now, trace, hotelJoin, requestId, a, b, c, w);
    CallersAreLast(w, hotelJoin, requestId, c);
  }

  lemma CallersAreLast(w: World, hotelJoin: seq<string>, requestId: string, c: nat)
    requires JoinInv(w, hotelJoin) && c < |w.saves| && w.saves[c].requestId == requestId
    requires JoinedSaves(w.saves, requestId) <= {c}
    requires forall i :: i in w.handlers && w.handlers[i].requestId == requestId ==> w.handlers[i].pc == Over
    ensures CallersFor(w, requestId) == if w.saves[c].joined then {w.saves[c].handler} else {}
  {
    forall i | i in CallersFor(w, requestId) ensures w.saves[c].joined && i == w.saves[c].handler {
      assert CallOk(w.handlers[i]) && JoinedSaveBy(w.saves, i);
      var k: nat :| k < |w.saves| && w.saves[k].handler == i && w.saves[k].joined;
      assert RecordsHandler(w.saves[k], w.handlers) && k in JoinedSaves(w.saves, requestId);
    }
    if w.saves[c].joined {
      var i := w.saves[c].handler;
      assert RecordsHandler(w.saves[c], w.handlers) && JoinedSaveBy(w.saves, i) && CallOk(w.handlers[i]);
      assert i in CallersFor(w, requestId);
    }
  }

  /** The update that gives the number: acknowledged and not refused, it leaves the document CONFIRMED with its number,
      whatever else is interleaved. */
  lemma AcknowledgedUpdateConfirms(now: nat, trace: seq<Action>, hotelJoin: seq<string>, i: nat, choice: Choice)
    requires var w := Exec(now, trace, hotelJoin); i in w.handlers && w.handlers[i].pc == AggUpdate
    requires choice.reply == Ok && !BookingIdTaken(Exec(now, trace, hotelJoin).store.docs,
                                                   Exec(now, trace, hotelJoin).handlers[i].requestId, choice.bookingId)
    ensures var w := Exec(now, trace, hotelJoin);
            var w', id := StepWorld(w, Proceed(i, choice), hotelJoin), w.handlers[i].requestId;
            && id in w'.store.docs && w'.store.docs[id].bookingId == Some(choice.bookingId)
            && w'.store.docs[id].status == CONFIRMED && AllIds(w'.store.docs, id)
            && PastWrite(w'.handlers[i].pc) && w'.handlers[i].bookingId == choice.bookingId
  {
    DocsAlways(now, trace, hotelJoin);
    var w := Exec(now, trace, hotelJoin);
    assert HandlerOk(w.store.docs, w.issued, w.handlers[i]);
    UpdateConfirms(w.store, w.handlers[i], choice, hotelJoin);
  }

  lemma UpdateConfirms(s: Store, h: Handler, choice: Choice, hotelJoin: seq<string>)
    requires h.pc == AggUpdate && AllIds(s.docs, h.requestId) && choice.reply == Ok
             && !BookingIdTaken(s.docs, h.requestId, choice.bookingId)
    ensures var docs', h' := NextHandlerStore(s, h, choice).docs, NextHandler(s, h, choice, hotelJoin);
            && h.requestId in docs' && docs'[h.requestId].bookingId == Some(choice.bookingId)
               && docs'[h.requestId].status == CONFIRMED
            && AllIds(docs', h.requestId) && PastWrite(h'.pc) && h'.bookingId == choice.bookingId
  {
    forall service ensures ReservationId(Finalized(s.docs[h.requestId], choice.bookingId), service) ==
      ReservationId(s.docs[h.requestId], service) {
    }
  }
}
