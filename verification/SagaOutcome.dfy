/** How a request ends when each of its confirmations is saved once and nothing about them goes wrong: with one number,
    told to the client once. */
module SagaOutcome {
  import opened SagaTypes
  import opened SagaState
  import opened SagaProtocol
  import opened SagaDocuments
  import opened SagaJoin
  import opened SagaNumbers
  import opened SagaFailures

  /** The numbers the client was told for a request, in order. */
  function Told(notes: seq<Note>, requestId: string): seq<string> {
    if notes == [] then [] else
      var last := notes[|notes| - 1];
      Told(notes[..|notes| - 1], requestId) + if last.BookingConfirmed? && last.requestId == requestId
                                              then [last.bookingId] else []
  }

  lemma ToldAppend(notes: seq<Note>, note: Note, requestId: string)
    ensures Told(notes + [note], requestId) ==
            Told(notes, requestId) + if note.BookingConfirmed? && note.requestId == requestId
                                     then [note.bookingId] else []
  {
    assert (notes + [note])[..|notes|] == notes;
  }

  /** The handlers of the request that called aggregateResults and are over. */
  function Finished(handlers: map<nat, Handler>, requestId: string): set<nat> {
    set i | i in handlers && handlers[i].requestId == requestId && handlers[i].called && handlers[i].pc == Over
  }

  lemma StepTells(s: Store, h: Handler, choice: Choice, id: string)
    ensures Told(NextHandlerStore(s, h, choice).notes, id) ==
            Told(s.notes, id) + if h.pc == Confirm && h.requestId == id then [h.bookingId] else []
  {
    match h.pc
    case Confirm => ToldAppend(s.notes, BookingConfirmed(h.requestId, h.bookingId), id);
    case Fail => ToldAppend(s.notes, BookingFailed(h.requestId, h.error), id);
    case _ => assert NextHandlerStore(s, h, choice).notes == s.notes;
  }

  /** On the clean way, a handler that aggregates gets to its end by telling the client. */
  lemma FinishesByConfirm(s: Store, h: Handler, choice: Choice, hotelJoin: seq<string>)
    requires CallOk(h) && CleanPc(h.pc)
    ensures var h' := NextHandler(s, h, choice, hotelJoin);
            h'.called && h'.pc == Over <==> (h.called && h.pc == Over) || (h.pc == Confirm && h.called)
  {
  }

  predicate ConfirmingCalled(h: Handler) {
    PastWrite(h.pc) ==> h.called
  }

  lemma StaysCalled(s: Store, h: Handler, choice: Choice, hotelJoin: seq<string>)
    requires CallOk(h) && ConfirmingCalled(h)
    ensures ConfirmingCalled(NextHandler(s, h, choice, hotelJoin))
  {
  }

  predicate ToldOk(w: World, requestId: string) {
    && |Told(w.store.notes, requestId)| == |Finished(w.handlers, requestId)|
    && forall i :: i in w.handlers ==> ConfirmingCalled(w.handlers[i])
  }

  predicate NumberedOk(docs: Docs, requestId: string) {
    requestId in docs && docs[requestId].bookingId.Some? ==> docs[requestId].status != PENDING
  }

  predicate SavesOk(saves: seq<Saved>, requestId: string) {
    forall k :: 0 <= k < |saves| && saves[k].requestId == requestId ==> saves[k].acked
  }

  predicate ToldInv(w: World, requestId: string) {
    ToldOk(w, requestId) && NumberedOk(w.store.docs, requestId) && SavesOk(w.saves, requestId)
  }

  lemma FinishedAfter(handlers: map<nat, Handler>, i: nat, h': Handler, id: string)
    requires i in handlers && h'.requestId == handlers[i].requestId
    requires handlers[i].called && handlers[i].pc == Over ==> h'.called && h'.pc == Over
    ensures |Finished(handlers[i := h'], id)| ==
            |Finished(handlers, id)| + if h'.requestId == id && h'.called && h'.pc == Over
                                          && !(handlers[i].called && handlers[i].pc == Over) then 1 else 0
  {
    var before, after := Finished(handlers, id), Finished(handlers[i := h'], id);
    if h'.requestId == id && h'.called && h'.pc == Over && !(handlers[i].called && handlers[i].pc == Over) {
      assert after == before + {i} && i !in before;
    } else {
      assert after == before;
    }
  }

  lemma NumberedIsNotPending(s: Store, h: Handler, choice: Choice, id: string)
    requires NumberedOk(s.docs, id)
    ensures NumberedOk(NextHandlerStore(s, h, choice).docs, id)
  {
    match h.pc
    case Save =>
    case AggUpdate =>
    case AggError =>
    case _ => assert NextHandlerStore(s, h, choice).docs == s.docs;
  }

  lemma RunLeavesNotPending(s: Store, r: Run, reply: Reply, id: string)
    requires NumberedOk(s.docs, id)
    ensures NumberedOk(NextStore(s, r, reply).docs, id) && NextStore(s, r, reply).notes == s.notes
  {
    match r.pc
    case Create =>
    case RecordError =>
    case _ => OtherRunStep(s, r, reply);
  }

  lemma ProceedKeepsTold(w: World, i: nat, choice: Choice, id: string, hotelJoin: seq<string>)
    requires ToldOk(w, id) && i in w.handlers && CallOk(w.handlers[i])
    requires w.handlers[i].requestId == id ==> CleanPc(w.handlers[i].pc)
    ensures ToldOk(StepWorld(w, Proceed(i, choice), hotelJoin), id)
  {
    var h, h' := w.handlers[i], NextHandler(w.store, w.handlers[i], choice, hotelJoin);
    assert ConfirmingCalled(h);
    StaysCalled(w.store, h, choice, hotelJoin);
    StepTells(w.store, h, choice, id);
    if h.requestId == id {
      FinishesByConfirm(w.store, h, choice, hotelJoin);
      FinishedAfter(w.handlers, i, h', id);
    } else {
      assert Finished(w.handlers[i := h'], id) == Finished(w.handlers, id);
    }
  }

  lemma ProceedKeepsAcked(w: World, i: nat, choice: Choice, t: Terms, hotelJoin: seq<string>)
    requires SavesOk(w.saves, t.requestId) && i in w.handlers && t.clean && Fair(w, Proceed(i, choice), t)
    ensures SavesOk(StepWorld(w, Proceed(i, choice), hotelJoin).saves, t.requestId)
  {
  }

  lemma ProceedKeepsAll(w: World, i: nat, choice: Choice, t: Terms, hotelJoin: seq<string>)
    requires ToldInv(w, t.requestId) && JoinInv(w, hotelJoin) && CleanHandlers(w, t.requestId)
    requires t.clean && Fair(w, Proceed(i, choice), t)
    ensures ToldInv(StepWorld(w, Proceed(i, choice), hotelJoin), t.requestId)
  {
    if i in w.handlers {
      assert CallOk(w.handlers[i]);
      ProceedKeepsTold(w, i, choice, t.requestId, hotelJoin);
      NumberedIsNotPending(w.store, w.handlers[i], choice, t.requestId);
      ProceedKeepsAcked(w, i, choice, t, hotelJoin);
    }
  }

  lemma OthersKeepAll(w: World, action: Action, id: string, hotelJoin: seq<string>)
    requires ToldInv(w, id) && !action.Proceed?
    ensures ToldInv(StepWorld(w, action, hotelJoin), id)
  {
    assert Finished(StepWorld(w, action, hotelJoin).handlers, id) == Finished(w.handlers, id);
    if action.Advance? && action.run in w.runs {
      RunLeavesNotPending(w.store, w.runs[action.run], action.reply, id);
    }
  }

  lemma {:induction false} ToldAlways(now: nat, trace: seq<Action>, t: Terms, hotelJoin: seq<string>, w: World)
    requires KnownJoin(hotelJoin) && w == Exec(now, trace, hotelJoin) && FairTrace(now, trace, t, hotelJoin) && t.clean
    ensures ToldInv(w, t.requestId)
    decreases |trace|
  {
    if trace != [] {
      var before, action := trace[..|trace| - 1], trace[|trace| - 1];
      var w0 := Exec(now, before, hotelJoin);
      ToldAlways(now, before, t, hotelJoin, w0);
      JoinAlways(now, before, hotelJoin);
      CleanAlways(now, before, t, hotelJoin, w0);
      if action.Proceed? {
        ProceedKeepsAll(w0, action.handler, action.choice, t, hotelJoin);
      } else {
        OthersKeepAll(w0, action, t.requestId, hotelJoin);
      }
    }
  }

  lemma {:induction false} ToldIsIssued(notes: seq<Note>, issued: set<(string, string)>, requestId: string, n: nat)
    requires forall k :: 0 <= k < |notes| ==> NoteOk(issued, notes[k])
    requires n < |Told(notes, requestId)|
    ensures (requestId, Told(notes, requestId)[n]) in issued
  {
    var before := notes[..|notes| - 1];
    assert NoteOk(issued, notes[|notes| - 1]);
    if n < |Told(before, requestId)| {
      ToldIsIssued(before, issued, requestId, n);
    }
  }

  /** The outcome of a request whose three confirmations are each saved once and are clean, when its handlers are over,
      in every interleaving with anything else. Unless the hotel's came last and has its own constant, the client was
      told exactly one number, the one its document carries; and if the request was submitted once, acknowledged all
      along, the document is CONFIRMED. Otherwise the client was told none and the document has none. */
  lemma OneNumberToldOnce(now: nat, trace: seq<Action>, t: Terms, hotelJoin: seq<string>, a: nat, b: nat, c: nat)
    requires KnownJoin(hotelJoin) && FairTrace(now, trace, t, hotelJoin) && t.clean
    requires OnceEach(Exec(now, trace, hotelJoin).saves, t.requestId, a, b, c)
    requires var w := Exec(now, trace, hotelJoin);
             forall i :: i in w.handlers && w.handlers[i].requestId == t.requestId ==> w.handlers[i].pc == Over
    ensures var w := Exec(now, trace, hotelJoin);
            var stranded := w.saves[c].service == Hotel && hotelJoin != SHARED_JOIN;
            && AllIds(w.store.docs, t.requestId)
            && var d := w.store.docs[t.requestId];
               && (d.bookingId.None? <==> stranded)
               && Told(w.store.notes, t.requestId) == (if stranded then [] else [d.bookingId.value])
               && (t.submissions <= 1 && t.acked ==> (d.status == CONFIRMED <==> !stranded))
  {
    var w := Exec(now, trace, hotelJoin);
    ToldAlways(now, trace, t, hotelJoin, w);
    HasAllIds(now, trace, hotelJoin, t.requestId, a, b, c, w);
    CalledOnce(now, trace, hotelJoin, t.requestId, a, b, c);
    assert Finished(w.handlers, t.requestId) == CallersFor(w, t.requestId);
    if w.saves[c].service == Hotel && hotelJoin != SHARED_JOIN {
      NoCallerNoNumber(now, trace, hotelJoin, t.requestId, w);
    } else {
      TheOneTold(now, trace, hotelJoin, t.requestId, a, b, c, w);
    }
    BookingIdSoundness(now, trace, hotelJoin, t.requestId);
    if t.submissions <= 1 && t.acked {
      NeverFailed(now, trace, t, hotelJoin, w);
    }
  }

  lemma HasAllIds(now: nat, trace: seq<Action>, hotelJoin: seq<string>, requestId: string, a: nat, b: nat, c: nat,
      w: World)
    requires KnownJoin(hotelJoin) && w == Exec(now, trace, hotelJoin) && OnceEach(w.saves, requestId, a, b, c)
    ensures AllIds(w.store.docs, requestId)
  {
    DocsAlways(now, trace, hotelJoin);
    JoinAlways(now, trace, hotelJoin);
    AllSaved(w.saves, requestId, a, b, c);
    AllSavedMeansAllIds(w.store.docs, w.saves, c + 1, requestId);
  }

  lemma NoCallerNoNumber(now: nat, trace: seq<Action>, hotelJoin: seq<string>, requestId: string, w: World)
    requires KnownJoin(hotelJoin) && w == Exec(now, trace, hotelJoin) && requestId in w.store.docs
    requires CallersFor(w, requestId) == {}
    ensures w.store.docs[requestId].bookingId.None?
  {
    BookedAlways(now, trace, hotelJoin);
    forall i | i in w.handlers && w.handlers[i].requestId == requestId ensures !w.handlers[i].called {
      assert w.handlers[i].called <==> i in CallersFor(w, requestId);
    }
  }

  lemma TheOneTold(now: nat, trace: seq<Action>, hotelJoin: seq<string>, requestId: string, a: nat, b: nat, c: nat,
      w: World)
    requires KnownJoin(hotelJoin) && w == Exec(now, trace, hotelJoin) && OnceEach(w.saves, requestId, a, b, c)
    requires requestId in w.store.docs && |Told(w.store.notes, requestId)| == 1
    ensures w.store.docs[requestId].bookingId == Some(Told(w.store.notes, requestId)[0])
  {
    var number := Told(w.store.notes, requestId)[0];
    DocsAlways(now, trace, hotelJoin);
    NumbersAlways(now, trace, hotelJoin, w);
    OneNumber(now, trace, hotelJoin, requestId, a, b, c);
    ToldIsIssued(w.store.notes, w.issued, requestId, 0);
    assert IssuedOk(w.store.docs, (requestId, number));
    assert NumberKnown(w.store.docs, w.issued, requestId);
    SameNumber(w.issued, requestId, number, w.store.docs[requestId].bookingId.value);
  }
}
