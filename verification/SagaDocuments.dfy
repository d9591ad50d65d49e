/** What every interleaving keeps true of the saga documents and of the notifications about them. */
module SagaDocuments {
  import opened SagaTypes
  import opened SagaState
  import opened SagaProtocol

  predicate AllIds(docs: Docs, requestId: string) {
    requestId in docs && forall service :: ReservationId(docs[requestId], service).Some?
  }

  predicate PastWrite(pc: HandlerPc) {
    pc.AggCount? || pc.AggTouch? || pc.AggDequeue? || pc.AggClean? || pc.Confirm?
  }

  /** What a handler past aggregateResults' read, or past its write, knows of its document. */
  predicate HandlerOk(docs: Docs, issued: set<(string, string)>, h: Handler) {
    && (h.pc == AggUpdate ==> AllIds(docs, h.requestId))
    && (PastWrite(h.pc) ==> (h.requestId, h.bookingId) in issued)
  }

  predicate NoteOk(issued: set<(string, string)>, note: Note) {
    note.BookingConfirmed? ==> (note.requestId, note.bookingId) in issued
  }

  /** A booking number once issued: its document still carries one. */
  predicate IssuedOk(docs: Docs, issue: (string, string)) {
    issue.0 in docs && docs[issue.0].bookingId.Some?
  }

  ghost predicate DocsInv(w: World) {
    && AllSound(w.store.docs)
    && UniqueBookings(w.store.docs)
    && (forall i :: i in w.handlers ==> HandlerOk(w.store.docs, w.issued, w.handlers[i]))
    && (forall issue :: issue in w.issued ==> IssuedOk(w.store.docs, issue))
    && (forall k :: 0 <= k < |w.store.notes| ==> NoteOk(w.issued, w.store.notes[k]))
  }

  lemma NewDocSound(userId: string, totalAmount: real)
    ensures Sound(NewDoc(userId, totalAmount))
  {
    var d := NewDoc(userId, totalAmount);
    forall service ensures StepOf(service) in d.completedSteps <==> ReservationId(d, service).Some? {
    }
  }

  /** All three ids and all three steps come together. */
  lemma IdsMeanSteps(d: Doc)
    requires Sound(d)
    ensures AllConfirmed(d) <==> forall service :: ReservationId(d, service).Some?
  {
    assert StepOf(Flight) == FLIGHT_CONFIRMED && StepOf(Hotel) == HOTEL_CONFIRMED && StepOf(Car) == CAR_CONFIRMED;
    if AllConfirmed(d) {
      forall service ensures ReservationId(d, service).Some? {
        assert StepOf(service) in d.completedSteps;
      }
    }
    assert ReservationId(d, Flight).Some? ==> FLIGHT_CONFIRMED in d.completedSteps;
    assert ReservationId(d, Hotel).Some? ==> HOTEL_CONFIRMED in d.completedSteps;
    assert ReservationId(d, Car).Some? ==> CAR_CONFIRMED in d.completedSteps;
  }

  lemma OtherRunStep(s: Store, r: Run, reply: Reply)
    requires !r.pc.Create? && !r.pc.RecordError?
    ensures RunStep(s, r, reply).0.docs == s.docs && RunStep(s, r, reply).0.notes == s.notes
  {
  }

  /** A run's command only adds an empty document or marks one failed. */
  lemma RunStepDocs(s: Store, r: Run, reply: Reply)
    requires AllSound(s.docs)
    ensures var s' := RunStep(s, r, reply).0;
            AllSound(s'.docs) && DocsGrow(s.docs, s'.docs) && s'.notes == s.notes
  {
    match r.pc
    case Create => NewDocSound(r.userId, r.totalAmount);
    case RecordError => SetErrorKeepsSound(s.docs, r.requestId, Reason(r.error));
    case _ => OtherRunStep(s, r, reply);
  }

  lemma RunStepUnique(s: Store, r: Run, reply: Reply)
    requires UniqueBookings(s.docs)
    ensures UniqueBookings(RunStep(s, r, reply).0.docs)
  {
    match r.pc
    case Create =>
    case RecordError =>
    case _ => assert RunStep(s, r, reply).0.docs == s.docs;
  }

  lemma {:induction false} HandlerStepDocs(s: Store, h: Handler, choice: Choice, hotelJoin: seq<string>,
      issued: set<(string, string)>)
    requires AllSound(s.docs) && HandlerOk(s.docs, issued, h)
    ensures var s' := HandlerStep(s, h, choice, hotelJoin).0;
            AllSound(s'.docs) && DocsGrow(s.docs, s'.docs)
  {
    match h.pc
    case Save => SaveKeepsSound(s.docs, h.service, h.requestId, h.reservationId);
    case AggUpdate =>
      IdsMeanSteps(s.docs[h.requestId]);
      FinalizeKeepsSound(s.docs, h.requestId, choice.bookingId);
    case AggError => SetErrorKeepsSound(s.docs, h.requestId, h.error);
    case _ => assert HandlerStep(s, h, choice, hotelJoin).0.docs == s.docs;
  }

  lemma HandlerStepUnique(s: Store, h: Handler, choice: Choice, hotelJoin: seq<string>)
    requires UniqueBookings(s.docs)
    ensures UniqueBookings(HandlerStep(s, h, choice, hotelJoin).0.docs)
  {
    match h.pc
    case Save =>
    case AggUpdate =>
    case AggError =>
    case _ => assert HandlerStep(s, h, choice, hotelJoin).0.docs == s.docs;
  }

  /** A handler gets past aggregateResults' read only with all three ids in its document. */
  lemma FindStepOk(s: Store, h: Handler, choice: Choice, hotelJoin: seq<string>, issued: set<(string, string)>)
    requires h.pc == AggFind
    ensures HandlerOk(HandlerStep(s, h, choice, hotelJoin).0.docs, issued, HandlerStep(s, h, choice, hotelJoin).1)
  {
    if h.requestId in s.docs && !Incomplete(s.docs[h.requestId]) {
      forall service ensures ReservationId(s.docs[h.requestId], service).Some? {
        match service case Flight => case Hotel => case Car =>
      }
    }
  }

  /** A handler gets past the write only if its number is then in the document. */
  lemma UpdateStepOk(s: Store, h: Handler, choice: Choice, hotelJoin: seq<string>, issued: set<(string, string)>)
    requires h.pc == AggUpdate && h.requestId in s.docs
    ensures var (s', h') := HandlerStep(s, h, choice, hotelJoin);
            HandlerOk(s'.docs, issued + Issued(s'.docs, h.requestId), h')
  {
  }

  /** The stepping handler's own obligations. */
  lemma {:induction false} HandlerStepOk(s: Store, h: Handler, choice: Choice, hotelJoin: seq<string>,
      issued: set<(string, string)>)
    requires AllSound(s.docs) && HandlerOk(s.docs, issued, h)
    ensures var (s', h') := HandlerStep(s, h, choice, hotelJoin);
            HandlerOk(s'.docs, issued + Issued(s'.docs, h.requestId), h')
  {
    if h.pc == AggFind {
      FindStepOk(s, h, choice, hotelJoin, issued + Issued(s.docs, h.requestId));
    } else if h.pc == AggUpdate {
      UpdateStepOk(s, h, choice, hotelJoin, issued);
    } else {
      var h' := HandlerStep(s, h, choice, hotelJoin).1;
      assert h'.pc != AggUpdate && (PastWrite(h'.pc) ==> PastWrite(h.pc) && h'.bookingId == h.bookingId);
    }
  }

  lemma HandlerStepNotes(s: Store, h: Handler, choice: Choice, hotelJoin: seq<string>, issued: set<(string, string)>)
    requires HandlerOk(s.docs, issued, h)
    requires forall k :: 0 <= k < |s.notes| ==> NoteOk(issued, s.notes[k])
    ensures var s' := HandlerStep(s, h, choice, hotelJoin).0;
            forall k :: 0 <= k < |s'.notes| ==> NoteOk(issued + Issued(s'.docs, h.requestId), s'.notes[k])
  {
    match h.pc
    case Confirm =>
    case Fail =>
    case _ => assert HandlerStep(s, h, choice, hotelJoin).0.notes == s.notes;
  }

  lemma HandlerFrame(docs: Docs, docs': Docs, issued: set<(string, string)>, issued': set<(string, string)>, h: Handler)
    requires DocsGrow(docs, docs') && issued <= issued' && HandlerOk(docs, issued, h)
    ensures HandlerOk(docs', issued', h)
  {
  }

  lemma {:induction false} AdvanceKeepsDocs(w: World, i: nat, reply: Reply, hotelJoin: seq<string>)
    requires DocsInv(w)
    ensures DocsInv(StepWorld(w, Advance(i, reply), hotelJoin))
  {
    if i in w.runs {
      RunStepDocs(w.store, w.runs[i], reply);
      RunStepUnique(w.store, w.runs[i], reply);
      var docs' := RunStep(w.store, w.runs[i], reply).0.docs;
      forall j | j in w.handlers ensures HandlerOk(docs', w.issued, w.handlers[j]) {
        HandlerFrame(w.store.docs, docs', w.issued, w.issued, w.handlers[j]);
      }
    }
  }

  lemma {:induction false} ProceedKeepsDocs(w: World, i: nat, choice: Choice, hotelJoin: seq<string>)
    requires DocsInv(w)
    ensures DocsInv(StepWorld(w, Proceed(i, choice), hotelJoin))
  {
    if i in w.handlers {
      var h := w.handlers[i];
      var (s', h') := HandlerStep(w.store, h, choice, hotelJoin);
      var issued' := w.issued + Issued(s'.docs, h.requestId);
      HandlerStepDocs(w.store, h, choice, hotelJoin, w.issued);
      HandlerStepUnique(w.store, h, choice, hotelJoin);
      HandlerStepOk(w.store, h, choice, hotelJoin, w.issued);
      HandlerStepNotes(w.store, h, choice, hotelJoin, w.issued);
      ProceedKeepsDocsPart(w, i, s', h', issued');
      assert StepWorld(w, Proceed(i, choice), hotelJoin).store == s';
    }
  }

  lemma ProceedKeepsDocsPart(w: World, i: nat, s': Store, h': Handler, issued': set<(string, string)>)
    requires DocsInv(w) && i in w.handlers
    requires AllSound(s'.docs) && DocsGrow(w.store.docs, s'.docs)
    requires issued' == w.issued + Issued(s'.docs, w.handlers[i].requestId)
    requires HandlerOk(s'.docs, issued', h')
    ensures forall j :: j in w.handlers ==> HandlerOk(s'.docs, issued', w.handlers[j])
    ensures forall issue :: issue in issued' ==> IssuedOk(s'.docs, issue)
  {
    forall j | j in w.handlers ensures HandlerOk(s'.docs, issued', w.handlers[j]) {
      HandlerFrame(w.store.docs, s'.docs, w.issued, issued', w.handlers[j]);
    }
    forall issue | issue in issued' ensures IssuedOk(s'.docs, issue) {
      assert issue in w.issued ==> IssuedOk(w.store.docs, issue);
    }
  }

  lemma {:induction false} DocsAlways(now: nat, trace: seq<Action>, hotelJoin: seq<string>)
    ensures DocsInv(Exec(now, trace, hotelJoin))
  {
    if trace != [] {
      var before := trace[..|trace| - 1];
      DocsAlways(now, before, hotelJoin);
      var w := Exec(now, before, hotelJoin);
      match trace[|trace| - 1]
      case Advance(i, reply) => AdvanceKeepsDocs(w, i, reply, hotelJoin);
      case Proceed(i, choice) => ProceedKeepsDocs(w, i, choice, hotelJoin);
      case _ =>
    }
  }

  // ---- Theorems ----

  /** A document with a booking number, or CONFIRMED, has all three reservation ids and all three steps, and shares
      its number with no other document. */
  lemma BookingIdSoundness(now: nat, trace: seq<Action>, hotelJoin: seq<string>, requestId: string)
    requires requestId in Exec(now, trace, hotelJoin).store.docs
    ensures var docs := Exec(now, trace, hotelJoin).store.docs;
            var d := docs[requestId];
            d.bookingId.Some? || d.status == CONFIRMED ==>
              && d.bookingId.Some? && AllConfirmed(d) && AllIds(docs, requestId)
              && !BookingIdTaken(docs, requestId, d.bookingId.value)
  {
    DocsAlways(now, trace, hotelJoin);
    var d := Exec(now, trace, hotelJoin).store.docs[requestId];
    assert Sound(d);
    IdsMeanSteps(d);
  }

  /** Every CONFIRMED notification names a booking number that its document has carried; that document still has
      a number and all three confirmations. */
  lemma NotificationSoundness(now: nat, trace: seq<Action>, hotelJoin: seq<string>, k: nat)
    requires var w := Exec(now, trace, hotelJoin); k < |w.store.notes| && w.store.notes[k].BookingConfirmed?
    ensures var w := Exec(now, trace, hotelJoin);
            var note := w.store.notes[k];
            && (note.requestId, note.bookingId) in w.issued
            && note.requestId in w.store.docs
            && w.store.docs[note.requestId].bookingId.Some?
            && AllConfirmed(w.store.docs[note.requestId])
  {
    DocsAlways(now, trace, hotelJoin);
    var w := Exec(now, trace, hotelJoin);
    var note := w.store.notes[k];
    assert NoteOk(w.issued, note);
    assert IssuedOk(w.store.docs, (note.requestId, note.bookingId));
    assert Sound(w.store.docs[note.requestId]);
  }

  lemma {:induction false} OneActionGrows(w: World, action: Action, hotelJoin: seq<string>)
    requires DocsInv(w)
    ensures DocsGrow(w.store.docs, StepWorld(w, action, hotelJoin).store.docs)
  {
    match action
    case Advance(i, reply) => if i in w.runs { RunStepDocs(w.store, w.runs[i], reply); }
    case Proceed(i, choice) =>
      if i in w.handlers { HandlerStepDocs(w.store, w.handlers[i], choice, hotelJoin, w.issued); }
    case _ =>
  }

  /** From any moment on, documents only gain steps, ids and numbers, and none re-enters PENDING. */
  lemma {:induction false} DocumentsOnlyGrow(now: nat, trace: seq<Action>, more: seq<Action>, hotelJoin: seq<string>)
    ensures DocsGrow(Exec(now, trace, hotelJoin).store.docs, Exec(now, trace + more, hotelJoin).store.docs)
  {
    if more == [] {
      assert trace + more == trace;
    } else {
      var all, less := trace + more, more[..|more| - 1];
      assert all[..|all| - 1] == trace + less;
      DocumentsOnlyGrow(now, trace, less, hotelJoin);
      DocsAlways(now, trace + less, hotelJoin);
      OneActionGrows(Exec(now, trace + less, hotelJoin), more[|more| - 1], hotelJoin);
      GrowsTransitive(Exec(now, trace, hotelJoin).store.docs, Exec(now, trace + less, hotelJoin).store.docs,
                      Exec(now, all, hotelJoin).store.docs);
    }
  }

  lemma GrowsTransitive(a: Docs, b: Docs, c: Docs)
    requires DocsGrow(a, b) && DocsGrow(b, c)
    ensures DocsGrow(a, c)
  {
  }
}
