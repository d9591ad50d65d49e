/** A deposit is in the balance only after its payment succeeded, however handlers and outside moves interleave. */
module LedgerPayments {
  import opened Ledger

  /** At position m, handler i asked Stripe to pay for row k, and was told that it succeeded. */
  predicate PaidAt(opening: map<string, real>, trace: seq<Action>, m: nat, i: nat, k: nat) {
    && m < |trace| && trace[m].Proceed? && trace[m].job == i && trace[m].choice.payment == Succeeded
    && var w := Exec(opening, trace[..m]);
       i in w.jobs && w.jobs[i].kind == DEPOSIT && w.jobs[i].pc == Pay && w.jobs[i].row == k
  }

  ghost predicate Paid(opening: map<string, real>, trace: seq<Action>, i: nat, k: nat) {
    exists m: nat :: PaidAt(opening, trace, m, i, k)
  }

  /** Some handler of row k was told that its payment succeeded. */
  ghost predicate PaidFor(opening: map<string, real>, trace: seq<Action>, k: nat) {
    exists i: nat :: Paid(opening, trace, i, k)
  }

  lemma PaidStays(opening: map<string, real>, trace: seq<Action>, i: nat, k: nat)
    requires trace != [] && Paid(opening, trace[..|trace| - 1], i, k)
    ensures Paid(opening, trace, i, k)
  {
    var before := trace[..|trace| - 1];
    var m: nat :| PaidAt(opening, before, m, i, k);
    assert before[..m] == trace[..m];
    assert PaidAt(opening, trace, m, i, k);
  }

  predicate PastPayment(job: Job) {
    job.kind == DEPOSIT && (job.pc == RecordIntent(true) || job.pc == UpdateBalance || AfterCredit(job.pc))
  }

  predicate Credited(rows: seq<Row>, k: nat) {
    k < |rows| && rows[k].kind == DEPOSIT && rows[k].applied > 0
  }

  /** How a handler gets past its payment, and a row into the balance. */
  lemma StepPays(w: World, action: Action, i: nat)
    requires i in StepWorld(w, action).jobs && PastPayment(StepWorld(w, action).jobs[i])
    requires !(i in w.jobs && PastPayment(w.jobs[i]))
    ensures action.Proceed? && action.job == i && action.choice.payment == Succeeded
    ensures i in w.jobs && w.jobs[i].kind == DEPOSIT && w.jobs[i].pc == Pay
            && w.jobs[i].row == StepWorld(w, action).jobs[i].row
  {
  }

  lemma StepCredits(opening: map<string, real>, w: World, action: Action, k: nat)
    requires LedgerInv(opening, w) && Credited(StepWorld(w, action).db.rows, k) && !Credited(w.db.rows, k)
    ensures action.Proceed? && action.job in w.jobs && PastPayment(w.jobs[action.job]) && w.jobs[action.job].row == k
  {
    if action.Proceed? && action.job in w.jobs {
      assert JobOwns(w.db, w.jobs[action.job]);
    }
  }

  lemma RowKept(w: World, action: Action, i: nat)
    requires i in w.jobs && PastPayment(w.jobs[i])
    ensures i in StepWorld(w, action).jobs && StepWorld(w, action).jobs[i].row == w.jobs[i].row
  {
  }

  lemma {:induction false} JobsPaid(opening: map<string, real>, trace: seq<Action>, w: World, i: nat)
    requires w == Exec(opening, trace) && i in w.jobs && PastPayment(w.jobs[i])
    ensures Paid(opening, trace, i, w.jobs[i].row)
    decreases |trace|
  {
    var before, action := trace[..|trace| - 1], trace[|trace| - 1];
    var w0 := Exec(opening, before);
    if i in w0.jobs && PastPayment(w0.jobs[i]) {
      JobsPaid(opening, before, w0, i);
      RowKept(w0, action, i);
      PaidStays(opening, trace, i, w.jobs[i].row);
    } else {
      StepPays(w0, action, i);
      assert PaidAt(opening, trace, |before|, i, w.jobs[i].row);
    }
  }

  /** On every trace, a deposit that is in the balance was paid for: a handler of that row had asked Stripe and been
      told that the payment succeeded. */
  lemma {:induction false} CreditedWasPaid(opening: map<string, real>, trace: seq<Action>, k: nat)
    requires Credited(Exec(opening, trace).db.rows, k)
    ensures PaidFor(opening, trace, k)
    decreases |trace|
  {
    var before, action := trace[..|trace| - 1], trace[|trace| - 1];
    var w0 := Exec(opening, before);
    if Credited(w0.db.rows, k) {
      CreditedWasPaid(opening, before, k);
      var i: nat :| Paid(opening, before, i, k);
      PaidStays(opening, trace, i, k);
    } else {
      LedgerAlways(opening, before, w0);
      StepCredits(opening, w0, action, k);
      JobsPaid(opening, before, w0, action.job);
      PaidStays(opening, trace, action.job, k);
    }
  }
}
