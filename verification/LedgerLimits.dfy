/** Where the ledger's guarantees end once calls interleave: the balance check and the state check both act on what was
    read, not on what is there when they write. Each limit is given exactly. */
module LedgerLimits {
  import opened Demands
  import opened SagaTypes
  import opened TransactionStates
  import opened Ledger

  lemma Extend(opening: map<string, real>, trace: seq<Action>, action: Action)
    ensures Exec(opening, trace + [action]) == StepWorld(Exec(opening, trace), action)
  {
    assert (trace + [action])[..|trace|] == trace;
  }

  // ---- When interleaved withdrawals overdraw ----

  /** What is asked of one user's account: handler i withdraws the i-th amount, the others deposit nothing negative.
      Other users' handlers, outside moves, and the order of everything are free. */
  predicate Asks(action: Action, userId: string, amounts: seq<real>) {
    action.Start? && action.userId == userId ==>
      if action.kind == WITHDRAWAL then action.job < |amounts| && action.amount == amounts[action.job]
      else action.amount >= 0.0
  }

  predicate AllAsk(trace: seq<Action>, userId: string, amounts: seq<real>) {
    forall k :: 0 <= k < |trace| ==> Asks(trace[k], userId, amounts)
  }

  /** The requests that have got past their row's creation. */
  function Paid(jobs: map<nat, Job>): set<nat> {
    set i | i in jobs && !(jobs[i].pc.FindUser? || jobs[i].pc.CreateUser? || jobs[i].pc.CreateRow?)
  }

  /** The most that a user's withdrawal rows can have taken. */
  function Drawn(rows: seq<Row>, userId: string): real {
    if rows == [] then 0.0 else
      var last := rows[|rows| - 1];
      Drawn(rows[..|rows| - 1], userId) + if last.userId == userId && last.kind == WITHDRAWAL then Draw(last.amount)
                                          else 0.0
  }

  lemma DrawnAppend(rows: seq<Row>, row: Row, userId: string)
    ensures Drawn(rows + [row], userId) ==
            Drawn(rows, userId) + if row.userId == userId && row.kind == WITHDRAWAL then Draw(row.amount) else 0.0
  {
    assert (rows + [row])[..|rows|] == rows;
  }

  lemma {:induction false} DrawnUpdate(rows: seq<Row>, i: nat, row: Row, userId: string)
    requires i < |rows| && row.userId == rows[i].userId && row.kind == rows[i].kind && row.amount == rows[i].amount
    ensures Drawn(rows[i := row], userId) == Drawn(rows, userId)
    decreases |rows|
  {
    var n := |rows| - 1;
    if i == n {
      assert rows[i := row][..n] == rows[..n];
    } else {
      assert rows[i := row][..n] == rows[..n][i := row];
      DrawnUpdate(rows[..n], i, row, userId);
    }
  }

  predicate JobAsks(jobs: map<nat, Job>, i: nat, userId: string, amounts: seq<real>) {
    i in jobs && jobs[i].userId == userId ==>
      if jobs[i].kind == WITHDRAWAL then i < |amounts| && jobs[i].amount == amounts[i] else jobs[i].amount >= 0.0
  }

  predicate RowAsks(row: Row, userId: string) {
    row.userId == userId && row.kind == DEPOSIT ==> row.amount >= 0.0
  }

  /** What was drawn and what is outstanding never exceed the demand. */
  ghost predicate DemandInv(w: World, userId: string, amounts: seq<real>) {
    && Drawn(w.db.rows, userId) + Outstanding(Paid(w.jobs), amounts, |amounts|) <= Demand(amounts, |amounts|)
    && (forall i :: i in w.jobs ==> JobAsks(w.jobs, i, userId, amounts))
    && (forall k :: 0 <= k < |w.db.rows| ==> RowAsks(w.db.rows[k], userId))
  }

  lemma ProceedRows(db: Db, job: Job, choice: Choice, userId: string)
    requires JobOwns(db, job)
    requires forall k :: 0 <= k < |db.rows| ==> RowAsks(db.rows[k], userId)
    requires job.userId == userId && job.kind == DEPOSIT ==> job.amount >= 0.0
    ensures var db' := NextDb(db, job, choice);
            var created := job.pc == CreateRow && choice.reply != Lost;
            && (forall k :: 0 <= k < |db'.rows| ==> RowAsks(db'.rows[k], userId))
            && Drawn(db'.rows, userId) ==
               Drawn(db.rows, userId) + if created && job.userId == userId && job.kind == WITHDRAWAL
                                        then Draw(job.amount) else 0.0
  {
    var db' := NextDb(db, job, choice);
    if job.pc == CreateRow {
      DrawnAppend(db.rows, NewRow(job.userId, job.kind, job.amount), userId);
    } else if HasRow(job.pc) && db' != db {
      DrawnUpdate(db.rows, job.row, db'.rows[job.row], userId);
    }
  }

  /** The creation of its row takes a job's draw off what is outstanding, and nothing else does. */
  lemma JobPays(db: Db, jobs: map<nat, Job>, i: nat, choice: Choice, amounts: seq<real>)
    requires i in jobs
    ensures var jobs' := jobs[i := NextJob(db, jobs[i], choice)];
            && (jobs[i].pc == CreateRow ==> i in Paid(jobs'))
            && Outstanding(Paid(jobs'), amounts, |amounts|) ==
               Outstanding(Paid(jobs), amounts, |amounts|) - if i < |amounts| && i in Paid(jobs') && i !in Paid(jobs)
                                                             then Draw(amounts[i]) else 0.0
  {
    var jobs' := jobs[i := NextJob(db, jobs[i], choice)];
    PayOne(Paid(jobs), i, amounts, |amounts|);
    assert Paid(jobs') == if i in Paid(jobs') && i !in Paid(jobs) then Paid(jobs) + {i} else Paid(jobs);
  }

  lemma ProceedKeepsDemand(opening: map<string, real>, w: World, i: nat, choice: Choice, userId: string,
      amounts: seq<real>)
    requires LedgerInv(opening, w) && DemandInv(w, userId, amounts)
    ensures DemandInv(StepWorld(w, Proceed(i, choice)), userId, amounts)
  {
    if i in w.jobs {
      var job, job' := w.jobs[i], NextJob(w.db, w.jobs[i], choice);
      assert JobAsks(w.jobs, i, userId, amounts);
      ProceedRows(w.db, job, choice, userId);
      var jobs' := w.jobs[i := job'];
      JobPays(w.db, w.jobs, i, choice, amounts);
      forall j | j in jobs' ensures JobAsks(jobs', j, userId, amounts) {
        assert j in w.jobs && JobAsks(w.jobs, j, userId, amounts);
      }
    }
  }

  lemma CarryKeepsDemand(w: World, i: nat, reply: Reply, now: nat, userId: string, amounts: seq<real>)
    requires DemandInv(w, userId, amounts)
    ensures DemandInv(StepWorld(w, Carry(i, reply, now)), userId, amounts)
  {
    if i in w.movers && w.movers[i].pc == Writing && reply != Lost && w.movers[i].row < |w.db.rows| {
      var k := w.movers[i].row;
      DrawnUpdate(w.db.rows, k, Moved(w.db.rows[k], w.movers[i].to, now), userId);
    }
  }

  lemma StartKeepsDemand(w: World, action: Action, userId: string, amounts: seq<real>)
    requires DemandInv(w, userId, amounts) && action.Start? && Asks(action, userId, amounts)
    ensures DemandInv(StepWorld(w, action), userId, amounts)
  {
    if action.job !in w.jobs {
      var job := NewJob(action.kind, action.userId, action.amount);
      var jobs' := w.jobs[action.job := job];
      assert Paid(jobs') == Paid(w.jobs);
      forall j | j in jobs' ensures JobAsks(jobs', j, userId, amounts) {
        if j != action.job {
          assert JobAsks(w.jobs, j, userId, amounts);
        }
      }
    }
  }

  lemma {:induction false} DemandAlways(opening: map<string, real>, trace: seq<Action>, userId: string,
      amounts: seq<real>, w: World)
    requires w == Exec(opening, trace) && AllAsk(trace, userId, amounts)
    ensures DemandInv(w, userId, amounts)
    decreases |trace|
  {
    if trace == [] {
      assert Paid(w.jobs) == {};
      AllOutstanding(amounts, |amounts|);
    } else {
      var before, action := trace[..|trace| - 1], trace[|trace| - 1];
      var w0 := Exec(opening, before);
      DemandAlways(opening, before, userId, amounts, w0);
      LedgerAlways(opening, before, w0);
      assert Asks(action, userId, amounts);
      match action
      case Start(_, _, _, _) => StartKeepsDemand(w0, action, userId, amounts);
      case Proceed(i, choice) => ProceedKeepsDemand(opening, w0, i, choice, userId, amounts);
      case Move(_, _, _) =>
      case Carry(i, reply, now) => CarryKeepsDemand(w0, i, reply, now, userId, amounts);
    }
  }

  lemma {:induction false} AppliedTakesAtMostDrawn(rows: seq<Row>, userId: string)
    requires forall k :: 0 <= k < |rows| ==> rows[k].applied <= 1 && RowAsks(rows[k], userId)
    ensures Applied(rows, userId) >= -Drawn(rows, userId)
    decreases |rows|
  {
    if rows != [] {
      var last := rows[|rows| - 1];
      AppliedTakesAtMostDrawn(rows[..|rows| - 1], userId);
      assert last.applied <= 1 && RowAsks(last, userId);
      OneContribution(last);
    }
  }

  lemma OneContribution(row: Row)
    requires row.applied <= 1
    ensures Contribution(row) == if row.applied == 1 then Signed(row.kind, row.amount) else 0.0
  {
    if row.applied == 1 {
      assert 1.0 * Signed(row.kind, row.amount) == Signed(row.kind, row.amount);
    }
  }

  /** On every trace the balance keeps what the opening balance has beyond the demand. */
  lemma DemandIsAllThatGoes(opening: map<string, real>, trace: seq<Action>, userId: string, amounts: seq<real>)
    requires AllAsk(trace, userId, amounts) && userId in Exec(opening, trace).db.users
    ensures Exec(opening, trace).db.users[userId] >= OpeningBalance(opening, userId) - Demand(amounts, |amounts|)
  {
    var w := Exec(opening, trace);
    LedgerAlways(opening, trace, w);
    DemandAlways(opening, trace, userId, amounts, w);
    AppliedTakesAtMostDrawn(w.db.rows, userId);
    OutstandingIsNotNegative(Paid(w.jobs), amounts, |amounts|);
  }

  const GO: Choice := Choice(Ok, Succeeded, 0)

  /** n steps of one handler, all acknowledged, are a trace. */
  lemma {:induction false} Walk(opening: map<string, real>, before: seq<Action>, i: nat, n: nat)
      returns (trace: seq<Action>)
    requires i in Exec(opening, before).jobs
    ensures var w := Exec(opening, before);
            Exec(opening, trace) == World(Walked(w.db, w.jobs[i], n).0, w.jobs[i := Walked(w.db, w.jobs[i], n).1],
                                          w.movers)
    ensures before <= trace && forall k :: |before| <= k < |trace| ==> trace[k].Proceed?
  {
    var w := Exec(opening, before);
    if n == 0 {
      trace := before;
      assert w.jobs[i := w.jobs[i]] == w.jobs;
    } else {
      var most := Walk(opening, before, i, n - 1);
      Extend(opening, most, Proceed(i, GO));
      trace := most + [Proceed(i, GO)];
      var (db, job) := Walked(w.db, w.jobs[i], n - 1);
      assert w.jobs[i := job][i := NextJob(db, job, GO)] == w.jobs[i := NextJob(db, job, GO)];
    }
  }

  function Walked(db: Db, job: Job, n: nat): (Db, Job) {
    if n == 0 then (db, job) else
      var (db', job') := Walked(db, job, n - 1);
      (NextDb(db', job', GO), NextJob(db', job', GO))
  }

  /** From the creation of its row, a withdrawal of a known user takes three steps to its balance update. */
  lemma ToUpdate(db: Db, job: Job)
    requires job.pc == CreateRow && job.kind == WITHDRAWAL && job.userId in db.users
    ensures var (db3, job3) := Walked(db, job, 3);
            && job3 == job.(pc := UpdateBalance, row := |db.rows|) && db3.users == db.users
            && |db3.rows| == |db.rows| + 1 && db3.rows[|db.rows|].state == PROCESSING
               && db3.rows[|db.rows|].applied == 0
  {
    var n := |db.rows|;
    var (db1, job1) := Walked(db, job, 1);
    assert Walked(db, job, 0) == (db, job);
    assert db1 == db.(rows := db.rows + [NewRow(job.userId, job.kind, job.amount)])
           && job1 == job.(pc := ReadCreated, row := n);
    TableOf(CREATED, PROCESSING);
    var (db2, job2) := Walked(db, job, 2);
    assert db2 == db1 && job2 == job1.(pc := WriteProcessing);
  }

  /** And two more to its last write. */
  lemma ToPayout(db: Db, job: Job)
    requires job.pc == CreateRow && job.kind == WITHDRAWAL && job.userId in db.users
    ensures var (db5, job5) := Walked(db, job, 5);
            && job5 == job.(pc := WriteCompleted, row := |db.rows|)
            && db5.users == db.users[job.userId := db.users[job.userId] - job.amount]
            && |db5.rows| == |db.rows| + 1 && db5.rows[|db.rows|].state == PROCESSING
               && db5.rows[|db.rows|].applied == 1
  {
    ToUpdate(db, job);
    TableOf(PROCESSING, COMPLETED);
    var (db3, job3) := Walked(db, job, 3);
    var (db4, job4) := Walked(db, job, 4);
    assert db4 == NextDb(db3, job3, GO) && job4 == NextJob(db3, job3, GO);
    assert job4.pc == ReadProcessing && db4.rows[|db.rows|].state == PROCESSING;
    assert Walked(db, job, 5) == (NextDb(db4, job4, GO), NextJob(db4, job4, GO));
  }

  lemma GoesThrough(db: Db, job: Job)
    requires job.pc == CreateRow && job.kind == WITHDRAWAL && job.userId in db.users
    ensures var (db', job') := Walked(db, job, 6);
            && job'.pc == Returned
            && db'.users == db.users[job.userId := db.users[job.userId] - job.amount]
            && |db'.rows| == |db.rows| + 1 && db'.rows[|db.rows|].state == COMPLETED && db'.users.Keys == db.users.Keys
  {
    ToPayout(db, job);
    assert Walked(db, job, 6) == (NextDb(Walked(db, job, 5).0, Walked(db, job, 5).1, GO),
                                  NextJob(Walked(db, job, 5).0, Walked(db, job, 5).1, GO));
  }

  // ---- The unsafe half: all check, then all pay ----

  predicate Checked(jobs: map<nat, Job>, i: nat, userId: string, amounts: seq<real>)
    requires i < |amounts|
  {
    i in jobs && jobs[i] == Job(WITHDRAWAL, userId, amounts[i], CreateRow, 0)
  }

  /** One more withdrawal starts and passes its check. */
  lemma OneChecks(opening: map<string, real>, before: seq<Action>, userId: string, amounts: seq<real>, n: nat)
    returns (trace: seq<Action>)
    requires n < |amounts| && userId in opening && amounts[n] <= opening[userId]
    requires var w := Exec(opening, before); w.db == Db(opening, []) && n !in w.jobs
    ensures var w := Exec(opening, before);
            Exec(opening, trace) == w.(jobs := w.jobs[n := Job(WITHDRAWAL, userId, amounts[n], CreateRow, 0)])
    ensures AllAsk(before, userId, amounts) ==> AllAsk(trace, userId, amounts)
  {
    var s, p := Start(n, WITHDRAWAL, userId, amounts[n]), Proceed(n, GO);
    Extend(opening, before, s);
    Extend(opening, before + [s], p);
    trace := before + [s] + [p];
    var jobs: map<nat, Job> := Exec(opening, before).jobs;
    var job := NewJob(WITHDRAWAL, userId, amounts[n]);
    assert jobs[n := job][n := AfterUser(job, opening[userId])] == jobs[n := AfterUser(job, opening[userId])];
  }

  lemma {:induction false} AllCheck(opening: map<string, real>, userId: string, amounts: seq<real>, n: nat)
      returns (trace: seq<Action>)
    requires n <= |amounts| && userId in opening && forall i :: 0 <= i < |amounts| ==> amounts[i] <= opening[userId]
    ensures AllAsk(trace, userId, amounts) && Exec(opening, trace).db == Db(opening, [])
    ensures forall i :: 0 <= i < n ==> Checked(Exec(opening, trace).jobs, i, userId, amounts)
    ensures forall i :: i in Exec(opening, trace).jobs ==> i < n
  {
    if n == 0 {
      trace := [];
    } else {
      var before := AllCheck(opening, userId, amounts, n - 1);
      trace := OneChecks(opening, before, userId, amounts, n - 1);
      var w, w' := Exec(opening, before), Exec(opening, trace);
      forall i | 0 <= i < n ensures Checked(w'.jobs, i, userId, amounts) {
        if i < n - 1 {
          assert Checked(w.jobs, i, userId, amounts);
        }
      }
    }
  }

  lemma OnePays(opening: map<string, real>, before: seq<Action>, userId: string, amounts: seq<real>, n: nat)
    returns (trace: seq<Action>)
    requires n < |amounts| && AllAsk(before, userId, amounts)
    requires var w := Exec(opening, before); Checked(w.jobs, n, userId, amounts) && userId in w.db.users
    ensures var w, w' := Exec(opening, before), Exec(opening, trace);
            && w'.db.users == w.db.users[userId := w.db.users[userId] - Draw(amounts[n])]
            && (forall i :: i != n && i in w.jobs ==> i in w'.jobs && w'.jobs[i] == w.jobs[i])
    ensures AllAsk(trace, userId, amounts)
  {
    var w := Exec(opening, before);
    if amounts[n] > 0.0 {
      trace := Walk(opening, before, n, 6);
      GoesThrough(w.db, w.jobs[n]);
      forall k | 0 <= k < |trace| ensures Asks(trace[k], userId, amounts) {
        if k < |before| {
          assert trace[k] == before[k] && Asks(before[k], userId, amounts);
        }
      }
    } else {
      trace := before;
      assert w.db.users[userId := w.db.users[userId]] == w.db.users;
    }
  }

  lemma {:induction false} AllPay(opening: map<string, real>, userId: string, amounts: seq<real>, n: nat)
      returns (trace: seq<Action>)
    requires n <= |amounts| && userId in opening && forall i :: 0 <= i < |amounts| ==> amounts[i] <= opening[userId]
    ensures AllAsk(trace, userId, amounts)
    ensures var w := Exec(opening, trace);
            && userId in w.db.users && w.db.users[userId] == opening[userId] - Demand(amounts, n)
            && forall i :: n <= i < |amounts| ==> Checked(w.jobs, i, userId, amounts)
  {
    if n == 0 {
      trace := AllCheck(opening, userId, amounts, |amounts|);
    } else {
      var before := AllPay(opening, userId, amounts, n - 1);
      trace := OnePays(opening, before, userId, amounts, n - 1);
      var w, w' := Exec(opening, before), Exec(opening, trace);
      forall i | n <= i < |amounts| ensures Checked(w'.jobs, i, userId, amounts) {
        assert Checked(w.jobs, i, userId, amounts);
      }
    }
  }

  /** Some interleaving of the requests takes the balance below zero. */
  ghost predicate CanOverdraw(opening: map<string, real>, userId: string, amounts: seq<real>) {
    exists trace :: AllAsk(trace, userId, amounts) && Overdrawn(Exec(opening, trace).db, userId)
  }

  predicate Overdrawn(db: Db, userId: string) {
    userId in db.users && db.users[userId] < 0.0
  }

  /** When interleaved withdrawals that each fit the balance can overdraw it: exactly when their positive amounts add
      up to more than it. Then all can check before any pays; otherwise no interleaving, with deposits, moves, faults
      and other users' calls in between, goes below zero. */
  lemma OverdraftIff(opening: map<string, real>, userId: string, amounts: seq<real>)
    requires userId in opening && forall i :: 0 <= i < |amounts| ==> amounts[i] <= opening[userId]
    ensures CanOverdraw(opening, userId, amounts) <==> Demand(amounts, |amounts|) > opening[userId]
  {
    if Demand(amounts, |amounts|) > opening[userId] {
      var trace := AllPay(opening, userId, amounts, |amounts|);
      assert Overdrawn(Exec(opening, trace).db, userId);
    }
    if CanOverdraw(opening, userId, amounts) {
      var trace :| AllAsk(trace, userId, amounts) && Overdrawn(Exec(opening, trace).db, userId);
      DemandIsAllThatGoes(opening, trace, userId, amounts);
    }
  }

  // ---- When a cancellation is overwritten ----

  /** The action writes a state other than CANCELED to row k on the strength of an earlier read. */
  predicate Overwrites(w: World, action: Action, k: nat) {
    match action
    case Proceed(i, choice) =>
      i in w.jobs && choice.reply != Lost && w.jobs[i].row == k
      && (w.jobs[i].pc.WriteProcessing? || w.jobs[i].pc.WriteCompleted?)
    case Carry(i, reply, _) =>
      i in w.movers && reply != Lost && w.movers[i].row == k && w.movers[i].pc == Writing && w.movers[i].to != CANCELED
    case _ => false
  }

  /** From any reachable world, a CANCELED row leaves CANCELED exactly with a write that was judged on an earlier
      read: of its handler at one of its two transitions, or of another outside call. */
  lemma CanceledChangesIff(opening: map<string, real>, w: World, action: Action, k: nat)
    requires LedgerInv(opening, w) && k < |w.db.rows| && w.db.rows[k].state == CANCELED
    ensures k < |StepWorld(w, action).db.rows|
    ensures StepWorld(w, action).db.rows[k].state != CANCELED <==> Overwrites(w, action, k)
  {
    if action.Proceed? && action.job in w.jobs {
      StepRows(w.db, w.jobs[action.job], action.choice);
    }
  }

  /** A write to row k of a state other than CANCELED is on its way, judged before now. */
  ghost predicate PendingWriter(w: World, k: nat) {
    || (exists i :: i in w.jobs && w.jobs[i].row == k
                    && (w.jobs[i].pc.WriteProcessing? || w.jobs[i].pc.WriteCompleted?))
    || (exists i :: i in w.movers && w.movers[i].row == k && w.movers[i].pc == Writing && w.movers[i].to != CANCELED)
  }

  /** No step judged on a CANCELED row makes a writer of it, and without one the row stays as it is. */
  lemma NoNewWriter(opening: map<string, real>, w: World, action: Action, k: nat)
    requires LedgerInv(opening, w) && k < |w.db.rows| && w.db.rows[k].state == CANCELED && !PendingWriter(w, k)
    ensures var w' := StepWorld(w, action);
            k < |w'.db.rows| && w'.db.rows[k].state == CANCELED && !PendingWriter(w', k)
  {
    CanceledChangesIff(opening, w, action, k);
    TableOf(CANCELED, PROCESSING);
    TableOf(CANCELED, COMPLETED);
    if action.Carry? && action.mover in w.movers {
      TableOf(CANCELED, w.movers[action.mover].to);
    }
  }

  lemma ContinueBy(opening: map<string, real>, trace: seq<Action>, more: seq<Action>)
    requires more != []
    ensures Exec(opening, trace + more) ==
            StepWorld(Exec(opening, trace + more[..|more| - 1]), more[|more| - 1])
  {
    assert (trace + more)[..|trace + more| - 1] == trace + more[..|more| - 1];
  }

  lemma {:induction false} StaysCanceled(opening: map<string, real>, trace: seq<Action>, more: seq<Action>, k: nat,
      w: World, w': World)
    requires w == Exec(opening, trace) && w' == Exec(opening, trace + more)
    requires k < |w.db.rows| && w.db.rows[k].state == CANCELED && !PendingWriter(w, k)
    ensures k < |w'.db.rows| && w'.db.rows[k].state == CANCELED && !PendingWriter(w', k)
    decreases |more|
  {
    if more == [] {
      assert trace + more == trace;
    } else {
      var less, last := more[..|more| - 1], more[|more| - 1];
      var w0 := Exec(opening, trace + less);
      ContinueBy(opening, trace, more);
      StaysCanceled(opening, trace, less, k, w, w0);
      LedgerAlways(opening, trace + less, w0);
      NoNewWriter(opening, w0, last, k);
    }
  }

  /** Some continuation takes row k out of CANCELED. */
  ghost predicate CanBeRevived(opening: map<string, real>, trace: seq<Action>, k: nat) {
    exists more :: Revived(Exec(opening, trace + more).db, k)
  }

  predicate Revived(db: Db, k: nat) {
    k < |db.rows| && db.rows[k].state != CANCELED
  }

  /** A CANCELED transaction can leave CANCELED, now or ever, exactly if a write judged before is on its way: nothing
      that starts or reads after the cancellation can revive it. */
  lemma CanBeRevivedIff(opening: map<string, real>, trace: seq<Action>, k: nat)
    requires k < |Exec(opening, trace).db.rows| && Exec(opening, trace).db.rows[k].state == CANCELED
    ensures CanBeRevived(opening, trace, k) <==> PendingWriter(Exec(opening, trace), k)
  {
    var w := Exec(opening, trace);
    LedgerAlways(opening, trace, w);
    if PendingWriter(w, k) {
      var action := FirstWrite(opening, w, k);
      Extend(opening, trace, action);
      assert Revived(Exec(opening, trace + [action]).db, k);
    }
    if CanBeRevived(opening, trace, k) && !PendingWriter(w, k) {
      var more :| Revived(Exec(opening, trace + more).db, k);
      StaysCanceled(opening, trace, more, k, w, Exec(opening, trace + more));
    }
  }

  lemma FirstWrite(opening: map<string, real>, w: World, k: nat) returns (action: Action)
    requires LedgerInv(opening, w) && k < |w.db.rows| && w.db.rows[k].state == CANCELED && PendingWriter(w, k)
    ensures Revived(StepWorld(w, action).db, k)
  {
    if i :| i in w.jobs && w.jobs[i].row == k && (w.jobs[i].pc.WriteProcessing? || w.jobs[i].pc.WriteCompleted?) {
      action := Proceed(i, GO);
    } else {
      var i :| i in w.movers && w.movers[i].row == k && w.movers[i].pc == Writing && w.movers[i].to != CANCELED;
      action := Carry(i, Ok, 0);
    }
    CanceledChangesIff(opening, w, action, k);
  }

  predicate CanceledAndApplied(db: Db, k: nat) {
    k < |db.rows| && db.rows[k].state == CANCELED && db.rows[k].applied == 1
  }

  /** The action applies row k, CANCELED by now, to the balance. */
  predicate AppliesCanceled(w: World, action: Action, k: nat) {
    && k < |w.db.rows| && w.db.rows[k].state == CANCELED && action.Proceed? && action.job in w.jobs
    && action.choice.reply != Lost && w.jobs[action.job].pc == UpdateBalance && w.jobs[action.job].row == k
  }

  /** The action cancels row k, applied by now. */
  predicate CancelsApplied(w: World, action: Action, k: nat) {
    && k < |w.db.rows| && w.db.rows[k].applied == 1 && action.Carry? && action.mover in w.movers
    && action.reply != Lost && w.movers[action.mover] == Mover(k, CANCELED, Writing)
  }

  /** From any reachable world, a row becomes CANCELED with its amount in the balance exactly in two ways: its handler
      updates the balance without looking at the state again, or an outside call cancels it after that. */
  lemma CanceledAndAppliedIff(opening: map<string, real>, w: World, action: Action, k: nat)
    requires LedgerInv(opening, w) && !CanceledAndApplied(w.db, k)
    ensures CanceledAndApplied(StepWorld(w, action).db, k) <==>
              AppliesCanceled(w, action, k) || CancelsApplied(w, action, k)
  {
    if action.Proceed? && action.job in w.jobs {
      StepRows(w.db, w.jobs[action.job], action.choice);
    }
  }

  // ---- Both are reached ----

  /** One withdrawal, alone so far, before its balance update or before its last write. */
  lemma Underway(userId: string, balance: real, amount: real, applied: bool) returns (trace: seq<Action>)
    requires amount <= balance
    ensures var w := Exec(map[userId := balance], trace);
            && w.movers == map[] && 0 in w.jobs && w.jobs[0].row == 0 && w.jobs[0].userId == userId
            && w.jobs[0].pc == (if applied then WriteCompleted else UpdateBalance)
            && |w.db.rows| == 1 && w.db.rows[0].state == PROCESSING && userId in w.db.users
            && w.db.rows[0].applied == (if applied then 1 else 0)
  {
    var opening := map[userId := balance];
    trace := OneChecks(opening, [], userId, [amount], 0);
    var w := Exec(opening, trace);
    ToUpdate(w.db, w.jobs[0]);
    ToPayout(w.db, w.jobs[0]);
    trace := Walk(opening, trace, 0, if applied then 5 else 3);
  }

  /** And it is then canceled from outside. */
  lemma CanceledUnderway(userId: string, balance: real, amount: real, applied: bool) returns (trace: seq<Action>)
    requires amount <= balance
    ensures var w := Exec(map[userId := balance], trace);
            && 0 in w.jobs && w.jobs[0].row == 0 && w.jobs[0].userId == userId && userId in w.db.users
            && w.jobs[0].pc == (if applied then WriteCompleted else UpdateBalance)
            && |w.db.rows| == 1 && w.db.rows[0].state == CANCELED && w.db.rows[0].applied == (if applied then 1 else 0)
  {
    var opening := map[userId := balance];
    var t := Underway(userId, balance, amount, applied);
    var a, b := Move(0, 0, CANCELED), Carry(0, Ok, 0);
    TableOf(PROCESSING, CANCELED);
    Extend(opening, t, a);
    Extend(opening, t + [a], b);
    Extend(opening, t + [a] + [b], b);
    assert Exec(opening, t + [a] + [b]).movers == map[0 := Mover(0, CANCELED, Writing)];
    trace := t + [a] + [b] + [b];
  }

  lemma CanceledThenCompleted(userId: string, balance: real, amount: real)
    requires amount <= balance
    ensures exists trace, action ::
              var (before, after) := (Exec(map[userId := balance], trace).db,
                                      Exec(map[userId := balance], trace + [action]).db);
              |before.rows| == 1 && before.rows[0].state == CANCELED && |after.rows| == 1
              && after.rows[0].state == COMPLETED
  {
    var t := CanceledUnderway(userId, balance, amount, true);
    Extend(map[userId := balance], t, Proceed(0, GO));
    assert Exec(map[userId := balance], t + [Proceed(0, GO)]).db.rows[0].state == COMPLETED;
  }

  lemma CanceledButApplied(userId: string, balance: real, amount: real)
    requires amount <= balance
    ensures exists trace :: CanceledAndApplied(Exec(map[userId := balance], trace).db, 0)
  {
    var t := CanceledUnderway(userId, balance, amount, false);
    Extend(map[userId := balance], t, Proceed(0, GO));
    assert CanceledAndApplied(Exec(map[userId := balance], t + [Proceed(0, GO)]).db, 0);
  }
}
