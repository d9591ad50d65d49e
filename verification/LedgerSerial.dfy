/** Deposit and withdraw handlers run one at a time, with calls of `transition` between them. */
module LedgerSerial {
  import opened SagaTypes
  import opened TransactionStates
  import opened Ledger

  /** What each of a handler's commands gets; a handler issues each at most once. */
  type Env = Pc -> Choice

  function Rank(pc: Pc): nat {
    match pc
    case FindUser => 10 case CreateUser => 9 case CreateRow => 8
    case ReadCreated => 7 case WriteProcessing => 6
    case Pay => 5 case RecordIntent(_) => 4
    case UpdateBalance => 3 case ReadProcessing => 2 case WriteCompleted => 1
    case Returned => 0 case Threw => 0
  }

  lemma RankDrops(db: Db, job: Job, choice: Choice)
    requires Rank(job.pc) > 0
    ensures Rank(NextJob(db, job, choice).pc) < Rank(job.pc)
  {
  }

  function HandleAlone(db: Db, job: Job, env: Env): (Db, Job)
    decreases Rank(job.pc)
  {
    if Rank(job.pc) == 0 then (db, job) else
      RankDrops(db, job, env(job.pc));
      HandleAlone(NextDb(db, job, env(job.pc)), NextJob(db, job, env(job.pc)), env)
  }

  /** A user's balance, an unknown user having none. */
  function BalanceOf(db: Db, userId: string): real {
    if userId in db.users then db.users[userId] else 0.0
  }

  /** What a handler leaves: at most one new row, its own, and only its own user's balance changed, by the amount,
      exactly if that row was applied. A withdrawal got past its check only if the balance covered it. */
  predicate Shape(db0: Db, db: Db, job: Job) {
    var n := |db0.rows|;
    && db0.users.Keys <= db.users.Keys <= db0.users.Keys + {job.userId}
    && (forall u :: u in db0.users && u != job.userId ==> db.users[u] == db0.users[u])
    && n <= |db.rows| <= n + 1 && db.rows[..n] == db0.rows
    && (|db.rows| == n ==> BalanceOf(db, job.userId) == BalanceOf(db0, job.userId))
    && (|db.rows| == n + 1 ==>
          && job.userId in db.users
          && RowOk(db.rows[n]) && db.rows[n].userId == job.userId && db.rows[n].kind == job.kind
             && db.rows[n].amount == job.amount
          && (job.kind == WITHDRAWAL ==> BalanceOf(db0, job.userId) >= job.amount)
          && db.users[job.userId] == BalanceOf(db0, job.userId) + if db.rows[n].applied == 1
                                                                  then Signed(job.kind, job.amount) else 0.0)
  }

  predicate Along(db0: Db, db: Db, job: Job) {
    var n := |db0.rows|;
    && Shape(db0, db, job)
    && match job.pc
       case FindUser => db == db0
       case CreateUser => db == db0 && job.userId !in db0.users
       case CreateRow =>
         && db.rows == db0.rows && job.userId in db.users
         && (job.kind == WITHDRAWAL ==> BalanceOf(db0, job.userId) >= job.amount)
       case Returned => |db.rows| == n + 1
       && (db.rows[n].state == COMPLETED
           || (db.rows[n].state == PROCESSING && job.kind == DEPOSIT && db.rows[n].applied == 0))
       case Threw => true
       case _ =>
         && |db.rows| == n + 1 && job.row == n && JobState(db, job)
         && db.rows[n].applied == (if AfterCredit(job.pc) then 1 else 0)
         && (job.pc.Pay? || job.pc.RecordIntent? ==> job.kind == DEPOSIT)
  }

  lemma NextAlong(db0: Db, db: Db, job: Job, choice: Choice)
    requires Along(db0, db, job) && Rank(job.pc) > 0
    ensures Along(db0, NextDb(db, job, choice), NextJob(db, job, choice))
  {
    if job.pc.CreateRow? {
      assert (db.rows + [NewRow(job.userId, job.kind, job.amount)])[..|db0.rows|] == db0.rows;
    }
  }

  lemma {:induction false} AlongToTheEnd(db0: Db, db: Db, job: Job, env: Env, db': Db, job': Job)
    requires (db', job') == HandleAlone(db, job, env) && Along(db0, db, job)
    ensures Rank(job'.pc) == 0 && Along(db0, db', job')
            && (job'.kind, job'.userId, job'.amount) == (job.kind, job.userId, job.amount)
    decreases Rank(job.pc)
  {
    if Rank(job.pc) > 0 {
      RankDrops(db, job, env(job.pc));
      NextAlong(db0, db, job, env(job.pc));
      AlongToTheEnd(db0, NextDb(db, job, env(job.pc)), NextJob(db, job, env(job.pc)), env, db', job');
    }
  }

  /** A handler that runs alone, whatever fails in it: it touches its own user and at most one new row. If it returns, a
      withdrawal has been completed and taken from the balance, a deposit has been completed and added, or still waits
      in PROCESSING and was not added. A withdrawal the balance does not cover makes no row and changes no balance. */
  lemma {:induction false} HandlerOutcome(db: Db, kind: Kind, userId: string, amount: real, env: Env)
    ensures var (db', job') := HandleAlone(db, NewJob(kind, userId, amount), env);
            && Shape(db, db', job')
            && (job'.pc == Returned ==>
                  && |db'.rows| == |db.rows| + 1
                  && var row := db'.rows[|db.rows|];
                     if row.state == COMPLETED then BalanceOf(db', userId) ==
                       BalanceOf(db, userId) + Signed(kind, amount)
                     else row.state == PROCESSING && kind == DEPOSIT && BalanceOf(db', userId) == BalanceOf(db, userId))
            && (kind == WITHDRAWAL && BalanceOf(db, userId) < amount ==>
                  job'.pc == Threw && db'.rows == db.rows && BalanceOf(db', userId) == BalanceOf(db, userId))
  {
    var job := NewJob(kind, userId, amount);
    var (db', job') := HandleAlone(db, job, env);
    AlongToTheEnd(db, db, job, env, db', job');
  }

  // ---- What decides the outcome ----

  /** The remaining steps of a handler, taken from here, end where the whole handler ends. */
  ghost predicate Continues(db0: Db, job0: Job, db: Db, job: Job, env: Env) {
    HandleAlone(db0, job0, env) == HandleAlone(db, job, env)
  }

  lemma OneStep(db0: Db, job0: Job, db: Db, job: Job, env: Env)
    requires Continues(db0, job0, db, job, env) && Rank(job.pc) > 0
    ensures Continues(db0, job0, NextDb(db, job, env(job.pc)), NextJob(db, job, env(job.pc)), env)
  {
  }

  /** What is known of Stripe's answer: a deposit gets to its balance update only after a succeeded payment. */
  predicate PaidFirst(db: Db, n: nat, job: Job, env: Env) {
    job.kind == DEPOSIT ==>
      && (job.pc.RecordIntent? ==> (job.pc.succeeded <==> env(Pay).payment == Succeeded) && env(Pay).payment != Refused)
      && (job.pc.UpdateBalance? || AfterCredit(job.pc) || (n < |db.rows| && db.rows[n].applied > 0) ==>
            env(Pay).payment == Succeeded)
      && (job.pc.Returned? && (n >= |db.rows| || db.rows[n].applied == 0) ==> env(Pay).payment == Unsettled)
  }

  lemma NextPaidFirst(db0: Db, db: Db, job: Job, env: Env)
    requires Along(db0, db, job) && PaidFirst(db, |db0.rows|, job, env) && Rank(job.pc) > 0
    ensures PaidFirst(NextDb(db, job, env(job.pc)), |db0.rows|, NextJob(db, job, env(job.pc)), env)
  {
  }

  lemma {:induction false} PaidToTheEnd(db0: Db, db: Db, job: Job, env: Env, db': Db, job': Job)
    requires (db', job') == HandleAlone(db, job, env) && Along(db0, db, job) && PaidFirst(db, |db0.rows|, job, env)
    ensures PaidFirst(db', |db0.rows|, job', env)
    decreases Rank(job.pc)
  {
    if Rank(job.pc) > 0 {
      RankDrops(db, job, env(job.pc));
      NextAlong(db0, db, job, env(job.pc));
      NextPaidFirst(db0, db, job, env);
      PaidToTheEnd(db0, NextDb(db, job, env(job.pc)), NextJob(db, job, env(job.pc)), env, db', job');
    }
  }

  /** Whatever fails in it, a deposit is added to the balance only if Stripe's payment succeeded; and one that returns
      was added exactly if it did, the payment being unsettled otherwise. */
  lemma CreditNeedsPayment(db: Db, userId: string, amount: real, env: Env)
    ensures var (db', job') := HandleAlone(db, NewJob(DEPOSIT, userId, amount), env);
            && (BalanceOf(db', userId) != BalanceOf(db, userId) ==> env(Pay).payment == Succeeded)
            && (job'.pc == Returned ==>
                  BalanceOf(db', userId) ==
                  BalanceOf(db, userId) + if env(Pay).payment == Succeeded then amount else 0.0)
            && (job'.pc == Returned && env(Pay).payment != Succeeded ==> env(Pay).payment == Unsettled)
  {
    var job := NewJob(DEPOSIT, userId, amount);
    var (db', job') := HandleAlone(db, job, env);
    AlongToTheEnd(db, db, job, env, db', job');
    PaidToTheEnd(db, db, job, env, db', job');
  }

  ghost predicate Acknowledged(env: Env) {
    forall pc :: env(pc).reply == Ok
  }

  /** A handler up to the step after its row is PROCESSING, all acknowledged. */
  lemma Opens(db: Db, job: Job, env: Env) returns (db': Db, job': Job)
    requires Acknowledged(env) && job == NewJob(job.kind, job.userId, job.amount)
    requires job.kind == WITHDRAWAL ==> job.amount <= BalanceOf(db, job.userId)
    ensures Continues(db, job, db', job', env)
    ensures job' == job.(pc := if job.kind == DEPOSIT then Pay else UpdateBalance, row := |db.rows|)
    ensures db' == Db(db.users[job.userId := BalanceOf(db, job.userId)],
                      db.rows + [Row(job.userId, job.kind, job.amount, PROCESSING, StatusProcessing, None, 0)])
  {
    db', job' := FindsUser(db, job, env);
    OneStep(db, job, db', job', env);
    db', job' := NextDb(db', job', env(CreateRow)), NextJob(db', job', env(CreateRow));
    assert job' == job.(pc := ReadCreated, row := |db.rows|);
    TableOf(CREATED, PROCESSING);
    OneStep(db, job, db', job', env);
    job' := NextJob(db', job', env(ReadCreated));
    OneStep(db, job, db', job', env);
    var row := Row(job.userId, job.kind, job.amount, PROCESSING, StatusProcessing, None, 0);
    assert (db.rows + [NewRow(job.userId, job.kind, job.amount)])[|db.rows| := row] == db.rows + [row];
    db', job' := NextDb(db', job', env(WriteProcessing)), NextJob(db', job', env(WriteProcessing));
  }

  lemma FindsUser(db: Db, job: Job, env: Env) returns (db': Db, job': Job)
    requires Acknowledged(env) && job == NewJob(job.kind, job.userId, job.amount)
    requires job.kind == WITHDRAWAL ==> job.amount <= BalanceOf(db, job.userId)
    ensures Continues(db, job, db', job', env) && job' == job.(pc := CreateRow)
    ensures db' == db.(users := db.users[job.userId := BalanceOf(db, job.userId)])
  {
    db', job' := db, job;
    OneStep(db, job, db', job', env);
    job' := NextJob(db', job', env(FindUser));
    if job'.pc == CreateUser {
      OneStep(db, job, db', job', env);
      db', job' := NextDb(db', job', env(CreateUser)), NextJob(db', job', env(CreateUser));
    } else {
      assert db.users[job.userId := BalanceOf(db, job.userId)] == db.users;
    }
  }

  /** From the balance update to the end, all acknowledged. */
  lemma Closes(db0: Db, job0: Job, rows: seq<Row>, db: Db, job: Job, env: Env)
    requires Acknowledged(env) && Continues(db0, job0, db, job, env) && job.pc == UpdateBalance && job.row == |rows|
    requires job.userId in db.users
    requires db.rows == rows + [Row(job.userId, job.kind, job.amount, PROCESSING, StatusProcessing, None, 0)]
    ensures var (db', job') := HandleAlone(db0, job0, env);
            && job'.pc == Returned
            && db'.users == db.users[job.userId := db.users[job.userId] + if job.kind == DEPOSIT then job.amount
                                                                           else -job.amount]
            && db'.rows == rows + [Row(job.userId, job.kind, job.amount, COMPLETED, StatusCompleted,
                                       Some(env(WriteCompleted).now), 1)]
  {
    OneStep(db0, job0, db, job, env);
    var db1, job1 := NextDb(db, job, env(UpdateBalance)), NextJob(db, job, env(UpdateBalance));
    OneStep(db0, job0, db1, job1, env);
    TableOf(PROCESSING, COMPLETED);
    var job2 := NextJob(db1, job1, env(ReadProcessing));
    OneStep(db0, job0, db1, job2, env);
    var db3, job3 := NextDb(db1, job2, env(WriteCompleted)), NextJob(db1, job2, env(WriteCompleted));
    assert HandleAlone(db3, job3, env) == (db3, job3);
  }

  /** An acknowledged withdrawal: completed and taken from the balance if that covers it; otherwise it throws, and all
      that is left of it is its user. */
  lemma WithdrawalOutcome(db: Db, userId: string, amount: real, env: Env)
    requires Acknowledged(env)
    ensures var (db', job') := HandleAlone(db, NewJob(WITHDRAWAL, userId, amount), env);
            if BalanceOf(db, userId) >= amount then
              && job'.pc == Returned && db'.users == db.users[userId := BalanceOf(db, userId) - amount]
              && db'.rows == db.rows + [Row(userId, WITHDRAWAL, amount, COMPLETED, StatusCompleted,
                                            Some(env(WriteCompleted).now), 1)]
            else
              job'.pc == Threw && db' == db.(users := db.users[userId := BalanceOf(db, userId)])
  {
    var job := NewJob(WITHDRAWAL, userId, amount);
    if BalanceOf(db, userId) >= amount {
      var db1, job1 := Opens(db, job, env);
      Closes(db, job, db.rows, db1, job1, env);
    } else {
      IsTurnedDown(db, job, env);
    }
  }

  lemma IsTurnedDown(db: Db, job: Job, env: Env)
    requires Acknowledged(env) && job == NewJob(WITHDRAWAL, job.userId, job.amount)
    requires BalanceOf(db, job.userId) < job.amount
    ensures HandleAlone(db, job, env) == (db.(users := db.users[job.userId := BalanceOf(db, job.userId)]),
                                          job.(pc := Threw))
  {
    OneStep(db, job, db, job, env);
    var job1 := NextJob(db, job, env(FindUser));
    if job1.pc == CreateUser {
      OneStep(db, job, db, job1, env);
    } else {
      assert db.users[job.userId := BalanceOf(db, job.userId)] == db.users;
    }
  }

  /** An acknowledged deposit: completed and added to the balance exactly if Stripe's payment succeeded; PROCESSING and
      not added, on return if the payment is unsettled, by throwing if it is refused. */
  lemma DepositOutcome(db: Db, userId: string, amount: real, env: Env)
    requires Acknowledged(env)
    ensures var (db', job') := HandleAlone(db, NewJob(DEPOSIT, userId, amount), env);
            && (job'.pc == Threw <==> env(Pay).payment == Refused) && (job'.pc == Returned <==> job'.pc != Threw)
            && db'.users == db.users[userId := BalanceOf(db, userId) + if env(Pay).payment == Succeeded then amount
                                                                       else 0.0]
            && db'.rows == db.rows + [if env(Pay).payment == Succeeded
                                      then Row(userId, DEPOSIT, amount, COMPLETED, StatusCompleted,
                                               Some(env(WriteCompleted).now), 1)
                                      else Row(userId, DEPOSIT, amount, PROCESSING, StatusProcessing, None, 0)]
  {
    var db1, job1 := Opens(db, NewJob(DEPOSIT, userId, amount), env);
    PaysAndCloses(db, NewJob(DEPOSIT, userId, amount), db.rows, db1, job1, env);
  }

  lemma PaysAndCloses(db0: Db, job0: Job, rows: seq<Row>, db: Db, job: Job, env: Env)
    requires Acknowledged(env) && Continues(db0, job0, db, job, env) && job.pc == Pay && job.row == |rows|
    requires job.kind == DEPOSIT && job.userId in db.users
    requires db.rows == rows + [Row(job.userId, DEPOSIT, job.amount, PROCESSING, StatusProcessing, None, 0)]
    ensures var (db', job') := HandleAlone(db0, job0, env);
            && job'.pc == (if env(Pay).payment == Refused then Threw else Returned)
            && db'.users == db.users[job.userId := db.users[job.userId] + if env(Pay).payment == Succeeded
                                                                          then job.amount else 0.0]
            && db'.rows == rows + [if env(Pay).payment == Succeeded
                                   then Row(job.userId, DEPOSIT, job.amount, COMPLETED, StatusCompleted,
                                            Some(env(WriteCompleted).now), 1)
                                   else Row(job.userId, DEPOSIT, job.amount, PROCESSING, StatusProcessing, None, 0)]
  {
    Pays(db0, job0, db, job, env);
    if env(Pay).payment == Succeeded {
      Closes(db0, job0, rows, db, job.(pc := UpdateBalance), env);
    } else {
      assert db.users[job.userId := db.users[job.userId] + 0.0] == db.users;
    }
  }

  /** Stripe's answer and its record: a refusal throws, and only a succeeded payment goes on to the balance. */
  lemma Pays(db0: Db, job0: Job, db: Db, job: Job, env: Env)
    requires Acknowledged(env) && Continues(db0, job0, db, job, env) && job.pc == Pay && job.kind == DEPOSIT
    requires job.row < |db.rows| && db.rows[job.row].status == StatusProcessing
    ensures env(Pay).payment == Succeeded ==> Continues(db0, job0, db, job.(pc := UpdateBalance), env)
    ensures env(Pay).payment == Unsettled ==> HandleAlone(db0, job0, env) == (db, job.(pc := Returned))
    ensures env(Pay).payment == Refused ==> HandleAlone(db0, job0, env) == (db, job.(pc := Threw))
  {
    OneStep(db0, job0, db, job, env);
    var job1 := NextJob(db, job, env(Pay));
    if env(Pay).payment != Refused {
      OneStep(db0, job0, db, job1, env);
      assert NextDb(db, job1, env(job1.pc)) == db;
    }
  }

  // ---- Histories ----

  datatype Op = Handle(kind: Kind, userId: string, amount: real, env: Env) | Transition(row: nat, to: TransactionState,
      now: nat)

  function Perform(db: Db, op: Op): Db {
    match op
    case Handle(kind, userId, amount, env) => HandleAlone(db, NewJob(kind, userId, amount), env).0
    case Transition(row, to, now) => Transitioned(db, row, to, now)
  }

  function History(db: Db, ops: seq<Op>): Db {
    if ops == [] then db else Perform(History(db, ops[..|ops| - 1]), ops[|ops| - 1])
  }

  /** Status and completedAt agree with the state; a failed transaction is one in ERROR. */
  predicate RowConsistent(row: Row) {
    && (row.state == CREATED <==> row.status == StatusPending)
    && (row.state == PROCESSING <==> row.status == StatusProcessing)
    && (row.state == COMPLETED <==> row.status == StatusCompleted)
    && (row.state == ERROR <==> row.status == StatusFailed)
    && (row.state == CANCELED <==> row.status == StatusCanceled)
    && (row.completedAt.Some? <==> row.state == COMPLETED)
  }

  ghost predicate Consistent(db: Db) {
    forall k :: 0 <= k < |db.rows| ==> RowConsistent(db.rows[k])
  }

  predicate Final(state: TransactionState) {
    state == COMPLETED || state == CANCELED
  }

  /** A handler leaves the rows before its own alone. */
  lemma HandlerKeeps(db: Db, kind: Kind, userId: string, amount: real, env: Env)
    ensures var db' := HandleAlone(db, NewJob(kind, userId, amount), env).0;
            && |db.rows| <= |db'.rows| && (forall k :: 0 <= k < |db.rows| ==> db'.rows[k] == db.rows[k])
            && (Consistent(db) ==> Consistent(db'))
  {
    HandlerOutcome(db, kind, userId, amount, env);
    var db' := HandleAlone(db, NewJob(kind, userId, amount), env).0;
    forall k | 0 <= k < |db.rows| ensures db'.rows[k] == db.rows[k] {
      assert db'.rows[..|db.rows|][k] == db.rows[k];
    }
  }

  lemma PerformKeeps(db: Db, op: Op)
    ensures |db.rows| <= |Perform(db, op).rows|
    ensures Consistent(db) ==> Consistent(Perform(db, op))
    ensures forall k :: 0 <= k < |db.rows| ==> IsValidTransition(db.rows[k].state, Perform(db, op).rows[k].state)
  {
    match op
    case Handle(kind, userId, amount, env) =>
      HandlerKeeps(db, kind, userId, amount, env);
    case Transition(row, to, now) =>
      if row < |db.rows| {
        TableOf(db.rows[row].state, to);
      }
  }

  /** Over any serial history of handlers (with any faults in them) and calls of `transition`: every row's status is its
      state's, completedAt is set exactly in COMPLETED, and a COMPLETED or CANCELED transaction keeps its state. */
  lemma {:induction false} SerialHistory(db: Db, ops: seq<Op>, k: nat)
    requires Consistent(db)
    ensures Consistent(History(db, ops)) && |db.rows| <= |History(db, ops).rows|
    ensures k < |db.rows| && Final(db.rows[k].state) ==> History(db, ops).rows[k].state == db.rows[k].state
    decreases |ops|
  {
    if ops != [] {
      var before := History(db, ops[..|ops| - 1]);
      SerialHistory(db, ops[..|ops| - 1], k);
      PerformKeeps(before, ops[|ops| - 1]);
      if k < |db.rows| && Final(db.rows[k].state) {
        TableOf(before.rows[k].state, History(db, ops).rows[k].state);
      }
    }
  }

  ghost predicate NoneNegative(db: Db) {
    forall u :: u in db.users ==> db.users[u] >= 0.0
  }

  /** Serially, no withdrawal takes a balance below zero, whatever its amount; only a deposit of a negative amount
      can. */
  lemma {:induction false} SerialBalancesStayNonNegative(db: Db, ops: seq<Op>)
    requires NoneNegative(db)
    requires forall k :: 0 <= k < |ops| && ops[k].Handle? && ops[k].kind == DEPOSIT ==> ops[k].amount >= 0.0
    ensures NoneNegative(History(db, ops))
    decreases |ops|
  {
    if ops != [] {
      SerialBalancesStayNonNegative(db, ops[..|ops| - 1]);
      var op := ops[|ops| - 1];
      if op.Handle? {
        HandlerKeepsNonNegative(History(db, ops[..|ops| - 1]), op.kind, op.userId, op.amount, op.env);
      }
    }
  }

  lemma HandlerKeepsNonNegative(db: Db, kind: Kind, userId: string, amount: real, env: Env)
    requires NoneNegative(db) && (kind == DEPOSIT ==> amount >= 0.0)
    ensures NoneNegative(HandleAlone(db, NewJob(kind, userId, amount), env).0)
  {
    HandlerOutcome(db, kind, userId, amount, env);
    AlongToTheEnd(db, db, NewJob(kind, userId, amount), env, HandleAlone(db, NewJob(kind, userId, amount), env).0,
                  HandleAlone(db, NewJob(kind, userId, amount), env).1);
    var db' := HandleAlone(db, NewJob(kind, userId, amount), env).0;
    forall u | u in db'.users ensures db'.users[u] >= 0.0 {
      if u != userId {
        assert db'.users[u] == db.users[u];
      } else {
        assert BalanceOf(db', u) == db'.users[u];
      }
    }
  }
}
