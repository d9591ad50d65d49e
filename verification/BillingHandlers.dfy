/** The billing service, the transaction state machine and the deposit and withdraw handlers, over one database. Each
    handler's serial run is the run of its steps in the ledger's protocol. */
module BillingHandlers {
  import opened SagaTypes
  import opened TransactionStates
  import opened Ledger
  import opened LedgerSerial

  class BillingDatabase {
    var billingUsers: map<string, real>
    var transactions: seq<Row>

    constructor ()
      ensures View() == Db(map[], [])
    {
      billingUsers, transactions := map[], [];
    }

    ghost function View(): Db
      reads this
    {
      Db(billingUsers, transactions)
    }

    /** History only: the row's amount went into the balance. */
    method NoteApplied(row: nat)
      requires row < |transactions|
      modifies this
      ensures billingUsers == old(billingUsers)
      ensures transactions == old(transactions)[row := old(transactions)[row].(applied := old(transactions)[row].applied
                                                                                          + 1)]
    {
      transactions := transactions[row := transactions[row].(applied := transactions[row].applied + 1)];
    }
  }

  class BillingService {
    const prisma: BillingDatabase

    constructor (prisma: BillingDatabase)
      ensures this.prisma == prisma
    {
      this.prisma := prisma;
    }

    /** findUnique, then create if there was none; two commands. None: one of them threw. */
    method GetOrCreateBillingUser(userId: string, find: Reply, create: Reply) returns (balance: Option<real>)
      modifies prisma
      ensures prisma.transactions == old(prisma.transactions)
      ensures userId in old(prisma.billingUsers) ==>
                prisma.billingUsers == old(prisma.billingUsers)
                && balance == if find == Ok then Some(old(prisma.billingUsers)[userId]) else None
      ensures userId !in old(prisma.billingUsers) ==>
                && prisma.billingUsers == (if find == Ok && create != Lost then old(prisma.billingUsers)[userId := 0.0]
                                           else old(prisma.billingUsers))
                && balance == if find == Ok && create == Ok then Some(0.0) else None
    {
      if find != Ok { return None; }
      if userId in prisma.billingUsers { return Some(prisma.billingUsers[userId]); }
      if create == Lost { return None; }
      prisma.billingUsers := prisma.billingUsers[userId := 0.0];
      balance := if create == Ok then Some(0.0) else None;
    }

    /** An atomic increment; an unknown user makes it throw. */
    method UpdateBalance(userId: string, amount: real, reply: Reply) returns (ok: bool)
      modifies prisma
      ensures prisma.transactions == old(prisma.transactions)
      ensures ok <==> reply == Ok && userId in old(prisma.billingUsers)
      ensures prisma.billingUsers == if reply == Lost || userId !in old(prisma.billingUsers)
                                     then old(prisma.billingUsers)
                                     else old(prisma.billingUsers)[userId := old(prisma.billingUsers)[userId] + amount]
    {
      if userId !in prisma.billingUsers { return false; }
      if reply != Lost {
        prisma.billingUsers := prisma.billingUsers[userId := prisma.billingUsers[userId] + amount];
      }
      ok := reply == Ok;
    }

    method CreateTransaction(userId: string, kind: Kind, amount: real, reply: Reply) returns (id: Option<nat>)
      modifies prisma
      ensures prisma.billingUsers == old(prisma.billingUsers)
      ensures prisma.transactions == if reply == Lost then old(prisma.transactions)
                                     else old(prisma.transactions) + [NewRow(userId, kind, amount)]
      ensures id == if reply == Ok then Some(|old(prisma.transactions)|) else None
    {
      var newId := |prisma.transactions|;
      if reply != Lost {
        prisma.transactions := prisma.transactions + [NewRow(userId, kind, amount)];
      }
      id := if reply == Ok then Some(newId) else None;
    }

    /** The deposit handler's update: the intent's id, and the status written directly. */
    method UpdateTransaction(id: nat, status: TransactionStatus, reply: Reply) returns (ok: bool)
      modifies prisma
      ensures prisma.billingUsers == old(prisma.billingUsers)
      ensures ok <==> reply == Ok && id < |old(prisma.transactions)|
      ensures prisma.transactions ==
              if reply == Lost || id >= |old(prisma.transactions)| then old(prisma.transactions)
              else old(prisma.transactions)[id := old(prisma.transactions)[id].(status := status)]
    {
      if id >= |prisma.transactions| { return false; }
      if reply != Lost {
        prisma.transactions := prisma.transactions[id := prisma.transactions[id].(status := status)];
      }
      ok := reply == Ok;
    }
  }

  class TransactionStateMachine {
    const prisma: BillingDatabase

    constructor (prisma: BillingDatabase)
      ensures this.prisma == prisma
    {
      this.prisma := prisma;
    }

    /** findUnique, the check, then the update. False: it threw. Uninterrupted and with both commands acknowledged, it
        is the ledger's Transitioned. */
    method Transition(id: nat, newState: TransactionState, read: Reply, write: Reply, now: nat) returns (ok: bool)
      modifies prisma
      ensures prisma.billingUsers == old(prisma.billingUsers)
      ensures ok <==> read == Ok && id < |old(prisma.transactions)|
                      && IsValidTransition(old(prisma.transactions)[id].state, newState) && write == Ok
      ensures prisma.transactions ==
              if read == Ok && write != Lost then Transitioned(old(prisma.View()), id, newState, now).rows
              else old(prisma.transactions)
      ensures ok ==> var row := old(prisma.transactions)[id];
                     prisma.transactions == old(prisma.transactions)[id :=
                       row.(state := newState,
                            status := match newState
                                      case CREATED => StatusPending
                                      case PROCESSING => StatusProcessing
                                      case COMPLETED => StatusCompleted
                                      case ERROR => StatusFailed
                                      case CANCELED => StatusCanceled,
                            completedAt := if newState == COMPLETED then Some(now) else row.completedAt)]
    {
      if read != Ok || id >= |prisma.transactions| { return false; }
      if !IsValidTransition(prisma.transactions[id].state, newState) { return false; }
      if write != Lost {
        prisma.transactions := prisma.transactions[id := Moved(prisma.transactions[id], newState, now)];
      }
      ok := write == Ok;
    }

    /** The state from which `transition` judges: the states it can move the row on to are exactly the next ones of the
        answer. None: there is no such row, and it throws. */
    method GetCurrentState(id: nat) returns (state: Option<TransactionState>)
      ensures state.None? <==> id >= |prisma.transactions|
      ensures state.None? ==> forall to, now :: Transitioned(prisma.View(), id, to, now) == prisma.View()
      ensures state.Some? ==> forall to, now :: to in GetNextStates(state.value) <==>
                to != state.value && Transitioned(prisma.View(), id, to, now).rows[id].state == to
    {
      forall from, to { NextStatesAreTheOtherValidOnes(from, to); }
      state := if id < |prisma.transactions| then Some(prisma.transactions[id].state) else None;
    }
  }

  /** Nothing remains. */
  ghost predicate EndsAt(db0: Db, job0: Job, db: Db, returned: bool, env: Env) {
    var (db', job) := HandleAlone(db0, job0, env);
    db' == db && (returned <==> job.pc == Returned)
  }

  lemma Ends(db0: Db, job0: Job, db: Db, job: Job, env: Env)
    requires Continues(db0, job0, db, job, env) && Rank(job.pc) == 0
    ensures EndsAt(db0, job0, db, job.pc == Returned, env)
  {
  }

  /** What the two handlers share: the stores they were given and the commands both issue. */
  class Handlers {
    const prisma: BillingDatabase
    const billingService: BillingService
    const stateMachine: TransactionStateMachine

    ghost predicate Valid() {
      billingService.prisma == prisma && stateMachine.prisma == prisma
    }

    constructor (prisma: BillingDatabase, billingService: BillingService, stateMachine: TransactionStateMachine)
      requires billingService.prisma == prisma && stateMachine.prisma == prisma
      ensures Valid() && this.prisma == prisma
    {
      this.prisma, this.billingService, this.stateMachine := prisma, billingService, stateMachine;
    }

    /** The user, the withdrawal's check, and the new row. */
    method Open(kind: Kind, userId: string, amount: real, env: Env) returns (id: Option<nat>, ghost job: Job)
      requires Valid()
      modifies prisma
      ensures Continues(old(prisma.View()), NewJob(kind, userId, amount), prisma.View(), job, env)
      ensures id.None? ==> job.pc == Threw
      ensures id.Some? ==> job == Job(kind, userId, amount, ReadCreated, id.value) && userId in prisma.billingUsers
                           && id.value < |prisma.transactions|
    {
      ghost var db0 := prisma.View();
      job := NewJob(kind, userId, amount);
      OneStep(db0, job, db0, job, env);
      var balance := billingService.GetOrCreateBillingUser(userId, env(FindUser).reply, env(CreateUser).reply);
      ghost var job1 := NextJob(db0, job, env(FindUser));
      if job1.pc == CreateUser {
        OneStep(db0, job, db0, job1, env);
        job1 := NextJob(db0, job1, env(CreateUser));
      }
      if balance.None? {
        return None, job1;
      }
      if kind == WITHDRAWAL && balance.value < amount {
        return None, job1;
      }
      ghost var db1 := prisma.View();
      assert job1 == job.(pc := CreateRow);
      OneStep(db0, job, db1, job1, env);
      id := billingService.CreateTransaction(userId, kind, amount, env(CreateRow).reply);
      job := NextJob(db1, job1, env(CreateRow));
    }

    /** transition to PROCESSING, or to COMPLETED. */
    method Advance(ghost db0: Db, ghost job0: Job, id: nat, newState: TransactionState, env: Env, ghost job: Job)
      returns (ok: bool, ghost job': Job)
      requires Valid() && Continues(db0, job0, prisma.View(), job, env) && job.row == id && id < |prisma.transactions|
      requires (newState == PROCESSING && job.pc == ReadCreated) || (newState == COMPLETED && job.pc == ReadProcessing)
      modifies prisma
      ensures prisma.billingUsers == old(prisma.billingUsers) && |prisma.transactions| == |old(prisma.transactions)|
      ensures Continues(db0, job0, prisma.View(), job', env)
      ensures !ok ==> job'.pc == Threw
      ensures ok ==> job' == job.(pc := if newState == COMPLETED then Returned else if job.kind == DEPOSIT then Pay
                                                                                    else UpdateBalance)
    {
      var read := if newState == PROCESSING then ReadCreated else ReadProcessing;
      var write := if newState == PROCESSING then WriteProcessing else WriteCompleted;
      ghost var db := prisma.View();
      OneStep(db0, job0, db, job, env);
      ghost var job1 := NextJob(db, job, env(read));
      assert NextDb(db, job, env(read)) == db;
      if job1.pc == write {
        OneStep(db0, job0, db, job1, env);
        job' := NextJob(db, job1, env(write));
      } else {
        job' := job1;
      }
      ok := stateMachine.Transition(id, newState, env(read).reply, env(write).reply, env(write).now);
    }

    /** The balance update. */
    method Apply(ghost db0: Db, ghost job0: Job, id: nat, userId: string, amount: real, env: Env, ghost job: Job)
      returns (ok: bool, ghost job': Job)
      requires Valid() && Continues(db0, job0, prisma.View(), job, env) && job.pc == UpdateBalance && job.row == id
      requires job.userId == userId && Signed(job.kind, job.amount) == amount && userId in prisma.billingUsers
               && id < |prisma.transactions|
      modifies prisma
      ensures |prisma.transactions| == |old(prisma.transactions)|
      ensures Continues(db0, job0, prisma.View(), job', env)
      ensures if ok then job' == job.(pc := ReadProcessing) else job'.pc == Threw
    {
      ghost var db := prisma.View();
      OneStep(db0, job0, db, job, env);
      job' := NextJob(db, job, env(UpdateBalance));
      ok := billingService.UpdateBalance(userId, amount, env(UpdateBalance).reply);
      if env(UpdateBalance).reply != Lost {
        prisma.NoteApplied(id);
      }
    }

    /** Stripe's answer and the update that records it. */
    method TakePayment(ghost db0: Db, ghost job0: Job, id: nat, env: Env, ghost job: Job)
        returns (settled: Option<bool>, ghost job': Job)
      requires Valid() && Continues(db0, job0, prisma.View(), job, env) && job.pc == Pay && job.row == id
               && id < |prisma.transactions|
      modifies prisma
      ensures prisma.billingUsers == old(prisma.billingUsers) && |prisma.transactions| == |old(prisma.transactions)|
      ensures Continues(db0, job0, prisma.View(), job', env)
      ensures match settled
              case None => job'.pc == Threw
              case Some(paid) => job' == job.(pc := if paid then UpdateBalance else Returned)
    {
      ghost var db := prisma.View();
      OneStep(db0, job0, db, job, env);
      ghost var job1 := NextJob(db, job, env(Pay));
      assert NextDb(db, job, env(Pay)) == db;
      if env(Pay).payment == Refused {
        return None, job1;
      }
      var paid := env(Pay).payment == Succeeded;
      OneStep(db0, job0, db, job1, env);
      job' := NextJob(db, job1, env(RecordIntent(paid)));
      var recorded := billingService.UpdateTransaction(id, StatusProcessing, env(RecordIntent(paid)).reply);
      settled := if recorded then Some(paid) else None;
    }

    /** The balance update and the transition to COMPLETED, with which both handlers end. */
    method Complete(ghost db0: Db, ghost job0: Job, id: nat, userId: string, amount: real, env: Env, ghost job: Job)
        returns (returned: bool)
      requires Valid() && Continues(db0, job0, prisma.View(), job, env) && job.pc == UpdateBalance && job.row == id
      requires job.userId == userId && Signed(job.kind, job.amount) == amount && userId in prisma.billingUsers
               && id < |prisma.transactions|
      modifies prisma
      ensures EndsAt(db0, job0, prisma.View(), returned, env)
    {
      ghost var job' := job;
      returned, job' := Apply(db0, job0, id, userId, amount, env, job);
      if returned {
        returned, job' := Advance(db0, job0, id, COMPLETED, env, job');
      }
      Ends(db0, job0, prisma.View(), job', env);
    }

    /** Opening the transaction and moving it to PROCESSING, with which both handlers begin. */
    method Begin(kind: Kind, userId: string, amount: real, env: Env) returns (id: Option<nat>, ghost job: Job)
      requires Valid()
      modifies prisma
      ensures id.None? ==> EndsAt(old(prisma.View()), NewJob(kind, userId, amount), prisma.View(), false, env)
      ensures id.Some? ==>
                && Continues(old(prisma.View()), NewJob(kind, userId, amount), prisma.View(), job, env)
                && job == Job(kind, userId, amount, if kind == DEPOSIT then Pay else UpdateBalance, id.value)
                && userId in prisma.billingUsers && id.value < |prisma.transactions|
    {
      ghost var db0, job0 := prisma.View(), NewJob(kind, userId, amount);
      id, job := Open(kind, userId, amount, env);
      if id.None? {
        Ends(db0, job0, prisma.View(), job, env);
        return;
      }
      var ok;
      ok, job := Advance(db0, job0, id.value, PROCESSING, env, job);
      if !ok {
        Ends(db0, job0, prisma.View(), job, env);
        id := None;
      }
    }

    /** WithdrawHandler.execute: the stores end as the steps of the protocol leave them. */
    method Withdraw(userId: string, amount: real, env: Env) returns (returned: bool)
      requires Valid()
      modifies prisma
      ensures EndsAt(old(prisma.View()), NewJob(WITHDRAWAL, userId, amount), prisma.View(), returned, env)
      ensures Acknowledged(env) ==>
                && (returned <==> BalanceOf(old(prisma.View()), userId) >= amount)
                && prisma.billingUsers == old(prisma.billingUsers)[userId := BalanceOf(old(prisma.View()), userId)
                                                                             - if returned then amount else 0.0]
                && prisma.transactions == old(prisma.transactions) +
                     if returned then [Row(userId, WITHDRAWAL, amount, COMPLETED, StatusCompleted,
                                           Some(env(WriteCompleted).now), 1)]
                     else []
    {
      if Acknowledged(env) {
        WithdrawalOutcome(prisma.View(), userId, amount, env);
      }
      ghost var db0, job0 := prisma.View(), NewJob(WITHDRAWAL, userId, amount);
      var id, job := Begin(WITHDRAWAL, userId, amount, env);
      if id.None? { return false; }
      returned := Complete(db0, job0, id.value, userId, -amount, env, job);
    }

    /** DepositHandler.execute. */
    method Deposit(userId: string, amount: real, env: Env) returns (returned: bool)
      requires Valid()
      modifies prisma
      ensures EndsAt(old(prisma.View()), NewJob(DEPOSIT, userId, amount), prisma.View(), returned, env)
      ensures Acknowledged(env) ==>
                && (returned <==> env(Pay).payment != Refused)
                && prisma.billingUsers == old(prisma.billingUsers)[userId :=
                     BalanceOf(old(prisma.View()), userId) + if env(Pay).payment == Succeeded then amount else 0.0]
                && prisma.transactions == old(prisma.transactions) + [
                     if env(Pay).payment == Succeeded
                     then Row(userId, DEPOSIT, amount, COMPLETED, StatusCompleted, Some(env(WriteCompleted).now), 1)
                     else Row(userId, DEPOSIT, amount, PROCESSING, StatusProcessing, None, 0)]
    {
      if Acknowledged(env) {
        DepositOutcome(prisma.View(), userId, amount, env);
      }
      ghost var db0, job0 := prisma.View(), NewJob(DEPOSIT, userId, amount);
      var id, job := Begin(DEPOSIT, userId, amount, env);
      if id.None? { return false; }
      var settled, job1 := TakePayment(db0, job0, id.value, env, job);
      if settled == Some(true) {
        returned := Complete(db0, job0, id.value, userId, amount, env, job1);
      } else {
        returned := settled.Some?;
        Ends(db0, job0, prisma.View(), job1, env);
      }
    }
  }
}
