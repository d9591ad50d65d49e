/** Balances and transaction rows under any number of interleaved deposit and withdraw handlers, one awaited
    database command per step. */
module Ledger {
  import opened SagaTypes
  import opened TransactionStates

  datatype Kind = DEPOSIT | WITHDRAWAL

  /** A transaction row. `applied` is history: how often its amount went into its user's balance. */
  datatype Row = Row(
    userId: string, kind: Kind, amount: real, state: TransactionState, status: TransactionStatus,
    completedAt: Option<nat>, applied: nat)

  function NewRow(userId: string, kind: Kind, amount: real): Row {
    Row(userId, kind, amount, CREATED, StatusPending, None, 0)
  }

  /** What a transaction does to the balance. */
  function Signed(kind: Kind, amount: real): real {
    match kind case DEPOSIT => amount case WITHDRAWAL => -amount
  }

  /** Billing users by their unique userId; transactions in the order of their creation, the position being the id. */
  datatype Db = Db(users: map<string, real>, rows: seq<Row>)

  /** The update of `transition`, once it has judged the state it read. */
  function Moved(row: Row, to: TransactionState, now: nat): Row {
    row.(state := to, status := MapStateToStatus(to), completedAt := if to == COMPLETED then Some(now)
                                                                     else row.completedAt)
  }

  datatype Pc =
    | FindUser | CreateUser | CreateRow
    | ReadCreated | WriteProcessing
    | Pay | RecordIntent(succeeded: bool)
    | UpdateBalance
    | ReadProcessing | WriteCompleted
    | Returned | Threw

  /** One call of a handler; `row` is its transaction once created. */
  datatype Job = Job(kind: Kind, userId: string, amount: real, pc: Pc, row: nat)

  function NewJob(kind: Kind, userId: string, amount: real): Job {
    Job(kind, userId, amount, FindUser, 0)
  }

  /** What Stripe answers: a succeeded intent, an intent in any other status, or an exception. */
  datatype Payment = Succeeded | Unsettled | Refused

  datatype Choice = Choice(reply: Reply, payment: Payment, now: nat)

  /** The check that follows reading (or creating) the user: only a withdrawal makes it. */
  function AfterUser(job: Job, balance: real): Job {
    job.(pc := if job.kind == WITHDRAWAL && balance < job.amount then Threw else CreateRow)
  }

  function NextDb(db: Db, job: Job, choice: Choice): Db {
    if choice.reply == Lost then db else
      match job.pc
      case CreateUser => if job.userId in db.users then db else db.(users := db.users[job.userId := 0.0])
      case CreateRow => db.(rows := db.rows + [NewRow(job.userId, job.kind, job.amount)])
      case WriteProcessing =>
        if job.row < |db.rows| then db.(rows := db.rows[job.row := Moved(db.rows[job.row], PROCESSING, choice.now)])
        else db
      case RecordIntent(_) =>
        if job.row < |db.rows| then db.(rows := db.rows[job.row := db.rows[job.row].(status := StatusProcessing)])
        else db
      case UpdateBalance =>
        if job.userId in db.users && job.row < |db.rows| then
          Db(db.users[job.userId := db.users[job.userId] + Signed(job.kind, job.amount)],
             db.rows[job.row := db.rows[job.row].(applied := db.rows[job.row].applied + 1)])
        else db
      case WriteCompleted =>
        if job.row < |db.rows| then db.(rows := db.rows[job.row := Moved(db.rows[job.row], COMPLETED, choice.now)])
        else db
      case _ => db
  }

  function NextJob(db: Db, job: Job, choice: Choice): (next: Job)
    ensures (next.kind, next.userId, next.amount) == (job.kind, job.userId, job.amount)
    ensures job.pc != CreateRow ==> next.row == job.row
  {
    if job.pc.Returned? || job.pc.Threw? then job
    else if job.pc == Pay then
      match choice.payment
      case Refused => job.(pc := Threw)
      case _ => job.(pc := RecordIntent(choice.payment == Succeeded))
    else if choice.reply != Ok then job.(pc := Threw)
    else
      match job.pc
      case FindUser => if job.userId in db.users then AfterUser(job, db.users[job.userId]) else job.(pc := CreateUser)
      case CreateUser => if job.userId in db.users then job.(pc := Threw) else AfterUser(job, 0.0)
      case CreateRow => job.(pc := ReadCreated, row := |db.rows|)
      case ReadCreated =>
        job.(pc := if job.row < |db.rows| && IsValidTransition(db.rows[job.row].state, PROCESSING) then WriteProcessing
                   else Threw)
      case WriteProcessing => job.(pc := if job.kind == DEPOSIT then Pay else UpdateBalance)
      case RecordIntent(succeeded) => job.(pc := if succeeded then UpdateBalance else Returned)
      case UpdateBalance => job.(pc := if job.userId in db.users then ReadProcessing else Threw)
      case ReadProcessing =>
        job.(pc := if job.row < |db.rows| && IsValidTransition(db.rows[job.row].state, COMPLETED) then WriteCompleted
                   else Threw)
      case _ => job.(pc := Returned)
  }

  /** A call of `transition` from outside the two handlers: it reads and judges, then writes. */
  datatype Mover = Mover(row: nat, to: TransactionState, pc: MoverPc)

  datatype MoverPc = Judging | Writing | Finished

  datatype World = World(db: Db, jobs: map<nat, Job>, movers: map<nat, Mover>)

  /** A call that stopped is one that no later action names. */
  datatype Action =
    | Start(job: nat, kind: Kind, userId: string, amount: real)
    | Proceed(job: nat, choice: Choice)
    | Move(mover: nat, row: nat, to: TransactionState)
    | Carry(mover: nat, reply: Reply, now: nat)

  /** A whole call of `transition`, uninterrupted and acknowledged. */
  function Transitioned(db: Db, row: nat, to: TransactionState, now: nat): Db {
    if row < |db.rows| && IsValidTransition(db.rows[row].state, to)
    then db.(rows := db.rows[row := Moved(db.rows[row], to, now)]) else db
  }

  function MovedOn(db: Db, mover: Mover, reply: Reply): Mover {
    match mover.pc
    case Judging =>
      mover.(pc := if reply == Ok && mover.row < |db.rows| && IsValidTransition(db.rows[mover.row].state, mover.to)
                   then Writing else Finished)
    case _ => mover.(pc := Finished)
  }

  function MoverDb(db: Db, mover: Mover, reply: Reply, now: nat): Db {
    if mover.pc == Writing && reply != Lost && mover.row < |db.rows|
    then db.(rows := db.rows[mover.row := Moved(db.rows[mover.row], mover.to, now)])
    else db
  }

  function StepWorld(w: World, action: Action): World {
    match action
    case Start(i, kind, userId, amount) => if i in w.jobs then w
                                           else w.(jobs := w.jobs[i := NewJob(kind, userId, amount)])
    case Proceed(i, choice) =>
      if i !in w.jobs then w
      else World(NextDb(w.db, w.jobs[i], choice), w.jobs[i := NextJob(w.db, w.jobs[i], choice)], w.movers)
    case Move(i, row, to) => if i in w.movers then w else w.(movers := w.movers[i := Mover(row, to, Judging)])
    case Carry(i, reply, now) =>
      if i !in w.movers then w
      else World(MoverDb(w.db, w.movers[i], reply, now), w.jobs, w.movers[i := MovedOn(w.db, w.movers[i], reply)])
  }

  /** From given balances and no transactions. */
  function Exec(opening: map<string, real>, trace: seq<Action>): World {
    if trace == [] then World(Db(opening, []), map[], map[])
    else StepWorld(Exec(opening, trace[..|trace| - 1]), trace[|trace| - 1])
  }

  // ---- Sums over the rows ----

  function Contribution(row: Row): real {
    row.applied as real * Signed(row.kind, row.amount)
  }

  /** What a user's transactions have put into the balance. */
  function Applied(rows: seq<Row>, userId: string): real {
    if rows == [] then 0.0 else
      var last := rows[|rows| - 1];
      Applied(rows[..|rows| - 1], userId) + if last.userId == userId then Contribution(last) else 0.0
  }

  lemma AppliedAppend(rows: seq<Row>, row: Row, userId: string)
    ensures Applied(rows + [row], userId) == Applied(rows, userId) + if row.userId == userId then Contribution(row)
                                                                     else 0.0
  {
    assert (rows + [row])[..|rows|] == rows;
  }

  lemma {:induction false} AppliedUpdate(rows: seq<Row>, i: nat, row: Row, userId: string)
    requires i < |rows| && row.userId == rows[i].userId
    ensures Applied(rows[i := row], userId) ==
            Applied(rows, userId) + if row.userId == userId then Contribution(row) - Contribution(rows[i]) else 0.0
    decreases |rows|
  {
    var n := |rows| - 1;
    if i == n {
      assert rows[i := row][..n] == rows[..n];
    } else {
      assert rows[i := row][..n] == rows[..n][i := row];
      AppliedUpdate(rows[..n], i, row, userId);
    }
  }

  function OpeningBalance(opening: map<string, real>, userId: string): real {
    if userId in opening then opening[userId] else 0.0
  }

  // ---- What holds whatever moves the transactions ----

  predicate HasRow(pc: Pc) {
    !pc.FindUser? && !pc.CreateUser? && !pc.CreateRow? && !pc.Returned? && !pc.Threw?
  }

  predicate AfterCredit(pc: Pc) {
    pc.ReadProcessing? || pc.WriteCompleted?
  }

  /** A handler under way owns its row, and has applied it exactly if it is past the balance update. */
  predicate JobOwns(db: Db, job: Job) {
    && (HasRow(job.pc) || job.pc.CreateRow? ==> job.userId in db.users)
    && (HasRow(job.pc) ==>
          && job.row < |db.rows|
          && db.rows[job.row].userId == job.userId && db.rows[job.row].kind == job.kind
             && db.rows[job.row].amount == job.amount
          && db.rows[job.row].applied == if AfterCredit(job.pc) then 1 else 0)
  }

  ghost predicate Balanced(opening: map<string, real>, db: Db) {
    forall userId :: userId in db.users ==>
      db.users[userId] == OpeningBalance(opening, userId) + Applied(db.rows, userId)
  }

  ghost predicate SeparateRows(jobs: map<nat, Job>) {
    forall i, j :: i in jobs && j in jobs && i != j && HasRow(jobs[i].pc) && HasRow(jobs[j].pc) ==>
      jobs[i].row != jobs[j].row
  }

  ghost predicate LedgerInv(opening: map<string, real>, w: World) {
    && opening.Keys <= w.db.users.Keys
    && Balanced(opening, w.db)
    && (forall k :: 0 <= k < |w.db.rows| ==> w.db.rows[k].userId in w.db.users && w.db.rows[k].applied <= 1)
    && (forall i :: i in w.jobs ==> JobOwns(w.db, w.jobs[i]))
    && SeparateRows(w.jobs)
  }

  /** A row changed in everything but whose it is, what it is for and whether it was applied. */
  predicate SameLedgerRow(a: Row, b: Row) {
    a.userId == b.userId && a.kind == b.kind && a.amount == b.amount && a.applied == b.applied
  }

  lemma RelabelKeepsBalanced(opening: map<string, real>, db: Db, k: nat, row: Row)
    requires Balanced(opening, db) && k < |db.rows| && SameLedgerRow(db.rows[k], row)
    ensures Balanced(opening, db.(rows := db.rows[k := row]))
  {
    forall userId | userId in db.users ensures Applied(db.rows[k := row], userId) == Applied(db.rows, userId) {
      AppliedUpdate(db.rows, k, row, userId);
      assert Contribution(row) == Contribution(db.rows[k]);
    }
  }

  lemma CreateUserKeepsBalanced(opening: map<string, real>, db: Db, userId: string)
    requires Balanced(opening, db) && opening.Keys <= db.users.Keys && userId !in db.users
    requires forall k :: 0 <= k < |db.rows| ==> db.rows[k].userId in db.users
    ensures Balanced(opening, db.(users := db.users[userId := 0.0]))
  {
    NoRowsNoSum(db.rows, userId);
  }

  lemma {:induction false} NoRowsNoSum(rows: seq<Row>, userId: string)
    requires forall k :: 0 <= k < |rows| ==> rows[k].userId != userId
    ensures Applied(rows, userId) == 0.0
  {
    if rows != [] {
      NoRowsNoSum(rows[..|rows| - 1], userId);
    }
  }

  lemma CreditKeepsBalanced(opening: map<string, real>, db: Db, job: Job)
    requires Balanced(opening, db) && job.pc == UpdateBalance && JobOwns(db, job)
    ensures Balanced(opening, NextDb(db, job, Choice(Ok, Succeeded, 0)))
  {
    var row := db.rows[job.row].(applied := 1);
    forall userId | userId in db.users
      ensures Applied(db.rows[job.row := row], userId) ==
              Applied(db.rows, userId) + if userId == job.userId then Signed(job.kind, job.amount) else 0.0
    {
      AppliedUpdate(db.rows, job.row, row, userId);
    }
  }

  /** A handler's own step: its database effect keeps the balances explained. */
  lemma StepKeepsBalanced(opening: map<string, real>, db: Db, job: Job, choice: Choice)
    requires Balanced(opening, db) && opening.Keys <= db.users.Keys && JobOwns(db, job)
    requires forall k :: 0 <= k < |db.rows| ==> db.rows[k].userId in db.users
    ensures Balanced(opening, NextDb(db, job, choice))
  {
    if choice.reply != Lost {
      match job.pc
      case CreateUser => if job.userId !in db.users { CreateUserKeepsBalanced(opening, db, job.userId); }
      case CreateRow =>
        var row := NewRow(job.userId, job.kind, job.amount);
        forall userId | userId in db.users ensures Applied(db.rows + [row], userId) == Applied(db.rows, userId) {
          AppliedAppend(db.rows, row, userId);
        }
      case WriteProcessing => RelabelKeepsBalanced(opening, db, job.row,
                                                   Moved(db.rows[job.row], PROCESSING, choice.now));
      case RecordIntent(_) => RelabelKeepsBalanced(opening, db, job.row, db.rows[job.row].(status := StatusProcessing));
      case UpdateBalance => CreditKeepsBalanced(opening, db, job);
      case WriteCompleted => RelabelKeepsBalanced(opening, db, job.row, Moved(db.rows[job.row], COMPLETED, choice.now));
      case _ =>
    }
  }

  /** What one step of a handler may do to the rows: append one of its own, or change its own. */
  lemma StepRows(db: Db, job: Job, choice: Choice)
    requires JobOwns(db, job)
    requires forall k :: 0 <= k < |db.rows| ==> db.rows[k].userId in db.users && db.rows[k].applied <= 1
    ensures var db' := NextDb(db, job, choice);
            && db.users.Keys <= db'.users.Keys
            && |db.rows| <= |db'.rows|
            && (forall k :: 0 <= k < |db.rows| && !(HasRow(job.pc) && k == job.row) ==> db'.rows[k] == db.rows[k])
            && (forall k :: 0 <= k < |db'.rows| ==> db'.rows[k].userId in db'.users && db'.rows[k].applied <= 1)
            && JobOwns(db', NextJob(db, job, choice))
            && (HasRow(NextJob(db, job, choice).pc) ==>
                  HasRow(job.pc) || (job.pc == CreateRow && NextJob(db, job, choice).row == |db.rows|))
  {
  }

  lemma ProceedKeepsLedger(opening: map<string, real>, w: World, i: nat, choice: Choice)
    requires LedgerInv(opening, w)
    ensures LedgerInv(opening, StepWorld(w, Proceed(i, choice)))
  {
    if i in w.jobs {
      StepKeepsBalanced(opening, w.db, w.jobs[i], choice);
      StepRows(w.db, w.jobs[i], choice);
      OthersStay(w, i, NextDb(w.db, w.jobs[i], choice), NextJob(w.db, w.jobs[i], choice));
    }
  }

  lemma OthersStay(w: World, i: nat, db': Db, job': Job)
    requires i in w.jobs && SeparateRows(w.jobs) && (forall j :: j in w.jobs ==> JobOwns(w.db, w.jobs[j]))
    requires w.db.users.Keys <= db'.users.Keys && |w.db.rows| <= |db'.rows| && JobOwns(db', job')
    requires forall k :: 0 <= k < |w.db.rows| && !(HasRow(w.jobs[i].pc) && k == w.jobs[i].row) ==>
               db'.rows[k] == w.db.rows[k]
    requires HasRow(job'.pc) ==> (HasRow(w.jobs[i].pc) && job'.row == w.jobs[i].row) || job'.row == |w.db.rows|
    ensures var jobs := w.jobs[i := job']; (forall j :: j in jobs ==> JobOwns(db', jobs[j])) && SeparateRows(jobs)
  {
  }

  /** The two commands of `transition` with nothing in between. */
  lemma UninterruptedMove(w: World, i: nat, row: nat, to: TransactionState, now: nat)
    requires i !in w.movers
    ensures StepWorld(StepWorld(StepWorld(w, Move(i, row, to)), Carry(i, Ok, now)), Carry(i, Ok, now)).db ==
            Transitioned(w.db, row, to, now)
  {
  }

  lemma CarryKeepsLedger(opening: map<string, real>, w: World, i: nat, reply: Reply, now: nat)
    requires LedgerInv(opening, w)
    ensures LedgerInv(opening, StepWorld(w, Carry(i, reply, now)))
  {
    if i in w.movers && w.movers[i].pc == Writing && reply != Lost && w.movers[i].row < |w.db.rows| {
      var row := w.movers[i].row;
      RelabelKeepsBalanced(opening, w.db, row, Moved(w.db.rows[row], w.movers[i].to, now));
    }
  }

  lemma {:induction false} LedgerAlways(opening: map<string, real>, trace: seq<Action>, w: World)
    requires w == Exec(opening, trace)
    ensures LedgerInv(opening, w)
    decreases |trace|
  {
    if trace != [] {
      var before := trace[..|trace| - 1];
      var w0 := Exec(opening, before);
      LedgerAlways(opening, before, w0);
      match trace[|trace| - 1]
      case Start(i, kind, userId, amount) =>
      case Proceed(i, choice) => ProceedKeepsLedger(opening, w0, i, choice);
      case Move(_, _, _) =>
      case Carry(i, reply, now) => CarryKeepsLedger(opening, w0, i, reply, now);
    }
  }

  // ---- What holds when only the handlers move them ----

  /** A row that only its handler touched. */
  predicate RowOk(row: Row) {
    && (row.state == COMPLETED ==> row.applied == 1)
    && (row.applied == 1 ==> row.state == PROCESSING || row.state == COMPLETED)
    && row.applied <= 1
    && row.status == MapStateToStatus(row.state)
    && (row.completedAt.Some? <==> row.state == COMPLETED)
    && (row.state == CREATED || row.state == PROCESSING || row.state == COMPLETED)
  }

  predicate JobState(db: Db, job: Job) {
    HasRow(job.pc) && job.row < |db.rows| ==>
      db.rows[job.row].state == if job.pc.ReadCreated? || job.pc.WriteProcessing? then CREATED else PROCESSING
  }

  ghost predicate HandlersInv(w: World) {
    && w.movers == map[]
    && (forall k :: 0 <= k < |w.db.rows| ==> RowOk(w.db.rows[k]))
    && (forall i :: i in w.jobs ==> JobState(w.db, w.jobs[i]))
  }

  predicate HandlersOnly(trace: seq<Action>) {
    forall k :: 0 <= k < |trace| ==> !trace[k].Move?
  }

  lemma StepRowOk(db: Db, job: Job, choice: Choice)
    requires JobOwns(db, job) && JobState(db, job)
    requires forall k :: 0 <= k < |db.rows| ==> RowOk(db.rows[k])
    ensures var db' := NextDb(db, job, choice);
            && (forall k :: 0 <= k < |db'.rows| ==> RowOk(db'.rows[k]))
            && JobState(db', NextJob(db, job, choice))
  {
  }

  lemma ProceedKeepsHandlers(opening: map<string, real>, w: World, i: nat, choice: Choice)
    requires LedgerInv(opening, w) && HandlersInv(w)
    ensures HandlersInv(StepWorld(w, Proceed(i, choice)))
  {
    if i in w.jobs {
      StepRowOk(w.db, w.jobs[i], choice);
      StepRows(w.db, w.jobs[i], choice);
      OtherStatesStay(w, i, NextDb(w.db, w.jobs[i], choice), NextJob(w.db, w.jobs[i], choice));
    }
  }

  lemma OtherStatesStay(w: World, i: nat, db': Db, job': Job)
    requires i in w.jobs && SeparateRows(w.jobs)
             && (forall j :: j in w.jobs ==> JobOwns(w.db, w.jobs[j]) && JobState(w.db, w.jobs[j]))
    requires |w.db.rows| <= |db'.rows| && JobState(db', job')
    requires forall k :: 0 <= k < |w.db.rows| && !(HasRow(w.jobs[i].pc) && k == w.jobs[i].row) ==>
               db'.rows[k] == w.db.rows[k]
    ensures var jobs := w.jobs[i := job']; forall j :: j in jobs ==> JobState(db', jobs[j])
  {
  }

  lemma {:induction false} HandlersAlways(opening: map<string, real>, trace: seq<Action>, w: World)
    requires w == Exec(opening, trace) && HandlersOnly(trace)
    ensures HandlersInv(w)
    decreases |trace|
  {
    if trace != [] {
      var before := trace[..|trace| - 1];
      var w0 := Exec(opening, before);
      HandlersAlways(opening, before, w0);
      LedgerAlways(opening, before, w0);
      match trace[|trace| - 1]
      case Start(i, kind, userId, amount) =>
      case Proceed(i, choice) => ProceedKeepsHandlers(opening, w0, i, choice);
      case Carry(_, _, _) =>
    }
  }

  // ---- Theorems ----

  /** Every balance is its opening balance plus what its transactions put in, and no transaction is put in twice: over
      every interleaving of handlers, crashes, lost replies and outside moves. */
  lemma BalancesAreExplained(opening: map<string, real>, trace: seq<Action>, userId: string)
    ensures var db := Exec(opening, trace).db;
            && (userId in db.users ==> db.users[userId] == OpeningBalance(opening, userId) + Applied(db.rows, userId))
            && (forall k :: 0 <= k < |db.rows| ==> db.rows[k].applied <= 1)
  {
    LedgerAlways(opening, trace, Exec(opening, trace));
  }

  /** With the handlers alone: a COMPLETED transaction was applied exactly once, an applied one is PROCESSING or
      COMPLETED, state and status are CREATED and PENDING, both PROCESSING, or both COMPLETED (in spite of the deposit's
      direct write of the status), and completedAt is set in COMPLETED only. */
  lemma RowsAreConsistent(opening: map<string, real>, trace: seq<Action>, k: nat)
    requires HandlersOnly(trace) && k < |Exec(opening, trace).db.rows|
    ensures var row := Exec(opening, trace).db.rows[k];
            && (row.state == COMPLETED ==> row.applied == 1)
            && (row.applied > 0 ==> row.applied == 1 && (row.state == PROCESSING || row.state == COMPLETED))
            && (row.state == CREATED <==> row.status == StatusPending)
            && (row.state == PROCESSING <==> row.status == StatusProcessing)
            && (row.state == COMPLETED <==> row.status == StatusCompleted)
            && (row.state == CREATED || row.state == PROCESSING || row.state == COMPLETED)
            && (row.completedAt.Some? <==> row.state == COMPLETED)
  {
    HandlersAlways(opening, trace, Exec(opening, trace));
    assert RowOk(Exec(opening, trace).db.rows[k]);
  }

  /** Completed deposits less completed withdrawals. */
  function Completed(rows: seq<Row>, userId: string): real {
    if rows == [] then 0.0 else
      var last := rows[|rows| - 1];
      Completed(rows[..|rows| - 1], userId) +
      if last.userId == userId && last.state == COMPLETED then Signed(last.kind, last.amount) else 0.0
  }

  function Abs(x: real): real {
    if x < 0.0 then -x else x
  }

  /** The amounts still PROCESSING. */
  function Processing(rows: seq<Row>, userId: string): real {
    if rows == [] then 0.0 else
      var last := rows[|rows| - 1];
      Processing(rows[..|rows| - 1], userId) + if last.userId == userId && last.state == PROCESSING
                                               then Abs(last.amount) else 0.0
  }

  lemma {:induction false} AppliedVersusCompleted(rows: seq<Row>, userId: string)
    requires forall k :: 0 <= k < |rows| ==> RowOk(rows[k])
    ensures Abs(Applied(rows, userId) - Completed(rows, userId)) <= Processing(rows, userId)
  {
    if rows != [] {
      var last := rows[|rows| - 1];
      AppliedVersusCompleted(rows[..|rows| - 1], userId);
      assert RowOk(last);
      if last.applied == 1 {
        assert Contribution(last) == Signed(last.kind, last.amount);
      }
    }
  }

  /** At every moment, a balance differs from its opening balance plus completed deposits less completed withdrawals by
      at most the amounts still PROCESSING. */
  lemma {:induction false} BalanceWithinProcessing(opening: map<string, real>, trace: seq<Action>, userId: string)
    requires HandlersOnly(trace) && userId in Exec(opening, trace).db.users
    ensures var db := Exec(opening, trace).db;
            Abs(db.users[userId] - (OpeningBalance(opening, userId)
                                    + Completed(db.rows, userId))) <= Processing(db.rows, userId)
  {
    var w := Exec(opening, trace);
    LedgerAlways(opening, trace, w);
    HandlersAlways(opening, trace, w);
    AppliedVersusCompleted(w.db.rows, userId);
  }

  /** COMPLETED is final under any interleaving of handlers. */
  lemma {:induction false} CompletedStays(opening: map<string, real>, trace: seq<Action>, more: seq<Action>, k: nat,
      w: World, w': World)
    requires HandlersOnly(trace + more) && w == Exec(opening, trace) && w' == Exec(opening, trace + more)
    requires k < |w.db.rows| && w.db.rows[k].state == COMPLETED
    ensures k < |w'.db.rows| && w'.db.rows[k] == w.db.rows[k]
    decreases |more|
  {
    if more == [] {
      assert trace + more == trace;
    } else {
      var before := trace + more[..|more| - 1];
      assert (trace + more)[..|trace + more| - 1] == before;
      assert forall j :: 0 <= j < |before| ==> before[j] == (trace + more)[j];
      var w0 := Exec(opening, before);
      CompletedStays(opening, trace, more[..|more| - 1], k, w, w0);
      LedgerAlways(opening, before, w0);
      HandlersAlways(opening, before, w0);
      CompletedOneMore(opening, w0, (trace + more)[|trace + more| - 1], k);
    }
  }

  lemma CompletedOneMore(opening: map<string, real>, w: World, action: Action, k: nat)
    requires LedgerInv(opening, w) && HandlersInv(w) && !action.Move? && k < |w.db.rows|
             && w.db.rows[k].state == COMPLETED
    ensures var w' := StepWorld(w, action); k < |w'.db.rows| && w'.db.rows[k] == w.db.rows[k]
  {
    if action.Proceed? && action.job in w.jobs {
      assert JobState(w.db, w.jobs[action.job]);
      StepRows(w.db, w.jobs[action.job], action.choice);
    }
  }
}
