/** Virtual accounts (virtual-account.service.ts): transfers, adjustments and closing, interleaved and one at a time. */
module VirtualAccounts {
  import opened SagaTypes

  datatype AccountStatus = ACTIVE | SUSPENDED | CLOSED

  datatype Account = Account(balance: real, status: AccountStatus)

  /** By account number. */
  type Accounts = map<string, Account>

  function Increment(accounts: Accounts, number: string, amount: real): Accounts
    requires number in accounts
  {
    accounts[number := accounts[number].(balance := accounts[number].balance + amount)]
  }

  function WithStatus(accounts: Accounts, number: string, status: AccountStatus): Accounts
    requires number in accounts
  {
    accounts[number := accounts[number].(status := status)]
  }

  /** The two updates of a transfer, in one database transaction. */
  function Transferred(accounts: Accounts, from: string, to: string, amount: real): Accounts
    requires from in accounts && to in accounts
  {
    Increment(Increment(accounts, from, -amount), to, amount)
  }

  // ---- The sum of all balances ----

  ghost function Total(accounts: Accounts): real {
    if accounts == map[] then 0.0 else
      var k :| k in accounts;
      accounts[k].balance + Total(accounts - {k})
  }

  lemma {:induction false} TotalWithout(accounts: Accounts, k: string)
    requires k in accounts
    ensures Total(accounts) == accounts[k].balance + Total(accounts - {k})
    decreases |accounts|
  {
    var first :| first in accounts && Total(accounts) == accounts[first].balance + Total(accounts - {first});
    if first != k {
      TotalWithout(accounts - {first}, k);
      TotalWithout(accounts - {k}, first);
      assert accounts - {first} - {k} == accounts - {k} - {first};
    }
  }

  lemma TotalUpdate(accounts: Accounts, k: string, account: Account)
    ensures Total(accounts[k := account]) == Total(accounts) + account.balance - if k in accounts
                                                                                 then accounts[k].balance else 0.0
  {
    TotalWithout(accounts[k := account], k);
    assert accounts[k := account] - {k} == accounts - {k};
    if k in accounts {
      TotalWithout(accounts, k);
    } else {
      assert accounts - {k} == accounts;
    }
  }

  lemma TotalTransferred(accounts: Accounts, from: string, to: string, amount: real)
    requires from in accounts && to in accounts
    ensures Total(Transferred(accounts, from, to, amount)) == Total(accounts)
  {
    var debited := Increment(accounts, from, -amount);
    TotalUpdate(accounts, from, debited[from]);
    TotalUpdate(debited, to, Transferred(accounts, from, to, amount)[to]);
  }

  // ---- Interleaved ----

  datatype Task = Transfer(from: string, to: string, amount: real) | Close(number: string)

  datatype Pc = ReadFrom | ReadTo | Commit | Done | Threw

  /** A call under way; `seen` is the balance it read, if the account was there. */
  datatype Job = Job(task: Task, pc: Pc, seen: Option<real>)

  function BalanceOf(accounts: Accounts, number: string): Option<real> {
    if number in accounts then Some(accounts[number].balance) else None
  }

  function NextAccounts(accounts: Accounts, job: Job, reply: Reply): Accounts {
    if job.pc != Commit || reply == Lost then accounts else
      match job.task
      case Transfer(from, to, amount) => if from in accounts && to in accounts
                                         then Transferred(accounts, from, to, amount) else accounts
      case Close(number) => if number in accounts then WithStatus(accounts, number, CLOSED) else accounts
  }

  /** Closing reads once. */
  function NextClose(accounts: Accounts, job: Job, number: string): Job {
    if job.pc == Commit then job.(pc := if number in accounts then Done else Threw)
    else
      var balance := BalanceOf(accounts, number);
      job.(seen := balance, pc := if balance.Some? && balance.value <= 0.0 then Commit else Threw)
  }

  /** A transfer reads both accounts before it looks at either. */
  function NextTransfer(accounts: Accounts, job: Job, from: string, to: string, amount: real): Job {
    if job.pc == Commit then job.(pc := if from in accounts && to in accounts then Done else Threw)
    else if job.pc == ReadFrom then job.(seen := BalanceOf(accounts, from), pc := ReadTo)
    else job.(pc := if job.seen.Some? && to in accounts && job.seen.value >= amount then Commit else Threw)
  }

  function NextJob(accounts: Accounts, job: Job, reply: Reply): (next: Job)
    ensures next.task == job.task
  {
    if job.pc == Done || job.pc == Threw then job
    else if reply != Ok then job.(pc := Threw)
    else
      match job.task
      case Transfer(from, to, amount) => NextTransfer(accounts, job, from, to, amount)
      case Close(number) => NextClose(accounts, job, number)
  }

  /** `adjusted` is history: what updateVirtualAccountBalance has added in all. */
  datatype World = World(accounts: Accounts, jobs: map<nat, Job>, adjusted: real)

  datatype Action =
    | Create(number: string)
    | Start(job: nat, task: Task)
    | Proceed(job: nat, reply: Reply)
    | Adjust(number: string, amount: real)
    | Suspend(number: string)

  function StepWorld(w: World, action: Action): World {
    match action
    case Create(number) => if number in w.accounts then w
                           else w.(accounts := w.accounts[number := Account(0.0, ACTIVE)])
    case Start(i, task) => if i in w.jobs then w else w.(jobs := w.jobs[i := Job(task, ReadFrom, None)])
    case Proceed(i, reply) =>
      if i !in w.jobs then w else
        w.(accounts := NextAccounts(w.accounts, w.jobs[i], reply),
           jobs := w.jobs[i := NextJob(w.accounts, w.jobs[i], reply)])
    case Adjust(number, amount) =>
      if number !in w.accounts then w
      else w.(accounts := Increment(w.accounts, number, amount), adjusted := w.adjusted + amount)
    case Suspend(number) => if number !in w.accounts then w
                            else w.(accounts := WithStatus(w.accounts, number, SUSPENDED))
  }

  function Exec(opening: Accounts, trace: seq<Action>): World {
    if trace == [] then World(opening, map[], 0.0)
    else StepWorld(Exec(opening, trace[..|trace| - 1]), trace[|trace| - 1])
  }

  lemma StepConserves(w: World, action: Action)
    ensures Total(StepWorld(w, action).accounts) - StepWorld(w, action).adjusted == Total(w.accounts) - w.adjusted
    ensures w.accounts.Keys <= StepWorld(w, action).accounts.Keys
  {
    match action
    case Create(number) => if number !in w.accounts { TotalUpdate(w.accounts, number, Account(0.0, ACTIVE)); }
    case Start(i, task) =>
    case Proceed(i, reply) => if i in w.jobs { JobConserves(w.accounts, w.jobs[i], reply); }
    case Adjust(number, amount) =>
      if number in w.accounts { TotalUpdate(w.accounts, number, Increment(w.accounts, number, amount)[number]); }
    case Suspend(number) => if number in w.accounts { TotalUpdate(w.accounts, number,
                                                                  WithStatus(w.accounts, number, SUSPENDED)[number]); }
  }

  lemma JobConserves(accounts: Accounts, job: Job, reply: Reply)
    ensures Total(NextAccounts(accounts, job, reply)) == Total(accounts)
    ensures NextAccounts(accounts, job, reply).Keys == accounts.Keys
  {
    if job.pc == Commit {
      match job.task
      case Transfer(from, to, amount) => if from in accounts
                                            && to in accounts { TotalTransferred(accounts, from, to, amount); }
      case Close(number) => if number in accounts { TotalUpdate(accounts, number,
                                                                WithStatus(accounts, number, CLOSED)[number]); }
    }
  }

  /** Over any interleaving of transfers (of any amount, also negative, also of an account to itself), closings,
      suspensions and new accounts, stopped anywhere: the sum of all balances moves by exactly what
      updateVirtualAccountBalance added. */
  lemma {:induction false} TotalIsConserved(opening: Accounts, trace: seq<Action>)
    ensures Total(Exec(opening, trace).accounts) == Total(opening) + Exec(opening, trace).adjusted
    decreases |trace|
  {
    if trace != [] {
      TotalIsConserved(opening, trace[..|trace| - 1]);
      StepConserves(Exec(opening, trace[..|trace| - 1]), trace[|trace| - 1]);
    }
  }

  // ---- One at a time ----

  /** A whole call of transferBetweenAccounts with nothing in between. */
  function TransferAlone(accounts: Accounts, from: string, to: string, amount: real): (r: (Accounts, bool))
    ensures !r.1 ==> r.0 == accounts
    ensures r.0.Keys == accounts.Keys
  {
    if from !in accounts || to !in accounts || accounts[from].balance < amount then (accounts, false)
    else (Transferred(accounts, from, to, amount), true)
  }

  function JobAlone(accounts: Accounts, job: Job, n: nat): (Accounts, Job) {
    if n == 0 then (accounts, job) else
      var (a, j) := JobAlone(accounts, job, n - 1);
      (NextAccounts(a, j, Ok), NextJob(a, j, Ok))
  }

  /** The three commands of a transfer, uninterrupted, are the whole call. */
  lemma UninterruptedTransfer(accounts: Accounts, from: string, to: string, amount: real)
    ensures var (a, j) := JobAlone(accounts, Job(Transfer(from, to, amount), ReadFrom, None), 3);
            && a == TransferAlone(accounts, from, to, amount).0
            && (j.pc == Done <==> TransferAlone(accounts, from, to, amount).1) && (j.pc == Done || j.pc == Threw)
  {
    var job := Job(Transfer(from, to, amount), ReadFrom, None);
    assert JobAlone(accounts, job, 0) == (accounts, job);
    var (a1, j1) := JobAlone(accounts, job, 1);
    assert a1 == accounts && j1 == Job(job.task, ReadTo, BalanceOf(accounts, from));
    var (a2, j2) := JobAlone(accounts, job, 2);
    assert a2 == accounts && (j2.pc == Commit <==> TransferAlone(accounts, from, to, amount).1);
  }

  /** The calls of one command: a new account is ACTIVE and empty, an adjustment changes one balance, a suspension one
      status; an account that is there is not created again, and one that is not is left alone. */
  lemma SingleCommands(w: World, number: string, amount: real)
    ensures StepWorld(w, Create(number)).accounts ==
            if number in w.accounts then w.accounts else w.accounts[number := Account(0.0, ACTIVE)]
    ensures StepWorld(w, Adjust(number, amount)).accounts ==
            if number !in w.accounts then w.accounts
            else w.accounts[number := Account(w.accounts[number].balance + amount, w.accounts[number].status)]
    ensures StepWorld(w, Suspend(number)).accounts ==
            if number !in w.accounts then w.accounts
            else w.accounts[number := Account(w.accounts[number].balance, SUSPENDED)]
  {
  }

  /** The two commands of a closing, uninterrupted: it closes exactly an account that is there without positive
      balance, and otherwise throws and changes nothing. */
  lemma UninterruptedClose(accounts: Accounts, number: string)
    ensures var (a, j) := JobAlone(accounts, Job(Close(number), ReadFrom, None), 2);
            var closes := number in accounts && accounts[number].balance <= 0.0;
            && a == (if closes then accounts[number := Account(accounts[number].balance, CLOSED)] else accounts)
            && j.pc == if closes then Done else Threw
  {
    var job := Job(Close(number), ReadFrom, None);
    assert JobAlone(accounts, job, 0) == (accounts, job);
    var (a1, j1) := JobAlone(accounts, job, 1);
    assert a1 == accounts;
  }

  ghost predicate NoneNegative(accounts: Accounts) {
    forall k :: k in accounts ==> accounts[k].balance >= 0.0
  }

  /** The source's check: both accounts are there and the first covers the amount, which it does for every negative one
      that is low enough. */
  predicate Accepted(accounts: Accounts, from: string, to: string, amount: real) {
    from in accounts && to in accounts && amount <= accounts[from].balance
  }

  /** When a transfer by itself takes some balance below zero: exactly if it is accepted, goes to another account, and
      is so negative that the receiver cannot give it. No transfer of a non-negative amount does. */
  lemma TransferKeepsNonNegativeIff(accounts: Accounts, from: string, to: string, amount: real)
    requires NoneNegative(accounts)
    ensures NoneNegative(TransferAlone(accounts, from, to, amount).0) <==>
              !(Accepted(accounts, from, to, amount) && from != to && accounts[to].balance < -amount)
    ensures amount >= 0.0 ==> NoneNegative(TransferAlone(accounts, from, to, amount).0)
  {
    var after := TransferAlone(accounts, from, to, amount).0;
    if Accepted(accounts, from, to, amount) && from != to {
      assert after[to].balance == accounts[to].balance + amount;
    }
  }

  /** At an input: a transfer of a negative amount from an account to an empty one is accepted, and takes the money out
      of the receiver, who has none. */
  lemma NegativeTransferTakesFromReceiver(from: string, to: string, balance: real, amount: real)
    requires from != to && balance >= 0.0 && amount < 0.0
    ensures var accounts: Accounts := map[from := Account(balance, ACTIVE), to := Account(0.0, ACTIVE)];
            var (after, ok) := TransferAlone(accounts, from, to, amount);
            && NoneNegative(accounts) && ok
            && after == map[from := Account(balance - amount, ACTIVE), to := Account(amount, ACTIVE)]
            && !NoneNegative(after)
  {
    var accounts: Accounts := map[from := Account(balance, ACTIVE), to := Account(0.0, ACTIVE)];
    var after := TransferAlone(accounts, from, to, amount).0;
    assert after[to].balance == amount;
  }

  /** A history of such calls. */
  datatype Call = Call(from: string, to: string, amount: real)

  function TransferAll(accounts: Accounts, calls: seq<Call>): Accounts {
    if calls == [] then accounts else
      var last := calls[|calls| - 1];
      TransferAlone(TransferAll(accounts, calls[..|calls| - 1]), last.from, last.to, last.amount).0
  }

  lemma {:induction false} SerialTransfersKeepNonNegative(accounts: Accounts, calls: seq<Call>)
    requires NoneNegative(accounts) && forall k :: 0 <= k < |calls| ==> calls[k].amount >= 0.0
    ensures NoneNegative(TransferAll(accounts, calls)) && Total(TransferAll(accounts, calls)) == Total(accounts)
    decreases |calls|
  {
    if calls != [] {
      var last := calls[|calls| - 1];
      var before := TransferAll(accounts, calls[..|calls| - 1]);
      SerialTransfersKeepNonNegative(accounts, calls[..|calls| - 1]);
      TransferKeepsNonNegativeIff(before, last.from, last.to, last.amount);
      if last.from in before && last.to in before {
        TotalTransferred(before, last.from, last.to, last.amount);
      }
    }
  }

  // ---- The service ----

  class VirtualAccountService {
    var virtualAccounts: Accounts

    constructor ()
      ensures virtualAccounts == map[]
    {
      virtualAccounts := map[];
    }

    /** False: the number drawn is taken. */
    method CreateVirtualAccount(number: string) returns (ok: bool)
      modifies this
      ensures ok <==> number !in old(virtualAccounts)
      ensures virtualAccounts == if ok then old(virtualAccounts)[number := Account(0.0, ACTIVE)]
                                 else old(virtualAccounts)
    {
      ok := number !in virtualAccounts;
      if ok { virtualAccounts := virtualAccounts[number := Account(0.0, ACTIVE)]; }
    }

    method UpdateVirtualAccountBalance(number: string, amount: real) returns (ok: bool)
      modifies this
      ensures ok <==> number in old(virtualAccounts)
      ensures virtualAccounts == if ok then Increment(old(virtualAccounts), number, amount) else old(virtualAccounts)
    {
      ok := number in virtualAccounts;
      if ok { virtualAccounts := Increment(virtualAccounts, number, amount); }
    }

    method SuspendVirtualAccount(number: string) returns (ok: bool)
      modifies this
      ensures ok <==> number in old(virtualAccounts)
      ensures virtualAccounts == if ok then WithStatus(old(virtualAccounts), number, SUSPENDED)
                                 else old(virtualAccounts)
    {
      ok := number in virtualAccounts;
      if ok { virtualAccounts := WithStatus(virtualAccounts, number, SUSPENDED); }
    }

    /** Throws for a missing account and for a positive balance. */
    method CloseVirtualAccount(number: string) returns (ok: bool)
      modifies this
      ensures ok <==> number in old(virtualAccounts) && old(virtualAccounts)[number].balance <= 0.0
      ensures virtualAccounts == if ok then WithStatus(old(virtualAccounts), number, CLOSED) else old(virtualAccounts)
    {
      if number !in virtualAccounts { return false; }
      if virtualAccounts[number].balance > 0.0 { return false; }
      virtualAccounts := WithStatus(virtualAccounts, number, CLOSED);
      ok := true;
    }

    /** Neither account's status is looked at. */
    method TransferBetweenAccounts(from: string, to: string, amount: real) returns (ok: bool)
      modifies this
      ensures (virtualAccounts, ok) == TransferAlone(old(virtualAccounts), from, to, amount)
    {
      if from !in virtualAccounts || to !in virtualAccounts { return false; }
      if virtualAccounts[from].balance < amount { return false; }
      var debited := Increment(virtualAccounts, from, -amount);
      virtualAccounts := Increment(debited, to, amount);
      ok := true;
    }
  }
}
