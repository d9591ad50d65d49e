/** Where the virtual accounts' guarantees end once calls interleave: a transfer and a closing act on the balance they
    read, and no call reads a status. Each limit is given exactly. */
module AccountLimits {
  import opened Demands
  import opened SagaTypes
  import opened VirtualAccounts

  lemma Extend(opening: Accounts, trace: seq<Action>, action: Action)
    ensures Exec(opening, trace + [action]) == StepWorld(Exec(opening, trace), action)
  {
    assert (trace + [action])[..|trace|] == trace;
  }

  // ---- When interleaved transfers overdraw ----

  function Amounts(calls: seq<Call>): seq<real> {
    seq(|calls|, i requires 0 <= i < |calls| => calls[i].amount)
  }

  function TaskOf(call: Call): Task {
    Transfer(call.from, call.to, call.amount)
  }

  /** A job that takes from the account is the request of its number; one that gives to it gives nothing negative. */
  predicate TaskAsks(i: nat, task: Task, from: string, calls: seq<Call>) {
    task.Transfer? && task.from != task.to ==>
      && (task.from == from ==> i < |calls| && task == TaskOf(calls[i]))
      && (task.to == from ==> task.amount >= 0.0)
  }

  /** What is asked of one account: job i makes the i-th transfer out of it; whatever else comes in is not negative.
      Other accounts' transfers, closings, suspensions, and the order of everything are free. */
  predicate Asks(action: Action, from: string, calls: seq<Call>) {
    match action
    case Start(i, task) => TaskAsks(i, task, from, calls)
    case Adjust(number, amount) => number == from ==> amount >= 0.0
    case _ => true
  }

  predicate AllAsk(trace: seq<Action>, from: string, calls: seq<Call>) {
    forall k :: 0 <= k < |trace| ==> Asks(trace[k], from, calls)
  }

  /** The requests that are past their commit. */
  function Paid(jobs: map<nat, Job>): set<nat> {
    set i | i in jobs && (jobs[i].pc == Done || jobs[i].pc == Threw)
  }

  /** What is there covers what is outstanding, but for what the opening balance lacks of the demand. */
  ghost predicate DemandInv(w: World, from: string, calls: seq<Call>, balance: real) {
    && from in w.accounts
    && w.accounts[from].balance - Outstanding(Paid(w.jobs), Amounts(calls), |calls|) >=
       balance - Demand(Amounts(calls), |calls|)
    && forall i :: i in w.jobs ==> TaskAsks(i, w.jobs[i].task, from, calls)
  }

  /** What a transfer moves into the account k (out of it, if negative). */
  function Move(from: string, to: string, amount: real, k: string): real {
    (if to == k then amount else 0.0) - (if from == k then amount else 0.0)
  }

  /** What a commit does to one account. */
  lemma CommitOn(accounts: Accounts, job: Job, reply: Reply, k: string)
    requires k in accounts && job.pc == Commit && reply != Lost
    ensures var after := NextAccounts(accounts, job, reply);
            && k in after
            && after[k].balance == accounts[k].balance +
               match job.task
               case Close(_) => 0.0
               case Transfer(from, to, amount) =>
                 if from in accounts && to in accounts
                 then Move(from, to, amount, k) else 0.0
  {
  }

  lemma ProceedKeepsDemand(w: World, i: nat, reply: Reply, from: string, calls: seq<Call>, balance: real)
    requires DemandInv(w, from, calls, balance)
    ensures DemandInv(StepWorld(w, Proceed(i, reply)), from, calls, balance)
  {
    if i in w.jobs {
      var job, job' := w.jobs[i], NextJob(w.accounts, w.jobs[i], reply);
      assert TaskAsks(i, job.task, from, calls);
      var jobs' := w.jobs[i := job'];
      PayOne(Paid(w.jobs), i, Amounts(calls), |calls|);
      assert Paid(jobs') == Paid(w.jobs) || Paid(jobs') == Paid(w.jobs) + {i};
      if job.pc == Commit && reply != Lost {
        CommitOn(w.accounts, job, reply, from);
        assert i in Paid(jobs') && i !in Paid(w.jobs);
      }
    }
  }

  lemma OthersKeepDemand(w: World, action: Action, from: string, calls: seq<Call>, balance: real)
    requires DemandInv(w, from, calls, balance) && Asks(action, from, calls) && !action.Proceed?
    ensures DemandInv(StepWorld(w, action), from, calls, balance)
  {
    match action
    case Start(i, task) => assert Paid(StepWorld(w, action).jobs) == Paid(w.jobs);
    case _ =>
  }

  /** On every trace the account keeps what the opening balance has beyond the demand. */
  lemma {:induction false} DemandAlways(opening: Accounts, trace: seq<Action>, from: string, calls: seq<Call>, w: World)
    requires w == Exec(opening, trace) && AllAsk(trace, from, calls) && from in opening
    ensures DemandInv(w, from, calls, opening[from].balance)
    decreases |trace|
  {
    if trace == [] {
      assert Paid(w.jobs) == {};
      AllOutstanding(Amounts(calls), |calls|);
    } else {
      var before, action := trace[..|trace| - 1], trace[|trace| - 1];
      var w0 := Exec(opening, before);
      DemandAlways(opening, before, from, calls, w0);
      assert Asks(action, from, calls);
      if action.Proceed? {
        ProceedKeepsDemand(w0, action.job, action.reply, from, calls, opening[from].balance);
      } else {
        OthersKeepDemand(w0, action, from, calls, opening[from].balance);
      }
    }
  }

  // ---- The unsafe half: all check, then some pay ----

  /** Transfers between two accounts that exist, each of which fits its sender's balance. */
  predicate Fits(opening: Accounts, calls: seq<Call>) {
    forall i :: 0 <= i < |calls| ==>
      calls[i].from in opening && calls[i].to in opening && calls[i].from != calls[i].to
      && calls[i].amount <= opening[calls[i].from].balance
  }

  /** Nothing but the requests, each by the job of its number, and closings. */
  predicate Requested(action: Action, calls: seq<Call>) {
    match action
    case Start(i, task) => task.Close? || (i < |calls| && task == TaskOf(calls[i]))
    case Proceed(_, _) => true
    case _ => false
  }

  predicate AllRequested(trace: seq<Action>, calls: seq<Call>) {
    forall k :: 0 <= k < |trace| ==> Requested(trace[k], calls)
  }

  predicate Checked(jobs: map<nat, Job>, i: nat, opening: Accounts, calls: seq<Call>)
    requires i < |calls| && Fits(opening, calls)
  {
    i in jobs && jobs[i] == Job(TaskOf(calls[i]), Commit, Some(opening[calls[i].from].balance))
  }

  lemma OneChecks(opening: Accounts, before: seq<Action>, calls: seq<Call>, n: nat) returns (trace: seq<Action>)
    requires Fits(opening, calls) && n < |calls| && AllRequested(before, calls)
    requires var w := Exec(opening, before); w.accounts == opening && n !in w.jobs
    ensures var w, w' := Exec(opening, before), Exec(opening, trace);
            Checked(w'.jobs, n, opening, calls) && w' == w.(jobs := w.jobs[n := w'.jobs[n]])
    ensures AllRequested(trace, calls)
  {
    var s, p := Start(n, TaskOf(calls[n])), Proceed(n, Ok);
    Extend(opening, before, s);
    Extend(opening, before + [s], p);
    Extend(opening, before + [s] + [p], p);
    trace := before + [s] + [p] + [p];
    var jobs: map<nat, Job> := Exec(opening, before).jobs;
    var seen := Some(opening[calls[n].from].balance);
    var a, b, c := Job(TaskOf(calls[n]), ReadFrom, None), Job(TaskOf(calls[n]), ReadTo, seen),
      Job(TaskOf(calls[n]), Commit, seen);
    assert NextJob(opening, a, Ok) == b && NextJob(opening, b, Ok) == c;
    assert jobs[n := a][n := b][n := c] == jobs[n := c];
  }

  lemma {:induction false} AllCheck(opening: Accounts, calls: seq<Call>, n: nat) returns (trace: seq<Action>)
    requires Fits(opening, calls) && n <= |calls|
    ensures AllRequested(trace, calls) && Exec(opening, trace).accounts == opening
    ensures forall i :: 0 <= i < n ==> Checked(Exec(opening, trace).jobs, i, opening, calls)
    ensures forall i :: i in Exec(opening, trace).jobs ==> i < n
  {
    if n == 0 {
      trace := [];
    } else {
      var before := AllCheck(opening, calls, n - 1);
      trace := OneChecks(opening, before, calls, n - 1);
      var w, w' := Exec(opening, before), Exec(opening, trace);
      forall i | 0 <= i < n ensures Checked(w'.jobs, i, opening, calls) {
        if i < n - 1 {
          assert Checked(w.jobs, i, opening, calls);
        }
      }
    }
  }

  /** What each request moves into the account k. */
  function Moves(calls: seq<Call>, k: string): seq<real> {
    seq(|calls|, i requires 0 <= i < |calls| => Move(calls[i].from, calls[i].to, calls[i].amount, k))
  }

  /** What those of the first n move in all. */
  function Net(those: set<nat>, moves: seq<real>, n: nat): real
    requires n <= |moves|
  {
    if n == 0 then 0.0 else Net(those, moves, n - 1) + if n - 1 in those then moves[n - 1] else 0.0
  }

  lemma OnePays(opening: Accounts, before: seq<Action>, calls: seq<Call>, k: string, i: nat)
      returns (trace: seq<Action>)
    requires Fits(opening, calls) && k in opening && i < |calls| && AllRequested(before, calls)
    requires var w := Exec(opening, before); opening.Keys <= w.accounts.Keys && Checked(w.jobs, i, opening, calls)
    ensures AllRequested(trace, calls)
    ensures var w, w' := Exec(opening, before), Exec(opening, trace);
            && opening.Keys <= w'.accounts.Keys && w'.jobs.Keys == w.jobs.Keys
            && w'.accounts[k] == w.accounts[k].(balance := w.accounts[k].balance + Moves(calls, k)[i])
            && forall j :: j in w.jobs && j != i ==> w'.jobs[j] == w.jobs[j]
  {
    var w := Exec(opening, before);
    CommitOn(w.accounts, w.jobs[i], Ok, k);
    Extend(opening, before, Proceed(i, Ok));
    trace := before + [Proceed(i, Ok)];
  }

  /** The jobs that have checked commit: those of the first n requests, in order. */
  lemma {:induction false} ThosePay(opening: Accounts, before: seq<Action>, those: set<nat>, calls: seq<Call>,
      k: string, n: nat) returns (trace: seq<Action>)
    requires Fits(opening, calls) && k in opening && n <= |calls| && AllRequested(before, calls)
    requires var w := Exec(opening, before);
             opening.Keys <= w.accounts.Keys
             && forall i :: 0 <= i < n && i in those ==> Checked(w.jobs, i, opening, calls)
    ensures AllRequested(trace, calls)
    ensures var w, w' := Exec(opening, before), Exec(opening, trace);
            && opening.Keys <= w'.accounts.Keys && w'.jobs.Keys == w.jobs.Keys
            && w'.accounts[k] == w.accounts[k].(balance := w.accounts[k].balance + Net(those, Moves(calls, k), n))
            && forall i :: i in w.jobs && !(i < n && i in those) ==> w'.jobs[i] == w.jobs[i]
  {
    if n == 0 {
      trace := before;
    } else {
      trace := ThosePay(opening, before, those, calls, k, n - 1);
      if n - 1 in those {
        assert Checked(Exec(opening, before).jobs, n - 1, opening, calls);
        trace := OnePays(opening, trace, calls, k, n - 1);
      }
    }
  }

  /** Transfers out of one account to others that exist, each of which fits its balance. */
  predicate EachFits(opening: Accounts, from: string, calls: seq<Call>) {
    from in opening && Fits(opening, calls) && forall i :: 0 <= i < |calls| ==> calls[i].from == from
  }

  lemma {:induction false} NetOfDraws(those: set<nat>, from: string, calls: seq<Call>, n: nat)
    requires n <= |calls| && forall i :: 0 <= i < |calls| ==> calls[i].from == from && calls[i].to != from
    requires forall i :: 0 <= i < |calls| ==> (i in those <==> calls[i].amount > 0.0)
    ensures Net(those, Moves(calls, from), n) == -Demand(Amounts(calls), n)
  {
    if n > 0 {
      NetOfDraws(those, from, calls, n - 1);
    }
  }

  /** All check the same balance before any of them takes from it. */
  lemma AllPay(opening: Accounts, from: string, calls: seq<Call>) returns (trace: seq<Action>)
    requires EachFits(opening, from, calls)
    ensures AllAsk(trace, from, calls)
    ensures var w := Exec(opening, trace);
            from in w.accounts && w.accounts[from].balance == opening[from].balance - Demand(Amounts(calls), |calls|)
  {
    var before := AllCheck(opening, calls, |calls|);
    var those := set i: nat | i < |calls| && calls[i].amount > 0.0;
    trace := ThosePay(opening, before, those, calls, from, |calls|);
    NetOfDraws(those, from, calls, |calls|);
    forall k | 0 <= k < |trace| ensures Asks(trace[k], from, calls) {
      assert Requested(trace[k], calls);
    }
  }

  predicate Overdrawn(accounts: Accounts, from: string) {
    from in accounts && accounts[from].balance < 0.0
  }

  /** Some interleaving of the transfers takes the account below zero. */
  ghost predicate CanOverdraw(opening: Accounts, from: string, calls: seq<Call>) {
    exists trace :: AllAsk(trace, from, calls) && Overdrawn(Exec(opening, trace).accounts, from)
  }

  /** When interleaved transfers out of one account that each fit its balance can overdraw it: exactly when their
      positive amounts add up to more than it. */
  lemma InterleavedOverdraftIff(opening: Accounts, from: string, calls: seq<Call>)
    requires EachFits(opening, from, calls)
    ensures CanOverdraw(opening, from, calls) <==> Demand(Amounts(calls), |calls|) > opening[from].balance
  {
    if Demand(Amounts(calls), |calls|) > opening[from].balance {
      var trace := AllPay(opening, from, calls);
      assert Overdrawn(Exec(opening, trace).accounts, from);
    }
    if CanOverdraw(opening, from, calls) {
      var trace :| AllAsk(trace, from, calls) && Overdrawn(Exec(opening, trace).accounts, from);
      var w := Exec(opening, trace);
      DemandAlways(opening, trace, from, calls, w);
      OutstandingIsNotNegative(Paid(w.jobs), Amounts(calls), |calls|);
    }
  }

  // ---- When a closed account has money in it ----

  /** What an action moves into an account (out of it, if negative). */
  function Effect(w: World, action: Action, k: string): real {
    match action
    case Adjust(number, amount) => if number == k && k in w.accounts then amount else 0.0
    case Proceed(i, reply) =>
      if i in w.jobs && w.jobs[i].pc == Commit && reply != Lost then
        match w.jobs[i].task
        case Close(_) => 0.0
        case Transfer(from, to, amount) =>
          if from in w.accounts && to in w.accounts
          then Move(from, to, amount, k) else 0.0
      else 0.0
    case _ => 0.0
  }

  /** The effects are all that ever changes a balance. */
  lemma EffectIsExact(w: World, action: Action, k: string)
    requires k in w.accounts
    ensures k in StepWorld(w, action).accounts
    ensures StepWorld(w, action).accounts[k].balance == w.accounts[k].balance + Effect(w, action, k)
  {
    if action.Proceed? && action.job in w.jobs && w.jobs[action.job].pc == Commit && action.reply != Lost {
      CommitOn(w.accounts, w.jobs[action.job], action.reply, k);
    }
  }

  /** What the actions of a trace from position m on move into an account. */
  function Flow(opening: Accounts, trace: seq<Action>, m: nat, k: string): real
    decreases |trace|
  {
    if m >= |trace| then 0.0 else
      var before := trace[..|trace| - 1];
      Flow(opening, before, m, k) + Effect(Exec(opening, before), trace[|trace| - 1], k)
  }

  lemma {:induction false} BalanceFlows(opening: Accounts, trace: seq<Action>, m: nat, k: string)
    requires m <= |trace| && k in Exec(opening, trace[..m]).accounts
    ensures k in Exec(opening, trace).accounts
    ensures Exec(opening, trace).accounts[k].balance ==
            Exec(opening, trace[..m]).accounts[k].balance + Flow(opening, trace, m, k)
    decreases |trace|
  {
    if m == |trace| {
      assert trace[..m] == trace;
    } else {
      var before := trace[..|trace| - 1];
      assert before[..m] == trace[..m];
      BalanceFlows(opening, before, m, k);
      EffectIsExact(Exec(opening, before), trace[|trace| - 1], k);
    }
  }

  predicate Closes(w: World, i: nat, k: string, pc: Pc) {
    i in w.jobs && w.jobs[i].task == Close(k) && w.jobs[i].pc == pc
  }

  /** At position m, job i read an account it is to close, and the balance let it go on. */
  predicate PassingRead(opening: Accounts, trace: seq<Action>, m: nat, i: nat, k: string) {
    && m < |trace| && trace[m] == Proceed(i, Ok)
    && var w := Exec(opening, trace[..m]);
       Closes(w, i, k, ReadFrom) && k in w.accounts && w.accounts[k].balance <= 0.0
  }

  ghost predicate SomePassingRead(opening: Accounts, trace: seq<Action>, i: nat, k: string) {
    exists m: nat :: PassingRead(opening, trace, m, i, k)
  }

  lemma ReadStays(opening: Accounts, trace: seq<Action>, i: nat, k: string)
    requires trace != [] && SomePassingRead(opening, trace[..|trace| - 1], i, k)
    ensures SomePassingRead(opening, trace, i, k)
  {
    var before := trace[..|trace| - 1];
    var m: nat :| PassingRead(opening, before, m, i, k);
    assert before[..m] == trace[..m];
    assert PassingRead(opening, trace, m, i, k);
  }

  /** One that is about to commit has read. */
  lemma CommitComesFromRead(w: World, action: Action, i: nat, k: string)
    requires Closes(StepWorld(w, action), i, k, Commit) && !Closes(w, i, k, Commit)
    requires forall j :: j in w.jobs && w.jobs[j].task.Close? ==> w.jobs[j].pc != ReadTo
    ensures action == Proceed(i, Ok) && Closes(w, i, k, ReadFrom) && k in w.accounts && w.accounts[k].balance <= 0.0
  {
  }

  lemma {:induction false} ClosersHaveRead(opening: Accounts, trace: seq<Action>, w: World, i: nat, k: string)
    requires w == Exec(opening, trace)
    ensures Closes(w, i, k, Commit) ==> SomePassingRead(opening, trace, i, k)
    ensures forall j :: j in w.jobs && w.jobs[j].task.Close? ==> w.jobs[j].pc != ReadTo
    decreases |trace|
  {
    if trace != [] {
      var before, action := trace[..|trace| - 1], trace[|trace| - 1];
      var w0 := Exec(opening, before);
      ClosersHaveRead(opening, before, w0, i, k);
      if Closes(w, i, k, Commit) {
        if Closes(w0, i, k, Commit) {
          ReadStays(opening, trace, i, k);
        } else {
          CommitComesFromRead(w0, action, i, k);
          assert PassingRead(opening, trace, |before|, i, k);
        }
      }
    }
  }

  predicate IsClosed(accounts: Accounts, k: string) {
    k in accounts && accounts[k].status == CLOSED
  }

  lemma ClosedByCommit(w: World, action: Action, k: string) returns (i: nat)
    requires IsClosed(StepWorld(w, action).accounts, k) && !IsClosed(w.accounts, k)
    ensures Closes(w, i, k, Commit)
  {
    i := action.job;
  }

  ghost predicate ReadBySome(opening: Accounts, trace: seq<Action>, k: string) {
    exists i: nat :: SomePassingRead(opening, trace, i, k)
  }

  /** An account that was not closed to begin with and is now was let through by some closing's read. */
  lemma {:induction false} ClosedHasBeenRead(opening: Accounts, trace: seq<Action>, w: World, k: string)
    requires w == Exec(opening, trace) && IsClosed(w.accounts, k) && !IsClosed(opening, k)
    ensures ReadBySome(opening, trace, k)
    decreases |trace|
  {
    var before, action := trace[..|trace| - 1], trace[|trace| - 1];
    var w0 := Exec(opening, before);
    if IsClosed(w0.accounts, k) {
      ClosedHasBeenRead(opening, before, w0, k);
      var i: nat :| SomePassingRead(opening, before, i, k);
      ReadStays(opening, trace, i, k);
    } else {
      var i := ClosedByCommit(w0, action, k);
      ClosersHaveRead(opening, before, w0, i, k);
      ReadStays(opening, trace, i, k);
    }
  }

  /** Since some closing's read of the account, more came in than it lacked then. */
  predicate CreditedSince(opening: Accounts, trace: seq<Action>, m: nat, i: nat, k: string) {
    && PassingRead(opening, trace, m, i, k)
    && Flow(opening, trace, m + 1, k) > -Exec(opening, trace[..m]).accounts[k].balance
  }

  ghost predicate CreditedSinceRead(opening: Accounts, trace: seq<Action>, k: string) {
    exists i: nat, m: nat :: CreditedSince(opening, trace, m, i, k)
  }

  lemma FlowSinceRead(opening: Accounts, trace: seq<Action>, m: nat, i: nat, k: string)
    requires PassingRead(opening, trace, m, i, k)
    ensures k in Exec(opening, trace).accounts
    ensures Exec(opening, trace).accounts[k].balance ==
            Exec(opening, trace[..m]).accounts[k].balance + Flow(opening, trace, m + 1, k)
  {
    assert trace[..m + 1][..m] == trace[..m];
    EffectIsExact(Exec(opening, trace[..m]), trace[m], k);
    BalanceFlows(opening, trace, m + 1, k);
  }

  /** On every trace: an account is CLOSED with money in it exactly if it is CLOSED and more came in since some
      closing's read than it lacked then, be it before that closing's write or at any time after. */
  lemma ClosedWithMoneyIff(opening: Accounts, trace: seq<Action>, k: string)
    requires !IsClosed(opening, k) && IsClosed(Exec(opening, trace).accounts, k)
    ensures Exec(opening, trace).accounts[k].balance > 0.0 <==> CreditedSinceRead(opening, trace, k)
  {
    ClosedHasBeenRead(opening, trace, Exec(opening, trace), k);
    var i: nat :| SomePassingRead(opening, trace, i, k);
    var m: nat :| PassingRead(opening, trace, m, i, k);
    MoneyIsCredit(opening, trace, m, i, k);
    if j: nat, n: nat :| CreditedSince(opening, trace, n, j, k) {
      MoneyIsCredit(opening, trace, n, j, k);
    }
  }

  lemma MoneyIsCredit(opening: Accounts, trace: seq<Action>, m: nat, i: nat, k: string)
    requires PassingRead(opening, trace, m, i, k)
    ensures k in Exec(opening, trace).accounts
    ensures Exec(opening, trace).accounts[k].balance > 0.0 <==> CreditedSince(opening, trace, m, i, k)
  {
    FlowSinceRead(opening, trace, m, i, k);
  }

  /** No action from position m on credits the account. */
  ghost predicate NoCredit(opening: Accounts, trace: seq<Action>, m: nat, k: string) {
    forall n :: m <= n < |trace| ==> Effect(Exec(opening, trace[..n]), trace[n], k) <= 0.0
  }

  lemma {:induction false} NoCreditNoFlow(opening: Accounts, trace: seq<Action>, m: nat, k: string)
    requires NoCredit(opening, trace, m, k)
    ensures Flow(opening, trace, m, k) <= 0.0
    decreases |trace|
  {
    if m < |trace| {
      var n := |trace| - 1;
      forall j | m <= j < n ensures Effect(Exec(opening, trace[..n][..j]), trace[..n][j], k) <= 0.0 {
        assert trace[..n][..j] == trace[..j] && trace[..n][j] == trace[j];
      }
      NoCreditNoFlow(opening, trace[..n], m, k);
      assert trace[..n] == trace[..|trace| - 1];
    }
  }

  /** A closing whose account is not credited from its read on leaves no money in it, now or later. */
  lemma QuietCloseLeavesNoMoney(opening: Accounts, trace: seq<Action>, m: nat, i: nat, k: string)
    requires PassingRead(opening, trace, m, i, k) && NoCredit(opening, trace, m + 1, k)
    ensures k in Exec(opening, trace).accounts && Exec(opening, trace).accounts[k].balance <= 0.0
  {
    NoCreditNoFlow(opening, trace, m + 1, k);
    FlowSinceRead(opening, trace, m, i, k);
  }

  // ---- Which requests can leave money in a closed account ----

  /** What is asked of the account k: the transfers into and out of it are the requests, each by the job of its number,
      and nothing adjusts its balance. Closings, suspensions, other accounts' calls, faults and the order of everything
      are free. */
  predicate AsksOf(action: Action, k: string, calls: seq<Call>) {
    match action
    case Start(i, task) => Touches(task, k) ==> i < |calls| && task == TaskOf(calls[i])
    case Adjust(number, _) => number != k
    case _ => true
  }

  predicate Touches(task: Task, k: string) {
    task.Transfer? && task.from != task.to && (task.from == k || task.to == k)
  }

  predicate AllAskOf(trace: seq<Action>, k: string, calls: seq<Call>) {
    forall n :: 0 <= n < |trace| ==> AsksOf(trace[n], k, calls)
  }

  /** The requests that a trace has carried out. */
  function Committed(opening: Accounts, trace: seq<Action>, calls: seq<Call>): set<nat> {
    if trace == [] then {} else
      var before, action := trace[..|trace| - 1], trace[|trace| - 1];
      Committed(opening, before, calls) + if Commits(Exec(opening, before), action, calls) then {action.job} else {}
  }

  predicate Commits(w: World, action: Action, calls: seq<Call>) {
    && action.Proceed? && action.reply != Lost && action.job in w.jobs && w.jobs[action.job].pc == Commit
    && action.job < |calls| && w.jobs[action.job].task == TaskOf(calls[action.job])
    && calls[action.job].from in w.accounts && calls[action.job].to in w.accounts
  }

  lemma {:induction false} NetOneMore(those: set<nat>, i: nat, moves: seq<real>, n: nat)
    requires n <= |moves|
    ensures Net(those + {i}, moves, n) == Net(those, moves, n) + if i < n && i !in those then moves[i] else 0.0
  {
    if n > 0 {
      NetOneMore(those, i, moves, n - 1);
    }
  }

  lemma {:induction false} NetOfNone(moves: seq<real>, n: nat)
    requires n <= |moves|
    ensures Net({}, moves, n) == 0.0
  {
    if n > 0 {
      NetOfNone(moves, n - 1);
    }
  }

  /** The balance is the opening one and what the carried out requests moved; each was carried out once. */
  ghost predicate RequestsInv(w: World, done: set<nat>, k: string, calls: seq<Call>, balance: real) {
    && k in w.accounts && w.accounts[k].balance == balance + Net(done, Moves(calls, k), |calls|)
    && (forall i :: i in w.jobs && Touches(w.jobs[i].task, k) ==> i < |calls| && w.jobs[i].task == TaskOf(calls[i]))
    && forall i :: i in done ==> i in Paid(w.jobs)
  }

  lemma StepKeepsRequests(w: World, action: Action, done: set<nat>, k: string, calls: seq<Call>, balance: real)
    requires RequestsInv(w, done, k, calls, balance) && AsksOf(action, k, calls)
    ensures RequestsInv(StepWorld(w, action), done + if Commits(w, action, calls) then {action.job} else {}, k, calls,
                        balance)
  {
    EffectIsExact(w, action, k);
    if Commits(w, action, calls) {
      NetOneMore(done, action.job, Moves(calls, k), |calls|);
    } else {
      assert done + {} == done;
    }
  }

  lemma {:induction false} RequestsAlways(opening: Accounts, trace: seq<Action>, k: string, calls: seq<Call>, w: World)
    requires w == Exec(opening, trace) && AllAskOf(trace, k, calls) && k in opening
    ensures RequestsInv(w, Committed(opening, trace, calls), k, calls, opening[k].balance)
    decreases |trace|
  {
    if trace == [] {
      NetOfNone(Moves(calls, k), |calls|);
    } else {
      var before, action := trace[..|trace| - 1], trace[|trace| - 1];
      var w0 := Exec(opening, before);
      RequestsAlways(opening, before, k, calls, w0);
      assert AsksOf(action, k, calls);
      StepKeepsRequests(w0, action, Committed(opening, before, calls), k, calls, opening[k].balance);
    }
  }

  lemma {:induction false} CommittedStays(opening: Accounts, trace: seq<Action>, m: nat, calls: seq<Call>)
    requires m <= |trace|
    ensures Committed(opening, trace[..m], calls) <= Committed(opening, trace, calls)
    decreases |trace|
  {
    if m == |trace| {
      assert trace[..m] == trace;
    } else {
      var before := trace[..|trace| - 1];
      assert before[..m] == trace[..m];
      CommittedStays(opening, before, m, calls);
    }
  }

  /** More requests add at most what the positive moves among them are. */
  lemma {:induction false} NetGrows(some: set<nat>, more: set<nat>, moves: seq<real>, n: nat)
    requires n <= |moves| && some <= more
    ensures Net(more, moves, n) <= Net(some, moves, n) + Outstanding(some, moves, n)
  {
    if n > 0 {
      NetGrows(some, more, moves, n - 1);
    }
  }

  lemma {:induction false} NetOfRest(some: set<nat>, rest: set<nat>, moves: seq<real>, n: nat)
    requires n <= |moves|
    requires forall i :: 0 <= i < |moves| ==> (i in rest <==> i !in some && moves[i] > 0.0)
    ensures Net(rest, moves, n) == Outstanding(some, moves, n)
  {
    if n > 0 {
      NetOfRest(some, rest, moves, n - 1);
    }
  }

  predicate ClosedAbove(accounts: Accounts, k: string) {
    IsClosed(accounts, k) && accounts[k].balance > 0.0
  }

  /** Some interleaving of the requests and closings leaves the account CLOSED with money in it. */
  ghost predicate CanCloseWithMoney(opening: Accounts, k: string, calls: seq<Call>) {
    exists trace :: AllAskOf(trace, k, calls) && ClosedAbove(Exec(opening, trace).accounts, k)
  }

  /** These requests empty the account, and those of the rest that give fill it again. */
  predicate EmptiedThenFilled(balance: real, those: set<nat>, moves: seq<real>) {
    var low := balance + Net(those, moves, |moves|);
    low <= 0.0 && low + Outstanding(those, moves, |moves|) > 0.0
  }

  /** Starts and finishes a closing of an account without money. */
  lemma OneCloses(opening: Accounts, before: seq<Action>, calls: seq<Call>, k: string, c: nat)
      returns (trace: seq<Action>)
    requires AllRequested(before, calls)
    requires var w := Exec(opening, before); c !in w.jobs && k in w.accounts && w.accounts[k].balance <= 0.0
    ensures AllRequested(trace, calls)
    ensures var w, w' := Exec(opening, before), Exec(opening, trace);
            && w'.accounts == WithStatus(w.accounts, k, CLOSED)
            && forall i :: i in w.jobs ==> i in w'.jobs && w'.jobs[i] == w.jobs[i]
  {
    var s, p := Start(c, Close(k)), Proceed(c, Ok);
    Extend(opening, before, s);
    Extend(opening, before + [s], p);
    Extend(opening, before + [s] + [p], p);
    trace := before + [s] + [p] + [p];
    var w := Exec(opening, before);
    var a, b := Job(Close(k), ReadFrom, None), Job(Close(k), Commit, Some(w.accounts[k].balance));
    assert NextJob(w.accounts, a, Ok) == b;
    assert Exec(opening, before + [s] + [p]).jobs[c] == b;
  }

  /** All check; those of the set pay; a closing reads and writes; and the rest that give pay. */
  lemma FillAfterClosing(opening: Accounts, k: string, calls: seq<Call>, those: set<nat>) returns (trace: seq<Action>)
    requires Fits(opening, calls) && k in opening
    requires EmptiedThenFilled(opening[k].balance, those, Moves(calls, k))
    ensures AllRequested(trace, calls) && ClosedAbove(Exec(opening, trace).accounts, k)
  {
    var moves := Moves(calls, k);
    var rest := set i: nat | i < |calls| && i !in those && moves[i] > 0.0;
    var t0 := AllCheck(opening, calls, |calls|);
    var t1 := ThosePay(opening, t0, those, calls, k, |calls|);
    var t2 := OneCloses(opening, t1, calls, k, |calls|);
    forall i | 0 <= i < |calls| && i in rest ensures Checked(Exec(opening, t2).jobs, i, opening, calls) {
      assert Checked(Exec(opening, t0).jobs, i, opening, calls);
    }
    trace := ThosePay(opening, t2, rest, calls, k, |calls|);
    NetOfRest(those, rest, moves, |calls|);
  }

  /** Which sets of transfers into and out of an account, each of which fits its sender's balance, can leave it CLOSED
      with money in it when they interleave with closings: exactly those of which some part takes the balance to zero
      or below, and the gifts among the rest bring it above zero again. */
  lemma CanCloseWithMoneyIff(opening: Accounts, k: string, calls: seq<Call>)
    requires Fits(opening, calls) && k in opening && !IsClosed(opening, k)
    ensures CanCloseWithMoney(opening, k, calls) <==>
              exists those: set<nat> :: EmptiedThenFilled(opening[k].balance, those, Moves(calls, k))
  {
    var moves, balance := Moves(calls, k), opening[k].balance;
    if those: set<nat> :| EmptiedThenFilled(balance, those, moves) {
      var trace := FillAfterClosing(opening, k, calls, those);
      forall n | 0 <= n < |trace| ensures AsksOf(trace[n], k, calls) {
        assert Requested(trace[n], calls);
      }
    }
    if CanCloseWithMoney(opening, k, calls) {
      var trace :| AllAskOf(trace, k, calls) && ClosedAbove(Exec(opening, trace).accounts, k);
      var m := ReadBelow(opening, trace, k);
      var those, more := Committed(opening, trace[..m], calls), Committed(opening, trace, calls);
      RequestsAlways(opening, trace, k, calls, Exec(opening, trace));
      RequestsAlways(opening, trace[..m], k, calls, Exec(opening, trace[..m]));
      CommittedStays(opening, trace, m, calls);
      NetGrows(those, more, moves, |calls|);
      assert EmptiedThenFilled(balance, those, moves);
    }
  }

  lemma ReadBelow(opening: Accounts, trace: seq<Action>, k: string) returns (m: nat)
    requires IsClosed(Exec(opening, trace).accounts, k) && !IsClosed(opening, k)
    ensures m <= |trace| && k in Exec(opening, trace[..m]).accounts
    ensures Exec(opening, trace[..m]).accounts[k].balance <= 0.0
  {
    ClosedHasBeenRead(opening, trace, Exec(opening, trace), k);
    var i: nat :| SomePassingRead(opening, trace, i, k);
    m :| PassingRead(opening, trace, m, i, k);
  }

  /** Where the requests only give: exactly if the account has no money to begin with and they bring some. */
  lemma GiftsCloseWithMoneyIff(opening: Accounts, k: string, calls: seq<Call>)
    requires Fits(opening, calls) && k in opening && !IsClosed(opening, k)
    requires forall i :: 0 <= i < |calls| ==> Moves(calls, k)[i] >= 0.0
    ensures CanCloseWithMoney(opening, k, calls) <==>
              opening[k].balance <= 0.0 && opening[k].balance + Demand(Moves(calls, k), |calls|) > 0.0
  {
    var moves := Moves(calls, k);
    CanCloseWithMoneyIff(opening, k, calls);
    NetOfNone(moves, |calls|);
    AllOutstanding(moves, |calls|);
    assert EmptiedThenFilled(opening[k].balance, {}, moves) <==>
             opening[k].balance <= 0.0 && opening[k].balance + Demand(moves, |calls|) > 0.0;
    if those: set<nat> :| EmptiedThenFilled(opening[k].balance, those, moves) {
      NetOfGifts(those, moves, |calls|);
    }
  }

  lemma {:induction false} NetOfGifts(those: set<nat>, moves: seq<real>, n: nat)
    requires n <= |moves| && forall i :: 0 <= i < |moves| ==> moves[i] >= 0.0
    ensures Net(those, moves, n) >= 0.0
    ensures Net(those, moves, n) + Outstanding(those, moves, n) == Demand(moves, n)
  {
    if n > 0 {
      NetOfGifts(those, moves, n - 1);
    }
  }

  // ---- Both ways are reached ----

  /** A credit between the closing's read and its write. */
  lemma ClosedWithMoney(number: string, amount: real)
    ensures exists trace :: var w := Exec(map[number := Account(0.0, ACTIVE)], trace);
              number in w.accounts && w.accounts[number] == Account(amount, CLOSED)
  {
    var opening: Accounts := map[number := Account(0.0, ACTIVE)];
    var s, p, m := Start(0, Close(number)), Proceed(0, Ok), Adjust(number, amount);
    Extend(opening, [], s);
    Extend(opening, [] + [s], p);
    Extend(opening, [] + [s] + [p], m);
    Extend(opening, [] + [s] + [p] + [m], p);
    var w2 := Exec(opening, [] + [s] + [p]);
    assert w2.jobs[0].pc == Commit && w2.accounts == opening;
    var w3 := Exec(opening, [] + [s] + [p] + [m]);
    assert w3.accounts[number] == Account(amount, ACTIVE);
    assert Exec(opening, [] + [s] + [p] + [m] + [p]).accounts[number] == Account(amount, CLOSED);
  }

  /** And, with nothing interleaved at all, a transfer into an account already closed: it goes through as if the account
      were open, because no call looks at a status. */
  lemma TransferIntoClosed(accounts: Accounts, from: string, to: string, amount: real)
    requires from != to && from in accounts && IsClosed(accounts, to) && amount <= accounts[from].balance
    ensures var (after, ok) := TransferAlone(accounts, from, to, amount);
            ok && IsClosed(after, to) && after[to].balance == accounts[to].balance + amount
  {
  }

  /** The answer and the balances of a transfer do not depend on any status. */
  lemma StatusIsIgnored(a: Accounts, b: Accounts, from: string, to: string, amount: real)
    requires a.Keys == b.Keys && forall k :: k in a ==> a[k].balance == b[k].balance
    ensures TransferAlone(a, from, to, amount).1 == TransferAlone(b, from, to, amount).1
    ensures forall k :: k in a ==>
              TransferAlone(a, from, to, amount).0[k].balance == TransferAlone(b, from, to, amount).0[k].balance
  {
  }
}
