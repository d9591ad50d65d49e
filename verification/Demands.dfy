/** Requests against one balance: what they can draw in all, and what of it is still to be paid. */
module Demands {

  /** Only a positive amount can be drawn. */
  function Draw(amount: real): real {
    if amount > 0.0 then amount else 0.0
  }

  /** The first n of the requested amounts. */
  function Demand(amounts: seq<real>, n: nat): real
    requires n <= |amounts|
  {
    if n == 0 then 0.0 else Demand(amounts, n - 1) + Draw(amounts[n - 1])
  }

  /** Of these, the ones not yet paid. */
  function Outstanding(paid: set<nat>, amounts: seq<real>, n: nat): real
    requires n <= |amounts|
  {
    if n == 0 then 0.0 else
      Outstanding(paid, amounts, n - 1) + if n - 1 in paid then 0.0 else Draw(amounts[n - 1])
  }

  lemma {:induction false} PayOne(paid: set<nat>, i: nat, amounts: seq<real>, n: nat)
    requires n <= |amounts|
    ensures Outstanding(paid + {i}, amounts, n) ==
            Outstanding(paid, amounts, n) - if i < n && i !in paid then Draw(amounts[i]) else 0.0
  {
    if n > 0 {
      PayOne(paid, i, amounts, n - 1);
    }
  }

  lemma {:induction false} AllOutstanding(amounts: seq<real>, n: nat)
    requires n <= |amounts|
    ensures Outstanding({}, amounts, n) == Demand(amounts, n)
  {
    if n > 0 {
      AllOutstanding(amounts, n - 1);
    }
  }

  lemma {:induction false} OutstandingIsNotNegative(paid: set<nat>, amounts: seq<real>, n: nat)
    requires n <= |amounts|
    ensures Outstanding(paid, amounts, n) >= 0.0
  {
    if n > 0 {
      OutstandingIsNotNegative(paid, amounts, n - 1);
    }
  }
}
