/** Invoice numbering (invoice.service.ts): INV-<year><month>-<sequence>, the sequence being one more than the number of
    invoices whose number starts with INV-<year><month>. */
module Invoices {
  import opened Decimals

  /** Year and month come from two readings of the clock, so any pair can occur. */
  datatype Date = Date(year: nat, month: Month)

  type Month = m: nat | 1 <= m <= 12 witness 1

  function Token(d: Date): string {
    ToString(d.year) + PadStart(ToString(d.month), 2)
  }

  function Prefix(token: string): string {
    "INV-" + token
  }

  function Number(token: string, sequence: nat): string {
    Prefix(token) + "-" + PadStart(ToString(sequence), 5)
  }

  /** `startsWith`, counted. */
  function Count(numbers: seq<string>, prefix: string): nat {
    if numbers == [] then 0 else
      Count(numbers[..|numbers| - 1], prefix) + if prefix <= numbers[|numbers| - 1] then 1 else 0
  }

  function NextSequence(numbers: seq<string>, d: Date): nat {
    Count(numbers, Prefix(Token(d))) + 1
  }

  /** The numbers issued by a serial run of createInvoice at the given dates. */
  function Issued(dates: seq<Date>): seq<string> {
    if dates == [] then [] else
      var before, d := Issued(dates[..|dates| - 1]), dates[|dates| - 1];
      before + [Number(Token(d), NextSequence(before, d))]
  }

  /** The sequence given to the k-th invoice. */
  function SequenceOf(dates: seq<Date>, k: nat): nat
    requires k < |dates|
  {
    NextSequence(Issued(dates[..k]), dates[k])
  }

  lemma {:induction false} IssuedLength(dates: seq<Date>)
    ensures |Issued(dates)| == |dates|
  {
    if dates != [] {
      IssuedLength(dates[..|dates| - 1]);
    }
  }

  /** What was issued stays issued. */
  lemma {:induction false} IssuedPrefix(dates: seq<Date>, k: nat)
    requires k <= |dates|
    ensures |Issued(dates)| == |dates| && Issued(dates)[..k] == Issued(dates[..k])
    decreases |dates|
  {
    IssuedLength(dates);
    if k < |dates| {
      var before := dates[..|dates| - 1];
      IssuedPrefix(before, k);
      assert before[..k] == dates[..k];
    } else {
      assert dates[..k] == dates;
    }
  }

  lemma {:induction false} IssuedAt(dates: seq<Date>, k: nat)
    requires k < |dates|
    ensures |Issued(dates)| == |dates|
    ensures Issued(dates)[k] == Number(Token(dates[k]), SequenceOf(dates, k))
    ensures Issued(dates)[..k] == Issued(dates[..k])
  {
    IssuedPrefix(dates, k);
    IssuedPrefix(dates, k + 1);
    IssuedLength(dates[..k]);
    assert dates[..k + 1][..k] == dates[..k];
    assert Issued(dates)[k] == Issued(dates)[..k + 1][k];
  }

  // ---- Reading a number back ----

  lemma TokenIsDigits(d: Date)
    ensures IsDigits(Token(d)) && |Token(d)| == |ToString(d.year)| + 2
  {
    PaddedRoundTrip(d.month, 2);
    assert ToString(d.month / 10) == [Digit(d.month / 10)];
  }

  /** Different months have different tokens. */
  lemma TokenInjective(d: Date, e: Date)
    requires Token(d) == Token(e)
    ensures d == e
  {
    TokenIsDigits(d);
    TokenIsDigits(e);
    var n := |ToString(d.year)|;
    assert ToString(d.year) == Token(d)[..n] && PadStart(ToString(d.month), 2) == Token(d)[n..];
    assert ToString(e.year) == Token(e)[..n] && PadStart(ToString(e.month), 2) == Token(e)[n..];
    ValueOfToString(d.year);
    ValueOfToString(e.year);
    PaddedRoundTrip(d.month, 2);
    PaddedRoundTrip(e.month, 2);
  }

  /** The hyphen ends the token: two numbers are equal only if tokens and sequences are. */
  lemma NumberInjective(t: string, m: nat, u: string, n: nat)
    requires IsDigits(t) && IsDigits(u) && Number(t, m) == Number(u, n)
    ensures t == u && m == n
  {
    var a, b := Number(t, m), Number(u, n);
    NumberChars(t, m);
    NumberChars(u, n);
    assert a[4 + |t|] == '-' && b[4 + |u|] == '-';
    assert t == u;
    assert PadStart(ToString(m), 5) == PadStart(ToString(n), 5);
    PaddedRoundTrip(m, 5);
    PaddedRoundTrip(n, 5);
  }

  lemma NumberChars(t: string, m: nat)
    ensures var a := Number(t, m);
            && |a| == 5 + |t| + |PadStart(ToString(m), 5)|
            && a[4..4 + |t|] == t && a[4 + |t|] == '-' && a[5 + |t|..] == PadStart(ToString(m), 5)
  {
  }

  /** A number read from left to right: INV-, the year, two digits of the month, a hyphen, and the sequence in five
      digits, or in more without a leading zero once five do not hold it. */
  lemma NumberReads(d: Date, n: nat) returns (year: string, month: string, sequence: string)
    ensures Number(Token(d), n) == "INV-" + year + month + "-" + sequence
    ensures IsDigits(year) && IsDigits(month) && IsDigits(sequence)
    ensures Value(year) == d.year && year != "" && (year[0] == '0' ==> d.year == 0)
    ensures Value(month) == d.month && |month| == 2
    ensures Value(sequence) == n && |sequence| >= 5 && (|sequence| > 5 ==> sequence[0] != '0')
  {
    year, month, sequence := ToString(d.year), PadStart(ToString(d.month), 2), PadStart(ToString(n), 5);
    ValueOfToString(d.year);
    PaddedRoundTrip(d.month, 2);
    PaddedRoundTrip(n, 5);
    TokenIsDigits(d);
    NoLeadingZero(d.year);
    NoLeadingZero(n);
    assert Prefix(Token(d)) == "INV-" + year + month;
  }

  lemma {:induction false} NoLeadingZero(n: nat)
    ensures ToString(n)[0] == '0' ==> n == 0
  {
    if n >= 10 {
      NoLeadingZero(n / 10);
    }
  }

  /** startsWith looks at the token alone. */
  lemma StartsWithToken(t: string, u: string, n: nat)
    requires IsDigits(t) && IsDigits(u)
    ensures Prefix(t) <= Number(u, n) <==> t <= u
  {
    var b := Number(u, n);
    NumberChars(u, n);
    assert |t| <= |u| ==> b[..4 + |t|] == Prefix(u[..|t|]);
    if Prefix(t) <= b {
      assert b[..4 + |t|] == Prefix(t);
      if |t| <= |u| {
        assert u[..|t|] == Prefix(u[..|t|])[4..] == Prefix(t)[4..] == t;
      }
    }
  }

  // ---- Uniqueness ----

  lemma {:induction false} CountGrows(numbers: seq<string>, k: nat, prefix: string)
    requires k < |numbers| && prefix <= numbers[k]
    ensures Count(numbers, prefix) > Count(numbers[..k], prefix)
    decreases |numbers|
  {
    if k < |numbers| - 1 {
      CountGrows(numbers[..|numbers| - 1], k, prefix);
      assert numbers[..|numbers| - 1][..k] == numbers[..k];
    }
  }

  /** Within one month, sequences grow. */
  lemma LaterIsLarger(dates: seq<Date>, j: nat, k: nat)
    requires j < k < |dates| && dates[j] == dates[k]
    ensures SequenceOf(dates, j) < SequenceOf(dates, k)
  {
    var t := Token(dates[k]);
    var before := Issued(dates[..k]);
    assert dates[..k][..j] == dates[..j];
    IssuedAt(dates[..k], j);
    TokenIsDigits(dates[j]);
    StartsWithToken(t, t, SequenceOf(dates, j));
    CountGrows(before, j, Prefix(t));
  }

  /** No two invoices ever get the same number, whatever the dates and however many: also past 99999, where padding
      stops, and when the count took in invoices of another month. */
  lemma NumbersAreUnique(dates: seq<Date>, j: nat, k: nat)
    requires j < k < |dates|
    ensures |Issued(dates)| == |dates| && Issued(dates)[j] != Issued(dates)[k]
  {
    IssuedAt(dates, j);
    IssuedAt(dates, k);
    TokenIsDigits(dates[j]);
    TokenIsDigits(dates[k]);
    if dates[j] == dates[k] {
      LaterIsLarger(dates, j, k);
    }
    if Issued(dates)[j] == Issued(dates)[k] {
      NumberInjective(Token(dates[j]), SequenceOf(dates, j), Token(dates[k]), SequenceOf(dates, k));
      TokenInjective(dates[j], dates[k]);
    }
  }

  // ---- Gaplessness ----

  /** How many of the dates have a token that starts with t. */
  function Counted(dates: seq<Date>, t: string): nat {
    if dates == [] then 0 else
      Counted(dates[..|dates| - 1], t) + if t <= Token(dates[|dates| - 1]) then 1 else 0
  }

  function OfToken(dates: seq<Date>, t: string): nat {
    if dates == [] then 0 else
      OfToken(dates[..|dates| - 1], t) + if t == Token(dates[|dates| - 1]) then 1 else 0
  }

  lemma {:induction false} CountIsCounted(dates: seq<Date>, t: string)
    requires IsDigits(t)
    ensures Count(Issued(dates), Prefix(t)) == Counted(dates, t)
    decreases |dates|
  {
    if dates != [] {
      var before, d := dates[..|dates| - 1], dates[|dates| - 1];
      CountIsCounted(before, t);
      TokenIsDigits(d);
      StartsWithToken(t, Token(d), NextSequence(Issued(before), d));
      assert Issued(dates)[..|Issued(dates)| - 1] == Issued(before);
    }
  }

  /** The k-th invoice continues its own month without a gap: its sequence is one more than the invoices of that month
      so far. */
  predicate InSequence(dates: seq<Date>, k: nat)
    requires k < |dates|
  {
    SequenceOf(dates, k) == OfToken(dates[..k], Token(dates[k])) + 1
  }

  /** A month whose token extends t by further digits. */
  predicate Extends(d: Date, t: string) {
    t <= Token(d) && t != Token(d)
  }

  lemma {:induction false} CountedIfNoneExtends(dates: seq<Date>, t: string)
    ensures Counted(dates, t) >= OfToken(dates, t)
    ensures (forall j :: 0 <= j < |dates| ==> !Extends(dates[j], t)) ==> Counted(dates, t) == OfToken(dates, t)
    decreases |dates|
  {
    if dates != [] {
      CountedIfNoneExtends(dates[..|dates| - 1], t);
    }
  }

  lemma {:induction false} CountedMoreIfOneExtends(dates: seq<Date>, t: string, j: nat)
    requires j < |dates| && Extends(dates[j], t)
    ensures Counted(dates, t) > OfToken(dates, t)
    decreases |dates|
  {
    var before := dates[..|dates| - 1];
    if j < |before| {
      CountedMoreIfOneExtends(before, t, j);
    } else {
      CountedIfNoneExtends(before, t);
    }
  }

  lemma CountedVersusOwn(dates: seq<Date>, t: string)
    ensures Counted(dates, t) == OfToken(dates, t) <==> forall j :: 0 <= j < |dates| ==> !Extends(dates[j], t)
  {
    CountedIfNoneExtends(dates, t);
    if j: nat :| j < |dates| && Extends(dates[j], t) {
      CountedMoreIfOneExtends(dates, t, j);
    }
  }

  /** An invoice continues its month's sequence exactly if no invoice before it bears a token that extends its own. */
  lemma InSequenceIff(dates: seq<Date>, k: nat)
    requires k < |dates|
    ensures InSequence(dates, k) <==> forall j :: 0 <= j < k ==> !Extends(dates[j], Token(dates[k]))
  {
    var t := Token(dates[k]);
    TokenIsDigits(dates[k]);
    CountIsCounted(dates[..k], t);
    CountedVersusOwn(dates[..k], t);
    assert forall j :: 0 <= j < k ==> dates[..k][j] == dates[j];
  }

  /** A token can extend another only if its year has more digits. */
  lemma ExtendsNeedsLongerYear(d: Date, e: Date)
    requires Extends(d, Token(e))
    ensures |ToString(d.year)| > |ToString(e.year)| && d.year > e.year
  {
    TokenIsDigits(d);
    TokenIsDigits(e);
    if d.year <= e.year {
      LongerIsLarger(d.year, e.year);
    }
  }

  /** While the clock is not set back across a year, every invoice continues its month's sequence, in every year: it is
      enough that no invoice before it bears a later year. The year and the month may come from different sides of a
      month's end. */
  lemma GaplessWhileYearsNeverDecrease(dates: seq<Date>, k: nat)
    requires k < |dates| && forall j :: 0 <= j < k ==> dates[j].year <= dates[k].year
    ensures InSequence(dates, k)
  {
    forall j | 0 <= j < k ensures !Extends(dates[j], Token(dates[k])) {
      if Extends(dates[j], Token(dates[k])) {
        ExtendsNeedsLongerYear(dates[j], dates[k]);
      }
    }
    InSequenceIff(dates, k);
  }

  /** Counting a month's invoices one by one passes every number up to the total. */
  lemma {:induction false} EveryCountIsPassed(dates: seq<Date>, t: string, m: nat) returns (k: nat)
    requires 1 <= m <= OfToken(dates, t)
    ensures k < |dates| && Token(dates[k]) == t && OfToken(dates[..k], t) == m - 1
    decreases |dates|
  {
    var n := |dates| - 1;
    if m == OfToken(dates, t) && Token(dates[n]) == t {
      k := n;
    } else {
      k := EveryCountIsPassed(dates[..n], t, m);
      assert dates[..n][..k] == dates[..k];
    }
  }

  lemma {:induction false} CountPassesEachInvoice(dates: seq<Date>, t: string, k: nat)
    requires k < |dates| && Token(dates[k]) == t
    ensures OfToken(dates[..k], t) < OfToken(dates, t)
    decreases |dates|
  {
    var before := dates[..|dates| - 1];
    if k < |before| {
      CountPassesEachInvoice(before, t, k);
      assert before[..k] == dates[..k];
    }
  }

  ghost predicate SomeInvoiceHas(dates: seq<Date>, d: Date, m: nat) {
    exists k :: 0 <= k < |dates| && dates[k] == d && SequenceOf(dates, k) == m
  }

  /** Gapless: in a serial run in which no invoice comes after one whose token extends its own, the sequences issued
      under one month are exactly 1 to the number of that month's invoices, each once. */
  lemma GaplessUnlessExtended(dates: seq<Date>, d: Date, m: nat)
    requires forall i, j :: 0 <= i < j < |dates| ==> !Extends(dates[i], Token(dates[j]))
    ensures SomeInvoiceHas(dates, d, m) <==> 1 <= m <= OfToken(dates, Token(d))
    ensures forall j, k :: 0 <= j < k < |dates| && dates[j] == d && dates[k] == d ==>
              SequenceOf(dates, j) != SequenceOf(dates, k)
  {
    if 1 <= m <= OfToken(dates, Token(d)) {
      var k := EveryCountIsPassed(dates, Token(d), m);
      TokenInjective(dates[k], d);
      InSequenceIff(dates, k);
      assert InSequence(dates, k);
    }
    if k: nat :| k < |dates| && dates[k] == d && SequenceOf(dates, k) == m {
      InSequenceIff(dates, k);
      assert InSequence(dates, k);
      CountPassesEachInvoice(dates, Token(d), k);
    }
    forall j, k | 0 <= j < k < |dates| && dates[j] == d && dates[k] == d
      ensures SequenceOf(dates, j) != SequenceOf(dates, k)
    {
      LaterIsLarger(dates, j, k);
    }
  }

  /** Above all while years never decrease. */
  lemma GaplessMonths(dates: seq<Date>, d: Date, m: nat)
    requires forall i, j :: 0 <= i < j < |dates| ==> dates[i].year <= dates[j].year
    ensures SomeInvoiceHas(dates, d, m) <==> 1 <= m <= OfToken(dates, Token(d))
    ensures forall j, k :: 0 <= j < k < |dates| && dates[j] == d && dates[k] == d ==>
              SequenceOf(dates, j) != SequenceOf(dates, k)
  {
    forall i, j | 0 <= i < j < |dates| ensures !Extends(dates[i], Token(dates[j])) {
      if Extends(dates[i], Token(dates[j])) {
        ExtendsNeedsLongerYear(dates[i], dates[j]);
      }
    }
    GaplessUnlessExtended(dates, d, m);
  }

  /** A gap shows that the clock was set back across a year: only then does some earlier invoice bear a later one. */
  lemma GapNeedsClockSetBack(dates: seq<Date>, k: nat)
    requires k < |dates| && !InSequence(dates, k)
    ensures exists j :: 0 <= j < k && dates[j].year > dates[k].year
                        && |ToString(dates[j].year)| > |ToString(dates[k].year)|
  {
    InSequenceIff(dates, k);
    var j :| 0 <= j < k && Extends(dates[j], Token(dates[k]));
    ExtendsNeedsLongerYear(dates[j], dates[k]);
  }

  /** The clock set back from October 20240 to January 2024: the first invoice of that January gets number two, because
      the counted prefix lacks the hyphen. */
  lemma PrefixCollision()
    ensures var dates := [Date(20240, 10), Date(2024, 1)]; !InSequence(dates, 1) && SequenceOf(dates, 1) == 2
  {
    var dates := [Date(20240, 10), Date(2024, 1)];
    assert ToString(20240) == ToString(2024) + [Digit(0)];
    assert ToString(10) == ToString(1) + [Digit(0)];
    assert Token(dates[0]) == ToString(2024) + [Digit(0)] + [Digit(1), Digit(0)];
    assert Token(dates[1]) == ToString(2024) + [Digit(0), Digit(1)];
    assert Extends(dates[0], Token(dates[1]));
    InSequenceIff(dates, 1);
    assert dates[..1] == [dates[0]] && dates[..1][..0] == [];
    CountIsCounted(dates[..1], Token(dates[1]));
  }

  // ---- The service ----

  datatype InvoiceStatus = DRAFT | OPEN | PAID | VOID

  datatype Invoice = Invoice(userId: string, invoiceNumber: string, amount: real, status: InvoiceStatus)

  function NumbersOf(invoices: seq<Invoice>): (numbers: seq<string>)
    ensures |numbers| == |invoices|
    ensures forall k :: 0 <= k < |invoices| ==> numbers[k] == invoices[k].invoiceNumber
  {
    if invoices == [] then [] else NumbersOf(invoices[..|invoices| - 1]) + [invoices[|invoices| - 1].invoiceNumber]
  }

  /** The number that follows the issued ones is new, and issuing it continues the run. */
  lemma {:induction false} NextIsNew(dates: seq<Date>, now: Date)
    ensures var number := Number(Token(now), NextSequence(Issued(dates), now));
            Issued(dates + [now]) == Issued(dates) + [number] && number !in Issued(dates)
  {
    var n := |dates|;
    IssuedPrefix(dates + [now], n);
    assert (dates + [now])[..n] == dates;
    forall k | 0 <= k < n ensures Issued(dates)[k] != Number(Token(now), NextSequence(Issued(dates), now)) {
      NumbersAreUnique(dates + [now], k, n);
    }
  }

  lemma {:induction false} NumbersAppend(invoices: seq<Invoice>, invoice: Invoice)
    ensures NumbersOf(invoices + [invoice]) == NumbersOf(invoices) + [invoice.invoiceNumber]
  {
    assert (invoices + [invoice])[..|invoices|] == invoices;
  }

  class InvoiceService {
    /** In the order of their creation, which here serves as the id. */
    var invoices: seq<Invoice>
    /** History: when each was created. */
    ghost var dates: seq<Date>

    ghost predicate Valid()
      reads this
    {
      NumbersOf(invoices) == Issued(dates)
    }

    constructor ()
      ensures Valid() && invoices == []
    {
      invoices, dates := [], [];
    }

    method CreateInvoice(userId: string, amount: real, now: Date) returns (invoice: Invoice)
      requires Valid()
      modifies this
      ensures Valid() && dates == old(dates) + [now]
      ensures invoices == old(invoices) + [invoice]
      ensures invoice == Invoice(userId, Number(Token(now), NextSequence(NumbersOf(old(invoices)), now)), amount, DRAFT)
      ensures forall k :: 0 <= k < |old(invoices)| ==> old(invoices)[k].invoiceNumber != invoice.invoiceNumber
    {
      var invoiceNumber := GenerateInvoiceNumber(now);
      invoice := Invoice(userId, invoiceNumber, amount, DRAFT);
      NextIsNew(dates, now);
      NumbersAppend(invoices, invoice);
      assert forall k :: 0 <= k < |invoices| ==> invoices[k].invoiceNumber in NumbersOf(invoices);
      invoices := invoices + [invoice];
      dates := dates + [now];
    }

    method GenerateInvoiceNumber(now: Date) returns (invoiceNumber: string)
      ensures invoiceNumber == Number(Token(now), NextSequence(NumbersOf(invoices), now))
    {
      var month := PadStart(ToString(now.month), 2);
      var count := Count(NumbersOf(invoices), "INV-" + (ToString(now.year) + month));
      var sequence := PadStart(ToString(count + 1), 5);
      invoiceNumber := "INV-" + (ToString(now.year) + month) + "-" + sequence;
    }

    /** Also markInvoiceAsPaid and voidInvoice: nothing renumbers an invoice or takes one away. */
    method UpdateInvoiceStatus(id: nat, status: InvoiceStatus) returns (ok: bool)
      requires Valid()
      modifies `invoices
      ensures Valid() && (ok <==> id < |old(invoices)|)
      ensures invoices == if ok then old(invoices)[id := old(invoices)[id].(status := status)] else old(invoices)
    {
      ok := id < |invoices|;
      if ok {
        ghost var was := NumbersOf(invoices);
        invoices := invoices[id := invoices[id].(status := status)];
        assert NumbersOf(invoices) == was;
      }
    }
  }
}
