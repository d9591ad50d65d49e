/** Invoices created at the same time: the count and the insert are two commands, and all that stands between two calls
    that count the same is the unique index on the number. */
module InvoiceRaces {
  import opened Decimals
  import opened Invoices
  import opened SagaTypes

  /** A call of createInvoice: it has read the clock, then counted; stored says whether its invoice is. */
  datatype Creator = Dated(d: Date) | Counting(d: Date, count: nat) | Ended(stored: bool)

  /** `dates` is history: the reading of the clock behind each stored number. */
  datatype World = World(numbers: seq<string>, dates: seq<Date>, creators: map<nat, Creator>)

  datatype Action =
    | Begin(creator: nat, d: Date)
    | Tally(creator: nat, reply: Reply)
    | Insert(creator: nat, reply: Reply)

  function NumberFor(d: Date, count: nat): string {
    Number(Token(d), count + 1)
  }

  function StepWorld(w: World, action: Action): World {
    match action
    case Begin(i, d) => if i in w.creators then w else w.(creators := w.creators[i := Dated(d)])
    case Tally(i, reply) =>
      if i !in w.creators || !w.creators[i].Dated? then w else
        var d := w.creators[i].d;
        w.(creators := w.creators[i := if reply == Ok then Counting(d, Count(w.numbers, Prefix(Token(d))))
                                       else Ended(false)])
    case Insert(i, reply) =>
      if i !in w.creators || !w.creators[i].Counting? then w
      else if Stores(w, i, reply) then
        World(w.numbers + [NumberFor(w.creators[i].d, w.creators[i].count)], w.dates + [w.creators[i].d],
              w.creators[i := Ended(true)])
      else w.(creators := w.creators[i := Ended(false)])
  }

  /** The insert arrives, and the index does not refuse it. */
  predicate Stores(w: World, i: nat, reply: Reply)
    requires i in w.creators && w.creators[i].Counting?
  {
    reply != Lost && NumberFor(w.creators[i].d, w.creators[i].count) !in w.numbers
  }

  function Exec(trace: seq<Action>): World {
    if trace == [] then World([], [], map[]) else StepWorld(Exec(trace[..|trace| - 1]), trace[|trace| - 1])
  }

  /** No number is ever stored twice, in any interleaving, whatever the dates. */
  lemma {:induction false} StoredNumbersDiffer(trace: seq<Action>, j: nat, k: nat)
    requires j < k < |Exec(trace).numbers|
    ensures Exec(trace).numbers[j] != Exec(trace).numbers[k]
    decreases |trace|
  {
    var before := trace[..|trace| - 1];
    if k < |Exec(before).numbers| {
      StoredNumbersDiffer(before, j, k);
    }
  }

  // ---- Interleaved as if one at a time ----

  /** All clock readings are of these months. */
  predicate AllWithin(trace: seq<Action>, months: set<Date>) {
    forall k :: 0 <= k < |trace| && trace[k].Begin? ==> trace[k].d in months
  }

  /** No month's token starts with another's. */
  predicate NoneExtends(months: set<Date>) {
    forall d, e :: d in months && e in months ==> !Extends(d, Token(e))
  }

  /** So it is for years of one length, such as all from 1000 to 9999. */
  lemma SameLengthNeverExtends(months: set<Date>)
    requires forall d, e :: d in months && e in months ==> |ToString(d.year)| == |ToString(e.year)|
    ensures NoneExtends(months)
  {
    forall d, e | d in months && e in months ensures !Extends(d, Token(e)) {
      if Extends(d, Token(e)) {
        ExtendsNeedsLongerYear(d, e);
      }
    }
  }

  /** Then a count is the count of the month's own invoices. */
  lemma CountIsOwn(dates: seq<Date>, d: Date, months: set<Date>)
    requires NoneExtends(months) && d in months && forall j :: 0 <= j < |dates| ==> dates[j] in months
    ensures Count(Issued(dates), Prefix(Token(d))) == OfToken(dates, Token(d))
  {
    TokenIsDigits(d);
    CountIsCounted(dates, Token(d));
    CountedVersusOwn(dates, Token(d));
  }

  /** While the count is right, the number after it is the next one, and new. */
  lemma RightCountIsNext(dates: seq<Date>, d: Date, count: nat)
    requires count == Count(Issued(dates), Prefix(Token(d)))
    ensures NumberFor(d, count) !in Issued(dates)
    ensures Issued(dates + [d]) == Issued(dates) + [NumberFor(d, count)]
  {
    NextIsNew(dates, d);
    assert NextSequence(Issued(dates), d) == count + 1;
  }

  lemma StaleCountIsTaken(dates: seq<Date>, d: Date, count: nat, months: set<Date>)
    requires NoneExtends(months) && d in months && forall j :: 0 <= j < |dates| ==> dates[j] in months
    requires count < OfToken(dates, Token(d))
    ensures NumberFor(d, count) in Issued(dates)
  {
    var k := EveryCountIsPassed(dates, Token(d), count + 1);
    assert forall j :: 0 <= j < k ==> dates[j] in months;
    TokenInjective(dates[k], d);
    InSequenceIff(dates, k);
    assert InSequence(dates, k);
    IssuedAt(dates, k);
    assert Issued(dates)[k] == NumberFor(d, count);
  }

  /** The number after a count is new exactly if the count is still right. */
  lemma NewIff(dates: seq<Date>, d: Date, count: nat, months: set<Date>)
    requires NoneExtends(months) && d in months && forall j :: 0 <= j < |dates| ==> dates[j] in months
    requires count <= OfToken(dates, Token(d))
    ensures NumberFor(d, count) !in Issued(dates) <==> count == OfToken(dates, Token(d))
    ensures count == OfToken(dates, Token(d)) ==> Issued(dates + [d]) == Issued(dates) + [NumberFor(d, count)]
  {
    CountIsOwn(dates, d, months);
    if count == OfToken(dates, Token(d)) {
      RightCountIsNext(dates, d, count);
    } else {
      StaleCountIsTaken(dates, d, count, months);
    }
  }

  ghost predicate RaceInv(w: World, months: set<Date>) {
    && w.numbers == Issued(w.dates)
    && (forall j :: 0 <= j < |w.dates| ==> w.dates[j] in months)
    && forall i :: i in w.creators ==> CreatorOk(w.dates, w.creators[i], months)
  }

  predicate CreatorOk(dates: seq<Date>, creator: Creator, months: set<Date>) {
    match creator
    case Dated(d) => d in months
    case Counting(d, count) => d in months && count <= OfToken(dates, Token(d))
    case Ended(_) => true
  }

  predicate OfMonth(d: Date, t: string) {
    Token(d) == t
  }

  lemma {:induction false} OfTokenGrows(dates: seq<Date>, n: nat, t: string)
    requires n <= |dates|
    ensures OfToken(dates[..n], t) <= OfToken(dates, t)
    ensures (forall j :: n <= j < |dates| ==> !OfMonth(dates[j], t)) ==> OfToken(dates[..n], t) == OfToken(dates, t)
    decreases |dates|
  {
    if n == |dates| {
      assert dates[..n] == dates;
    } else {
      var before := dates[..|dates| - 1];
      assert before[..n] == dates[..n];
      OfTokenGrows(before, n, t);
    }
  }

  lemma OfTokenSince(dates: seq<Date>, n: nat, t: string)
    requires n <= |dates|
    ensures OfToken(dates[..n], t) == OfToken(dates, t) <==> forall j :: n <= j < |dates| ==> !OfMonth(dates[j], t)
  {
    OfTokenGrows(dates, n, t);
    if k :| n <= k < |dates| && OfMonth(dates[k], t) {
      OfTokenGrows(dates[..k], n, t);
      assert dates[..k][..n] == dates[..n];
      CountPassesEachInvoice(dates, t, k);
    }
  }

  lemma OwnSince(dates: seq<Date>, n: nat, d: Date)
    requires n <= |dates|
    ensures OfToken(dates[..n], Token(d)) == OfToken(dates, Token(d)) <==>
              forall j :: n <= j < |dates| ==> dates[j] != d
  {
    OfTokenSince(dates, n, Token(d));
    forall j | n <= j < |dates| ensures OfMonth(dates[j], Token(d)) <==> dates[j] == d {
      if OfMonth(dates[j], Token(d)) {
        TokenInjective(dates[j], d);
      }
    }
  }

  lemma InsertKeepsRace(w: World, i: nat, reply: Reply, months: set<Date>)
    requires RaceInv(w, months) && NoneExtends(months) && i in w.creators && w.creators[i].Counting?
    ensures var w' := StepWorld(w, Insert(i, reply));
            && w'.numbers == Issued(w'.dates)
            && w.dates <= w'.dates && forall j :: 0 <= j < |w'.dates| ==> w'.dates[j] in months
  {
    var d, count := w.creators[i].d, w.creators[i].count;
    assert CreatorOk(w.dates, w.creators[i], months);
    NewIff(w.dates, d, count, months);
  }

  lemma MoreDatesKeepOk(dates: seq<Date>, more: seq<Date>, creator: Creator, months: set<Date>)
    requires CreatorOk(dates, creator, months) && dates <= more
    ensures CreatorOk(more, creator, months)
  {
    if creator.Counting? {
      OfTokenGrows(more, |dates|, Token(creator.d));
      assert more[..|dates|] == dates;
    }
  }

  lemma StepKeepsRace(w: World, action: Action, months: set<Date>)
    requires RaceInv(w, months) && NoneExtends(months) && (action.Begin? ==> action.d in months)
    ensures RaceInv(StepWorld(w, action), months)
  {
    var w' := StepWorld(w, action);
    var i := action.creator;
    if i in w.creators {
      assert CreatorOk(w.dates, w.creators[i], months);
      if action.Tally? && w.creators[i].Dated? {
        CountIsOwn(w.dates, w.creators[i].d, months);
      } else if action.Insert? && w.creators[i].Counting? {
        InsertKeepsRace(w, i, action.reply, months);
      }
    }
    forall j | j in w'.creators ensures CreatorOk(w'.dates, w'.creators[j], months) {
      if j != i {
        assert CreatorOk(w.dates, w.creators[j], months);
        MoreDatesKeepOk(w.dates, w'.dates, w.creators[j], months);
      }
    }
  }

  lemma {:induction false} RaceAlways(trace: seq<Action>, months: set<Date>, w: World)
    requires w == Exec(trace) && AllWithin(trace, months) && NoneExtends(months)
    ensures RaceInv(w, months)
    decreases |trace|
  {
    if trace != [] {
      var before := trace[..|trace| - 1];
      RaceAlways(before, months, Exec(before));
      StepKeepsRace(Exec(before), trace[|trace| - 1], months);
    }
  }

  /** However calls interleave, fail or are refused: the stored numbers are those a serial run would issue to the stored
      invoices in the order in which they were stored. */
  lemma InterleavedIsSerial(trace: seq<Action>, months: set<Date>)
    requires AllWithin(trace, months) && NoneExtends(months)
    ensures Exec(trace).numbers == Issued(Exec(trace).dates)
  {
    RaceAlways(trace, months, Exec(trace));
  }

  /** So every month's sequences are 1 to the number of its stored invoices, without a gap, in every interleaving. */
  lemma StoredWithoutGaps(trace: seq<Action>, months: set<Date>, d: Date, m: nat)
    requires AllWithin(trace, months) && NoneExtends(months)
    ensures var w := Exec(trace); Number(Token(d), m) in w.numbers <==> 1 <= m <= OfToken(w.dates, Token(d))
  {
    var w := Exec(trace);
    RaceAlways(trace, months, w);
    GaplessUnlessExtended(w.dates, d, m);
    IssuedLength(w.dates);
    TokenIsDigits(d);
    if k: nat :| k < |w.dates| && w.dates[k] == d && SequenceOf(w.dates, k) == m {
      IssuedAt(w.dates, k);
    }
    if k: nat :| k < |w.numbers| && w.numbers[k] == Number(Token(d), m) {
      IssuedAt(w.dates, k);
      TokenIsDigits(w.dates[k]);
      NumberInjective(Token(d), m, Token(w.dates[k]), SequenceOf(w.dates, k));
      TokenInjective(d, w.dates[k]);
    }
  }

  // ---- Who is refused ----

  /** At position m, call i counted the invoices of its month. */
  predicate CountsAt(trace: seq<Action>, m: nat, i: nat, d: Date) {
    && m < |trace| && trace[m] == Tally(i, Ok)
    && var w := Exec(trace[..m]); i in w.creators && w.creators[i] == Dated(d)
  }

  predicate CountedOrEnded(w: World, i: nat, counted: Creator) {
    i in w.creators && (w.creators[i] == counted || w.creators[i].Ended?)
  }

  lemma StepKeepsCount(w: World, action: Action, i: nat, counted: Creator)
    requires CountedOrEnded(w, i, counted) && counted.Counting?
    ensures CountedOrEnded(StepWorld(w, action), i, counted)
  {
  }

  lemma DatesGrow(w: World, action: Action)
    ensures w.dates <= StepWorld(w, action).dates
  {
  }

  lemma {:induction false} CountStays(trace: seq<Action>, m: nat, i: nat, d: Date)
    requires CountsAt(trace, m, i, d)
    ensures Exec(trace[..m]).dates <= Exec(trace).dates
    ensures CountedOrEnded(Exec(trace), i, Counting(d, Count(Exec(trace[..m]).numbers, Prefix(Token(d)))))
    decreases |trace|
  {
    var before, action := trace[..|trace| - 1], trace[|trace| - 1];
    DatesGrow(Exec(before), action);
    if m < |before| {
      assert before[..m] == trace[..m];
      CountStays(before, m, i, d);
      StepKeepsCount(Exec(before), action, i, Counting(d, Count(Exec(trace[..m]).numbers, Prefix(Token(d)))));
    } else {
      assert before == trace[..m] && action == Tally(i, Ok);
    }
  }

  /** Some invoice of this month was stored since position m. */
  predicate StoredSince(trace: seq<Action>, m: nat, d: Date)
    requires m <= |trace|
  {
    var n, dates := |Exec(trace[..m]).dates|, Exec(trace).dates;
    exists j :: n <= j < |dates| && dates[j] == d
  }

  lemma InsertStoresIff(w: World, i: nat, reply: Reply, months: set<Date>)
    requires RaceInv(w, months) && NoneExtends(months) && i in w.creators && w.creators[i].Counting? && reply != Lost
    ensures var d, w' := w.creators[i].d, StepWorld(w, Insert(i, reply));
            var right := w.creators[i].count == OfToken(w.dates, Token(d));
            w'.creators[i] == Ended(right) && w'.dates == if right then w.dates + [d] else w.dates
  {
    assert CreatorOk(w.dates, w.creators[i], months);
    NewIff(w.dates, w.creators[i].d, w.creators[i].count, months);
  }

  /** A call that is still to insert knows how many invoices its month had when it counted. */
  lemma CountWas(trace: seq<Action>, months: set<Date>, m: nat, i: nat, d: Date)
    requires AllWithin(trace, months) && NoneExtends(months) && CountsAt(trace, m, i, d)
    requires i in Exec(trace).creators && Exec(trace).creators[i].Counting?
    ensures var n, dates := |Exec(trace[..m]).dates|, Exec(trace).dates;
            && n <= |dates| && Exec(trace).creators[i] == Counting(d, OfToken(dates[..n], Token(d)))
  {
    var w := Exec(trace[..m]);
    RaceAlways(trace[..m], months, w);
    assert CreatorOk(w.dates, w.creators[i], months);
    CountIsOwn(w.dates, d, months);
    CountStays(trace, m, i, d);
    assert Exec(trace).dates[..|w.dates|] == w.dates;
  }

  /** A call's insert, when it arrives, is refused exactly if another call stored an invoice of the same month since
      this one's count. */
  lemma RefusedIff(trace: seq<Action>, months: set<Date>, m: nat, i: nat, d: Date, reply: Reply)
    requires AllWithin(trace, months) && NoneExtends(months) && CountsAt(trace, m, i, d) && reply != Lost
    requires i in Exec(trace).creators && Exec(trace).creators[i].Counting?
    ensures var w' := StepWorld(Exec(trace), Insert(i, reply));
            && w'.creators[i] == Ended(!StoredSince(trace, m, d))
            && w'.dates == if StoredSince(trace, m, d) then Exec(trace).dates else Exec(trace).dates + [d]
  {
    var n, w := |Exec(trace[..m]).dates|, Exec(trace);
    CountWas(trace, months, m, i, d);
    RaceAlways(trace, months, w);
    InsertStoresIff(w, i, reply, months);
    OwnSince(w.dates, n, d);
  }
}
