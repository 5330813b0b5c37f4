/** `format_equity`: the equity report driver, which turns account balances
    into an opening-balances entry for a new period.

    Construction writes the header line; each accepted account is written as
    a continuation line and its quantity added to a running total; `flush`
    writes a counter-account holding the negated total, so that the values
    written sum to zero. */
module FormatEquity {
  import opened Ledger
  import opened Output
  import FormatAccount

  /** The payee of the header entry. */
  const HeaderPayee: string := "Opening Balances"

  /** The full name of the counter-account written by `flush`. */
  const SummaryName: string := "Equity:Opening Balances"

  datatype Driver = Driver(displayed: set<string>, log: Log, total: Balance)

  /** The quantity an event contributes to the entry: an account's value, or
      nothing for the header entry. */
  function EventValue(e: Event): Balance
  {
    if e.details.OfAccount? then e.details.account.value else 0
  }

  /** The sum of the quantities written to the log. */
  function LogSum(log: Log): Balance
  {
    if log == [] then 0 else LogSum(log[..|log| - 1]) + EventValue(log[|log| - 1])
  }

  /** The running total accounts for every value written so far. */
  predicate Balanced(d: Driver)
  {
    d.total == LogSum(d.log)
  }

  /** The constructor: the header entry, dated `now` (the C++ code reads the
      clock), is rendered with the first-line format and nothing is summed. */
  function Construct(displayed: set<string>, now: Time): (d: Driver)
    ensures d.log == [FirstLine(OfEntry(Entry(HeaderPayee, now)))]
    ensures d.total == 0 && d.displayed == displayed
    ensures Balanced(d)
  {
    var d := Driver(displayed, [FirstLine(OfEntry(Entry(HeaderPayee, now)))], 0);
    assert d.log[..0] == [];
    d
  }

  /** `operator()(account)`: an accepted account is rendered with the
      next-lines format, flagged, and added to the total; a rejected one
      changes nothing. */
  function Visit(d: Driver, a: Account, display: FormatAccount.DisplayTest): (r: Driver)
    ensures display(a, d.displayed) ==>
      && r.log == d.log + [NextLine(OfAccount(a))]
      && r.displayed == d.displayed + {a.fullname}
      && r.total == d.total + a.value
    ensures !display(a, d.displayed) ==> r == d
  {
    if display(a, d.displayed) then
      Driver(d.displayed + {a.fullname}, d.log + [NextLine(OfAccount(a))], d.total + a.value)
    else
      d
  }

  /** The invariant of the running total: a visit keeps it equal to the sum
      of the values written. */
  lemma VisitKeepsBalance(d: Driver, a: Account, display: FormatAccount.DisplayTest)
    requires Balanced(d)
    ensures Balanced(Visit(d, a, display))
  {
  }

  /** `flush()`: render the counter-account, valued at minus the total, with
      the next-lines format. A balanced driver's log then sums to zero. */
  function Flush(d: Driver): (r: Driver)
    ensures r.log == d.log + [NextLine(OfAccount(Account(SummaryName, -d.total)))]
    ensures r.displayed == d.displayed && r.total == d.total
    ensures Balanced(d) ==> LogSum(r.log) == 0
  {
    var log := d.log + [NextLine(OfAccount(Account(SummaryName, -d.total)))];
    assert log[..|log| - 1] == d.log;
    Driver(d.displayed, log, d.total)
  }

  /** Visits a sequence of accounts in order. */
  function VisitAll(d: Driver, accts: seq<Account>, display: FormatAccount.DisplayTest): Driver
    decreases |accts|
  {
    if accts == [] then d else VisitAll(Visit(d, accts[0], display), accts[1..], display)
  }

  /** A whole equity report: construct, visit the accounts, flush. */
  function Run(displayed: set<string>, now: Time, accts: seq<Account>, display: FormatAccount.DisplayTest): Driver
  {
    Flush(VisitAll(Construct(displayed, now), accts, display))
  }

  /** A traversal writes one continuation line per accepted account, in
      order, and adds exactly their quantities to the total. */
  lemma {:induction false} VisitAllAccumulates(d: Driver, accts: seq<Account>, display: FormatAccount.DisplayTest)
    ensures var acc := FormatAccount.Accepted(display, d.displayed, accts);
      && VisitAll(d, accts, display).log == d.log + AccountLines(NextLinesFormat, acc)
      && VisitAll(d, accts, display).total == d.total + Sum(acc)
    decreases |accts|
  {
    if accts == [] {
      assert AccountLines(NextLinesFormat, []) == [];
    } else {
      var a, rest := accts[0], accts[1..];
      var d' := Visit(d, a, display);
      assert VisitAll(d, accts, display) == VisitAll(d', rest, display);
      VisitAllAccumulates(d', rest, display);
      if display(a, d.displayed) {
        var acc := FormatAccount.Accepted(display, d'.displayed, rest);
        assert FormatAccount.Accepted(display, d.displayed, accts) == [a] + acc;
        AccountLinesCons(NextLinesFormat, a, acc);
        SumCons(a, acc);
      }
    }
  }

  /** A traversal flags exactly the accepted accounts. */
  lemma {:induction false} VisitAllFlagsAccepted(d: Driver, accts: seq<Account>, display: FormatAccount.DisplayTest)
    ensures VisitAll(d, accts, display).displayed
         == d.displayed + Names(FormatAccount.Accepted(display, d.displayed, accts))
    decreases |accts|
  {
    if accts == [] {
      assert Names([]) == {};
    } else {
      var a, rest := accts[0], accts[1..];
      var d' := Visit(d, a, display);
      VisitAllFlagsAccepted(d', rest, display);
      if display(a, d.displayed) {
        NamesCons(a, FormatAccount.Accepted(display, d'.displayed, rest));
      }
    }
  }

  /** A traversal keeps the running total equal to the values written. */
  lemma {:induction false} VisitAllKeepsBalance(d: Driver, accts: seq<Account>, display: FormatAccount.DisplayTest)
    requires Balanced(d)
    ensures Balanced(VisitAll(d, accts, display))
    decreases |accts|
  {
    if accts != [] {
      VisitKeepsBalance(d, accts[0], display);
      VisitAllKeepsBalance(Visit(d, accts[0], display), accts[1..], display);
    }
  }

  /** What a full run writes: the header first, then one continuation line
      per accepted account, then the counter-account valued at minus their
      sum. */
  lemma RunShape(displayed: set<string>, now: Time, accts: seq<Account>, display: FormatAccount.DisplayTest)
    ensures var acc := FormatAccount.Accepted(display, displayed, accts);
      Run(displayed, now, accts, display).log
        == [FirstLine(OfEntry(Entry(HeaderPayee, now)))]
           + AccountLines(NextLinesFormat, acc)
           + [NextLine(OfAccount(Account(SummaryName, -Sum(acc))))]
  {
    var acc := FormatAccount.Accepted(display, displayed, accts);
    var d := Construct(displayed, now);
    var v := VisitAll(d, accts, display);
    assert v.log == d.log + AccountLines(NextLinesFormat, acc) && v.total == Sum(acc) by {
      VisitAllAccumulates(d, accts, display);
    }
  }

  /** The balancing theorem: the values a full run writes sum to zero, and
      the header is its only first line. */
  lemma RunBalances(displayed: set<string>, now: Time, accts: seq<Account>, display: FormatAccount.DisplayTest)
    ensures LogSum(Run(displayed, now, accts, display).log) == 0
    ensures forall i :: 0 < i < |Run(displayed, now, accts, display).log| ==>
      Run(displayed, now, accts, display).log[i].NextLine?
  {
    var acc := FormatAccount.Accepted(display, displayed, accts);
    var d := Construct(displayed, now);
    VisitAllKeepsBalance(d, accts, display);
    RunShape(displayed, now, accts, display);
    OnlyHeaderIsFirstLine(FirstLine(OfEntry(Entry(HeaderPayee, now))), AccountLines(NextLinesFormat, acc),
                          NextLine(OfAccount(Account(SummaryName, -Sum(acc)))));
  }

  /** Idempotence through the equity driver: when the display test skips
      displayed accounts, the account lines between the header and the
      counter-account show pairwise distinct accounts, none flagged before. */
  lemma RunShowsEachAccountOnce(displayed: set<string>, now: Time, accts: seq<Account>, display: FormatAccount.DisplayTest)
    requires FormatAccount.SkipsDisplayed(display)
    ensures var log := Run(displayed, now, accts, display).log;
      && (forall i :: 0 < i < |log| - 1 ==>
            log[i].details.OfAccount? && log[i].details.account.fullname !in displayed)
      && (forall i, j :: 0 < i < j < |log| - 1 ==>
            log[i].details.account.fullname != log[j].details.account.fullname)
  {
    var acc := FormatAccount.Accepted(display, displayed, accts);
    RunShape(displayed, now, accts, display);
    FormatAccount.AcceptedOncePerAccount(display, displayed, accts);
    var log := Run(displayed, now, accts, display).log;
    assert |log| == |acc| + 2;
    assert forall i :: 0 < i < |log| - 1 ==> log[i] == Render(NextLinesFormat, OfAccount(acc[i - 1]));
  }

  /** A header followed by continuation lines has no other first line. */
  lemma OnlyHeaderIsFirstLine(header: Event, body: Log, last: Event)
    requires forall i :: 0 <= i < |body| ==> body[i].NextLine?
    requires last.NextLine?
    ensures forall i :: 0 < i < |[header] + body + [last]| ==> ([header] + body + [last])[i].NextLine?
  {
  }

  /** A rejected account leaves the total, the flags and the log untouched
      even across a whole traversal of rejected accounts. */
  lemma {:induction false} RejectedAccountsChangeNothing(d: Driver, accts: seq<Account>, display: FormatAccount.DisplayTest)
    requires forall i :: 0 <= i < |accts| ==> !display(accts[i], d.displayed)
    ensures VisitAll(d, accts, display) == d
    decreases |accts|
  {
    if accts != [] {
      assert forall i :: 0 <= i < |accts[1..]| ==> accts[1..][i] == accts[i + 1];
      RejectedAccountsChangeNothing(d, accts[1..], display);
    }
  }
}
