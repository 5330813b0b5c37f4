/** `format_account`: the account report driver. Each account handed to it
    is rendered, and flagged displayed, exactly when the display test accepts
    it.

    The test `display_account(account, disp_pred)` is only declared in the
    header; it is a parameter here. It may consult the account's own
    displayed flag (and any other), so it receives the current flag set. */
module FormatAccount {
  import opened Ledger
  import opened Output

  /** `display_account(account, disp_pred)` with the driver's predicate bound
      and `even_top` left at its default, over the current displayed flags. */
  type DisplayTest = (Account, set<string>) -> bool

  datatype Driver = Driver(displayed: set<string>, log: Log)

  /** `operator()(account)`: render and flag the account when the test
      accepts it; otherwise touch nothing. */
  function Visit(d: Driver, a: Account, display: DisplayTest): (r: Driver)
    ensures display(a, d.displayed) <==> |r.log| == |d.log| + 1
    ensures a.fullname in r.displayed <==> display(a, d.displayed) || a.fullname in d.displayed
    ensures display(a, d.displayed) ==>
      && r.log[..|d.log|] == d.log
      && r.log[|d.log|] == Line(OfAccount(a))
      && r.displayed == d.displayed + {a.fullname}
    ensures !display(a, d.displayed) ==> r == d
  {
    if display(a, d.displayed) then
      Driver(d.displayed + {a.fullname}, d.log + [Line(OfAccount(a))])
    else
      d
  }

  /** Visits a sequence of accounts in order. */
  function VisitAll(d: Driver, accts: seq<Account>, display: DisplayTest): Driver
    decreases |accts|
  {
    if accts == [] then d else VisitAll(Visit(d, accts[0], display), accts[1..], display)
  }

  /** The accounts the test accepts, in order; each acceptance flags the
      account before the test looks at the next one. */
  function Accepted(display: DisplayTest, displayed: set<string>, accts: seq<Account>): seq<Account>
    decreases |accts|
  {
    if accts == [] then []
    else if display(accts[0], displayed) then
      [accts[0]] + Accepted(display, displayed + {accts[0].fullname}, accts[1..])
    else
      Accepted(display, displayed, accts[1..])
  }

  /** A traversal renders exactly the accepted accounts, in order, and flags
      exactly those. */
  lemma {:induction false} VisitAllRendersAccepted(d: Driver, accts: seq<Account>, display: DisplayTest)
    ensures VisitAll(d, accts, display).log == d.log + AccountLines(AccountFormat, Accepted(display, d.displayed, accts))
    ensures VisitAll(d, accts, display).displayed == d.displayed + Names(Accepted(display, d.displayed, accts))
  {
    VisitAllLogsAccepted(d, accts, display);
    VisitAllFlagsAccepted(d, accts, display);
  }

  lemma {:induction false} VisitAllLogsAccepted(d: Driver, accts: seq<Account>, display: DisplayTest)
    ensures VisitAll(d, accts, display).log == d.log + AccountLines(AccountFormat, Accepted(display, d.displayed, accts))
    decreases |accts|
  {
    if accts == [] {
      assert AccountLines(AccountFormat, []) == [];
    } else {
      var a, rest := accts[0], accts[1..];
      var d' := Visit(d, a, display);
      VisitAllLogsAccepted(d', rest, display);
      if display(a, d.displayed) {
        AccountLinesCons(AccountFormat, a, Accepted(display, d'.displayed, rest));
      }
    }
  }

  lemma {:induction false} VisitAllFlagsAccepted(d: Driver, accts: seq<Account>, display: DisplayTest)
    ensures VisitAll(d, accts, display).displayed == d.displayed + Names(Accepted(display, d.displayed, accts))
    decreases |accts|
  {
    if accts == [] {
      assert Names([]) == {};
    } else {
      var a, rest := accts[0], accts[1..];
      var d' := Visit(d, a, display);
      VisitAllFlagsAccepted(d', rest, display);
      if display(a, d.displayed) {
        NamesCons(a, Accepted(display, d'.displayed, rest));
      }
    }
  }

  /** The display test never accepts an account that is already flagged. */
  ghost predicate SkipsDisplayed(display: DisplayTest)
  {
    forall a: Account, flags: set<string> :: a.fullname in flags ==> !display(a, flags)
  }

  /** Idempotence: when the test skips displayed accounts, visiting the same
      account twice renders it at most once. */
  lemma VisitTwiceRendersOnce(d: Driver, a: Account, display: DisplayTest)
    requires SkipsDisplayed(display)
    ensures Visit(Visit(d, a, display), a, display) == Visit(d, a, display)
  {
  }

  /** When the test skips displayed accounts, the accepted accounts are new
      and carry pairwise distinct names. */
  lemma {:induction false} AcceptedOncePerAccount(display: DisplayTest, displayed: set<string>, accts: seq<Account>)
    requires SkipsDisplayed(display)
    ensures forall i :: 0 <= i < |Accepted(display, displayed, accts)| ==>
      Accepted(display, displayed, accts)[i].fullname !in displayed
    ensures forall i, j :: 0 <= i < j < |Accepted(display, displayed, accts)| ==>
      Accepted(display, displayed, accts)[i].fullname != Accepted(display, displayed, accts)[j].fullname
    decreases |accts|
  {
    if accts != [] {
      var a, rest := accts[0], accts[1..];
      if display(a, displayed) {
        assert a.fullname !in displayed;
        var flags := displayed + {a.fullname};
        AcceptedOncePerAccount(display, flags, rest);
        var tail := Accepted(display, flags, rest);
        var all := [a] + tail;
        assert Accepted(display, displayed, accts) == all;
        forall i | 0 <= i < |all| ensures all[i].fullname !in displayed {
          if i > 0 { assert all[i] == tail[i - 1]; }
        }
        forall i, j | 0 <= i < j < |all| ensures all[i].fullname != all[j].fullname {
          assert all[j] == tail[j - 1];
          if i > 0 { assert all[i] == tail[i - 1]; }
        }
      } else {
        AcceptedOncePerAccount(display, displayed, rest);
      }
    }
  }
}
