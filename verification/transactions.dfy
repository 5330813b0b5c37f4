/** `format_transactions`: the transaction report driver.

    The first transaction of each entry is rendered with the first-line format,
    the following transactions of the same entry with the next-lines format.
    The only state is the identity of the last entry whose first line was
    written; the displayed flags of the transactions belong to the ledger and
    are carried along as the set of displayed transaction identities. */
module FormatTransactions {
  import opened Wrappers
  import opened Ledger
  import opened Output

  datatype Driver = Driver(lastEntry: Option<EntryId>, displayed: set<XactId>, log: Log)

  /** The constructor: `last_entry` starts null; the flags are the ledger's. */
  function Start(displayed: set<XactId>): (d: Driver)
    ensures d.lastEntry.None? && d.log == [] && d.displayed == displayed
  {
    Driver(None, displayed, [])
  }

  /** `operator()(xact)`: a displayed transaction is skipped; any other one is
      rendered once, with the first-line format exactly when its entry differs
      from the last one seen, and is then flagged displayed. */
  function Visit(d: Driver, x: Xact): (r: Driver)
    ensures x.id in r.displayed
    ensures x.id in d.displayed ==> r == d
    ensures x.id !in d.displayed ==>
      && r.displayed == d.displayed + {x.id}
      && r.lastEntry == x.entry
      && |r.log| == |d.log| + 1
      && r.log[..|d.log|] == d.log
      && r.log[|d.log|].details == OfXact(x)
      && !r.log[|d.log|].Line?
      && (r.log[|d.log|].FirstLine? <==> d.lastEntry != x.entry)
  {
    if x.id in d.displayed then
      d
    else if d.lastEntry != x.entry then
      Driver(x.entry, d.displayed + {x.id}, d.log + [FirstLine(OfXact(x))])
    else
      Driver(d.lastEntry, d.displayed + {x.id}, d.log + [NextLine(OfXact(x))])
  }

  /** Visits a stream of transactions in order. */
  function VisitAll(d: Driver, xs: seq<Xact>): Driver
    decreases |xs|
  {
    if xs == [] then d else VisitAll(Visit(d, xs[0]), xs[1..])
  }

  /** A whole report over a stream, from a fresh driver. */
  function Report(displayed: set<XactId>, xs: seq<Xact>): Driver
  {
    VisitAll(Start(displayed), xs)
  }

  /** The transactions of a stream that get rendered: the first occurrence of
      every transaction that is not already displayed, in stream order. */
  function Fresh(displayed: set<XactId>, xs: seq<Xact>): seq<Xact>
    decreases |xs|
  {
    if xs == [] then []
    else if xs[0].id in displayed then Fresh(displayed, xs[1..])
    else [xs[0]] + Fresh(displayed + {xs[0].id}, xs[1..])
  }

  /** Whether the i-th rendered transaction opens a new group: its entry
      differs from the previous rendered transaction's (from `prev` for the
      first one). */
  predicate StartsGroup(prev: Option<EntryId>, ys: seq<Xact>, i: int)
    requires 0 <= i < |ys|
  {
    ys[i].entry != (if i == 0 then prev else ys[i - 1].entry)
  }

  /** The reference layout of a report: position by position, a transaction
      that opens a group is a first line, any other a continuation line. */
  function Grouped(prev: Option<EntryId>, ys: seq<Xact>): (log: Log)
    ensures |log| == |ys|
  {
    seq(|ys|, i requires 0 <= i < |ys| =>
      if StartsGroup(prev, ys, i) then FirstLine(OfXact(ys[i])) else NextLine(OfXact(ys[i])))
  }

  /** The entry the driver remembers after rendering `ys`. */
  function LastEntryAfter(prev: Option<EntryId>, ys: seq<Xact>): Option<EntryId>
  {
    if ys == [] then prev else ys[|ys| - 1].entry
  }

  /** Peeling the first rendered transaction off the reference layout. */
  lemma GroupedCons(prev: Option<EntryId>, y: Xact, ys: seq<Xact>)
    ensures Grouped(prev, [y] + ys)
         == [if y.entry != prev then FirstLine(OfXact(y)) else NextLine(OfXact(y))]
            + Grouped(y.entry, ys)
  {
  }

  /** The driver lays out any stream exactly as the reference does: the log
      grows by `Grouped` over the freshly rendered transactions, and the
      driver remembers the entry of the last rendered one. */
  lemma {:induction false} VisitAllIsGrouped(d: Driver, xs: seq<Xact>)
    ensures VisitAll(d, xs).log == d.log + Grouped(d.lastEntry, Fresh(d.displayed, xs))
    ensures VisitAll(d, xs).lastEntry == LastEntryAfter(d.lastEntry, Fresh(d.displayed, xs))
    decreases |xs|
  {
    if xs != [] {
      var x, rest := xs[0], xs[1..];
      var d' := Visit(d, x);
      assert VisitAll(d, xs) == VisitAll(d', rest);
      VisitAllIsGrouped(d', rest);
      if x.id !in d.displayed {
        var ys := Fresh(d'.displayed, rest);
        assert Fresh(d.displayed, xs) == [x] + ys;
        GroupedCons(d.lastEntry, x, ys);
        if ys != [] {
          assert ([x] + ys)[|[x] + ys| - 1] == ys[|ys| - 1];
        }
      }
    }
  }

  /** Every visited transaction ends up flagged, and nothing else does. */
  lemma {:induction false} VisitAllFlagsStream(d: Driver, xs: seq<Xact>)
    ensures VisitAll(d, xs).displayed == d.displayed + Ids(xs)
    decreases |xs|
  {
    if xs == [] {
      assert Ids(xs) == {};
    } else {
      var x, rest := xs[0], xs[1..];
      VisitAllFlagsStream(Visit(d, x), rest);
      assert xs == [x] + rest;
      IdsCons(x, rest);
    }
  }

  /** Whether the transactions rendered in a log are pairwise distinct. */
  predicate RendersEachOnce(log: Log)
  {
    forall i, j :: 0 <= i < j < |log| && log[i].details.OfXact? && log[j].details.OfXact? ==>
      log[i].details.xact.id != log[j].details.xact.id
  }

  /** The freshly rendered transactions are new, pairwise distinct, and are
      exactly the stream's transactions that were not yet displayed. */
  lemma {:induction false} FreshIsOncePerXact(displayed: set<XactId>, xs: seq<Xact>)
    ensures forall i :: 0 <= i < |Fresh(displayed, xs)| ==> Fresh(displayed, xs)[i].id !in displayed
    ensures forall i, j :: 0 <= i < j < |Fresh(displayed, xs)| ==>
      Fresh(displayed, xs)[i].id != Fresh(displayed, xs)[j].id
    ensures Ids(Fresh(displayed, xs)) == Ids(xs) - displayed
    decreases |xs|
  {
    if xs != [] {
      var x, rest := xs[0], xs[1..];
      assert xs == [x] + rest;
      IdsCons(x, rest);
      if x.id in displayed {
        FreshIsOncePerXact(displayed, rest);
      } else {
        FreshIsOncePerXact(displayed + {x.id}, rest);
        var ys := Fresh(displayed + {x.id}, rest);
        assert Fresh(displayed, xs) == [x] + ys;
        IdsCons(x, ys);
      }
    } else {
      assert Ids(xs) == {};
    }
  }

  /** The reference layout of distinct transactions renders each one once. */
  lemma GroupedRendersEachOnce(prev: Option<EntryId>, ys: seq<Xact>)
    requires forall i, j :: 0 <= i < j < |ys| ==> ys[i].id != ys[j].id
    ensures RendersEachOnce(Grouped(prev, ys))
  {
    var log := Grouped(prev, ys);
    GroupedShowsEachXact(prev, ys);
    forall i, j | 0 <= i < j < |log| && log[i].details.OfXact? && log[j].details.OfXact?
      ensures log[i].details.xact.id != log[j].details.xact.id
    {
      assert log[i].details.xact == ys[i] && log[j].details.xact == ys[j];
    }
  }

  /** At-most-once rendering: a report renders each transaction of the stream
      that was not displayed beforehand exactly once, and nothing else. */
  lemma ReportRendersEachXactOnce(displayed: set<XactId>, xs: seq<Xact>)
    ensures var log := Report(displayed, xs).log;
      && RendersEachOnce(log)
      && (forall i :: 0 <= i < |log| ==>
            log[i].details.OfXact? && log[i].details.xact.id in Ids(xs) - displayed)
      && (forall x :: x in xs && x.id !in displayed ==>
            exists i :: 0 <= i < |log| && log[i].details.xact.id == x.id)
  {
    var ys := Fresh(displayed, xs);
    VisitAllIsGrouped(Start(displayed), xs);
    FreshIsOncePerXact(displayed, xs);
    var log := Report(displayed, xs).log;
    assert log == Grouped(None, ys);
    GroupedRendersEachOnce(None, ys);
    GroupedShowsEachXact(None, ys);
    ShownXactsAreFresh(log, ys, Ids(xs) - displayed);
    forall x | x in xs && x.id !in displayed
      ensures exists i :: 0 <= i < |log| && log[i].details.xact.id == x.id
    {
      var k :| 0 <= k < |xs| && xs[k] == x;
      assert x.id in Ids(ys);
      var i :| 0 <= i < |ys| && ys[i].id == x.id;
      assert log[i].details == OfXact(ys[i]);
    }
  }

  /** A log showing `ys` line by line shows only identities of `ys`. */
  lemma ShownXactsAreFresh(log: Log, ys: seq<Xact>, ids: set<XactId>)
    requires |log| == |ys| && Ids(ys) == ids
    requires forall i :: 0 <= i < |ys| ==> log[i].details == OfXact(ys[i])
    ensures forall i :: 0 <= i < |log| ==> log[i].details.OfXact? && log[i].details.xact.id in ids
  {
  }

  /** The i-th line of the reference layout shows the i-th transaction. */
  lemma GroupedShowsEachXact(prev: Option<EntryId>, ys: seq<Xact>)
    ensures forall i :: 0 <= i < |ys| ==> Grouped(prev, ys)[i].details == OfXact(ys[i])
  {
  }

  /** A stream made only of displayed transactions leaves the driver as it is. */
  lemma {:induction false} VisitAllDisplayedIsNoOp(d: Driver, xs: seq<Xact>)
    requires Ids(xs) <= d.displayed
    ensures VisitAll(d, xs) == d
    decreases |xs|
  {
    if xs != [] {
      assert xs[0].id in Ids(xs);
      assert Ids(xs[1..]) <= Ids(xs) by {
        forall i | 0 <= i < |xs[1..]| ensures xs[1..][i].id in Ids(xs) {
          assert xs[1..][i] == xs[i + 1];
        }
      }
      VisitAllDisplayedIsNoOp(d, xs[1..]);
    }
  }

  /** Idempotence: traversing the same stream a second time renders nothing
      and changes no state. */
  lemma RevisitRendersNothing(d: Driver, xs: seq<Xact>)
    ensures VisitAll(VisitAll(d, xs), xs) == VisitAll(d, xs)
  {
    VisitAllFlagsStream(d, xs);
    VisitAllDisplayedIsNoOp(VisitAll(d, xs), xs);
  }

  /** A prefix of already displayed transactions renders nothing. */
  lemma {:induction false} FreshSkipsDisplayed(displayed: set<XactId>, ps: seq<Xact>, rest: seq<Xact>)
    requires Ids(ps) <= displayed
    ensures Fresh(displayed, ps + rest) == Fresh(displayed, rest)
    decreases |ps|
  {
    if ps != [] {
      assert ps[0].id in Ids(ps);
      assert (ps + rest)[0] == ps[0] && (ps + rest)[1..] == ps[1..] + rest;
      assert ps == [ps[0]] + ps[1..];
      IdsCons(ps[0], ps[1..]);
      assert Ids(ps[1..]) <= displayed;
      FreshSkipsDisplayed(displayed, ps[1..], rest);
      assert Fresh(displayed, ps + rest) == Fresh(displayed, (ps + rest)[1..]);
    } else {
      assert ps + rest == rest;
    }
  }

  /** In a report, the first transaction not displayed beforehand is a first
      line whenever it belongs to an entry, whatever displayed transactions
      precede it. */
  lemma FirstFreshXactIsFirstLine(displayed: set<XactId>, ps: seq<Xact>, x: Xact, rest: seq<Xact>)
    requires Ids(ps) <= displayed && x.id !in displayed && x.entry.Some?
    ensures |Report(displayed, ps + [x] + rest).log| > 0
    ensures Report(displayed, ps + [x] + rest).log[0] == FirstLine(OfXact(x))
  {
    var xs := ps + [x] + rest;
    assert xs == ps + ([x] + rest);
    FreshSkipsDisplayed(displayed, ps, [x] + rest);
    assert ([x] + rest)[0] == x && ([x] + rest)[1..] == rest;
    var ys := Fresh(displayed + {x.id}, rest);
    assert Fresh(displayed, xs) == [x] + ys;
    VisitAllIsGrouped(Start(displayed), xs);
    GroupedCons(None, x, ys);
  }

  /** With a fresh driver, the first undisplayed transaction that belongs to
      an entry is always a first line. */
  lemma FirstXactIsFirstLine(displayed: set<XactId>, x: Xact)
    requires x.id !in displayed && x.entry.Some?
    ensures Visit(Start(displayed), x).log == [FirstLine(OfXact(x))]
    ensures Visit(Start(displayed), x).lastEntry == x.entry
  {
  }

  /** The null case of the identity test: a fresh driver's `last_entry` is
      null, so a transaction whose `entry` is also null compares equal
      to it and is rendered as a continuation line. */
  lemma NullEntryIsContinuation(displayed: set<XactId>, x: Xact)
    requires x.id !in displayed && x.entry.None?
    ensures Visit(Start(displayed), x).log == [NextLine(OfXact(x))]
    ensures Visit(Start(displayed), x).lastEntry.None?
  {
  }

  /** The grouping scenario: two transactions of one entry followed by one of
      another entry give a first line, a continuation line and a first line. */
  lemma GroupingExample(t1: Xact, t2: Xact, t3: Xact)
    requires t1.id != t2.id && t2.id != t3.id && t1.id != t3.id
    requires t1.entry.Some? && t1.entry == t2.entry && t3.entry.Some? && t3.entry != t1.entry
    ensures Report({}, [t1, t2, t3]).log
         == [FirstLine(OfXact(t1)), NextLine(OfXact(t2)), FirstLine(OfXact(t3))]
  {
    var xs := [t1, t2, t3];
    VisitAllIsGrouped(Start({}), xs);
    assert xs[1..] == [t2, t3] && [t2, t3][1..] == [t3] && [t3][1..] == [];
    var f1, f2 := {} + {t1.id}, {} + {t1.id} + {t2.id};
    assert Fresh(f2 + {t3.id}, []) == [];
    assert Fresh(f2, [t3]) == [t3];
    assert Fresh(f1, [t2, t3]) == [t2] + [t3];
    assert Fresh({}, xs) == [t1] + [t2, t3];
  }
}
