# Report drivers of ledger's `format.h`, in Dafny

This project models the report drivers declared in ledger's `format.h`, plus
the small pure parts of `format_t` and `element_t`.

- **`format_transactions`** writes a stream of transactions. The first
  transaction of each entry uses the first-line format. Later transactions of
  the same entry use the next-lines format.
- **`format_account`** writes each account that the display test accepts.
- **`format_equity`** writes an "Opening Balances" entry. It has a header
  line, one line per accepted account, and a counter-account
  `Equity:Opening Balances` valued at minus the accumulated total.

Rendering is a side effect on an output stream. Here it is an appended event
log. `FirstLine(d)`, `NextLine(d)` and `Line(d)` record which of the driver's
formats was applied to which ledger object `d`. The log does not record the
rendered text. Each driver is an immutable record: the remembered entry, the
displayed flags, the log and the running total. Each C++ member is a pure
step function on that record. Lemmas over sequences of visits state the
report-level properties: grouping, rendering at most once, and balancing to
zero.

Files:

- `wrappers.dfy`: `Option`, for C++ values that may be null.
- `ledger.dfy`: the ledger objects the drivers see (entries, transactions,
  accounts) and the render context `details_t`.
- `output.dfy`: the event log.
- `format.dfy`: `element_t`, `format_t::reset`, `compute_value` and
  `compute_total`.
- `transactions.dfy`, `accounts.dfy` and `equity.dfy`: the three drivers.

## Model

| member | source | states |
|---|---|---|
| Format.DefaultElement | format.h:42-43 | a new element is a non-left-aligned `STRING` element with empty text, both widths 0, no expression and no successor (a chain of length one) |
| Format.Reset | format.h:72-76 | after `reset` the elements are exactly the compiled new format string; any format whose elements are that compilation is the result, so nothing of the previous chain survives |
| Format.NewFormat | format.h:65-67 | constructing a format yields the compilation of its format string |
| Format.ResetForgetsPrevious | format.h:65-76 | resetting gives the same format whatever was held before, equals constructing afresh, and is idempotent |
| Format.ComputeValue | format.h:82-89 | with no value expression the result is left unchanged and nothing is invoked; otherwise the configured expression is invoked exactly once and its answer is the result |
| Format.ComputeTotal | format.h:91-98 | the same "configured or absent" dispatch for the total expression |
| Format.DispatchesAreIndependent | format.h:82-98 | `compute_value` ignores the total expression and `compute_total` ignores the value expression; they agree when both hold the same expression |
| FormatTransactions.Start | format.h:109-114 | a new driver has a null `last_entry` and has written nothing |
| FormatTransactions.Visit | format.h:120-131 | a displayed transaction changes nothing; any other one is appended once, as a first line exactly when its entry differs from `last_entry`, is flagged displayed, and leaves `last_entry` equal to its entry |
| FormatTransactions.VisitAllIsGrouped | format.h:120-131 | over any stream the log grows by the position-wise reference layout (first line iff the entry differs from the previously rendered one) of the not-yet-displayed transactions, and `last_entry` is the entry of the last one rendered |
| FormatTransactions.VisitAllFlagsStream | format.h:121-128 | after any stream the displayed flags are the previous ones plus exactly the stream's transactions |
| FormatTransactions.FreshIsOncePerXact | format.h:121-128 | the transactions a stream renders are pairwise distinct, none was displayed before, and together they are exactly the stream's undisplayed transactions |
| FormatTransactions.ReportRendersEachXactOnce | format.h:120-128 | a report renders each undisplayed transaction of the stream exactly once and renders nothing else |
| FormatTransactions.RevisitRendersNothing | format.h:120-129 | traversing the same stream a second time writes nothing and changes no state |
| FormatTransactions.FirstXactIsFirstLine | format.h:114-124 | the first visit of a new driver, to an undisplayed transaction that has an entry, writes a first line and sets `last_entry` to that entry |
| FormatTransactions.FirstFreshXactIsFirstLine | format.h:114-128 | in a report, the first transaction not displayed beforehand is rendered as the first line whenever it has an entry, whatever already-displayed transactions precede it |
| FormatTransactions.NullEntryIsContinuation | format.h:114-127 | from a new driver, a transaction whose `entry` is null compares equal to the null `last_entry` and is a continuation line |
| FormatTransactions.GroupingExample | format.h:122-127 | two transactions of one entry followed by one of another entry give first line, continuation line, first line |
| FormatAccount.Visit | format.h:164-169 | the account is appended and flagged iff the display test accepts it; otherwise nothing changes |
| FormatAccount.VisitAllRendersAccepted | format.h:164-169 | over any sequence of accounts the log grows by exactly the accepted accounts in order, and exactly those are flagged |
| FormatAccount.VisitTwiceRendersOnce | format.h:164-169 | when the display test rejects flagged accounts, a second visit of the same account is a no-op |
| FormatAccount.AcceptedOncePerAccount | format.h:164-169 | when the display test rejects flagged accounts, the accepted accounts are new and pairwise distinct |
| FormatEquity.Construct | format.h:183-195 | construction writes exactly one first-line "Opening Balances" header dated at the given time, starts the total at 0, and is balanced |
| FormatEquity.Visit | format.h:204-210 | an accepted account is appended as a continuation line, flagged, and its quantity is added to the total; a rejected one changes nothing |
| FormatEquity.VisitKeepsBalance | format.h:204-210 | a visit keeps the running total equal to the sum of the values written |
| FormatEquity.Flush | format.h:197-202 | flushing appends one continuation line for `Equity:Opening Balances` valued at minus the total; from a balanced state the values written then sum to zero |
| FormatEquity.VisitAllAccumulates | format.h:204-210 | over any sequence of accounts, the log grows by one continuation line per accepted account, in order, and the total grows by the sum of their quantities |
| FormatEquity.VisitAllFlagsAccepted | format.h:204-207 | over any sequence of accounts, exactly the accepted accounts are flagged |
| FormatEquity.VisitAllKeepsBalance | format.h:204-210 | a traversal keeps the running total equal to the sum of the values written |
| FormatEquity.RunShape | format.h:183-210 | a full run writes the header, then the accepted accounts as continuation lines in order, then the counter-account at minus their sum |
| FormatEquity.RunBalances | format.h:183-210 | the context quantities written by a full run sum to zero, and the header is its only first line |
| FormatEquity.RunShowsEachAccountOnce | format.h:204-210 | when the display test rejects flagged accounts, the account lines of a run show pairwise distinct accounts, none displayed before the run |
| FormatEquity.RejectedAccountsChangeNothing | format.h:204-210 | a traversal of accounts the display test rejects leaves the total, the flags and the log untouched |

## Left out

- `parse_elements`, `format_elements`, `truncated`, `partial_account_name`,
  `display_account` and `disp_subaccounts_p` are only declared in `format.h`
  (lines 10-13, 78, 80, 148-158). The parser and the display test are function
  parameters. Rendering is the event log. The model has no width, truncation
  or account-collapsing rule. `disp_subaccounts_p` is not used by the
  drivers and has no counterpart.
- The display test is `display_account(account, disp_pred)` with `even_top`
  at its default. It receives the current displayed flags, because the account
  it inspects carries its flag. Whether it rejects already flagged accounts is
  decided in `display_account`, which is not part of this model. So account
  idempotence is proved under that hypothesis (`SkipsDisplayed`).
- Writes to `std::ostream` and the `flush()` calls on it (lines 116-118, 130,
  160-162, 201) are I/O. The log records which format was applied to which
  object, not the written text. Stream flushing has no counterpart.
- The rendered text is not connected to the log. `details_t` wraps the live
  ledger object (format.h:166, 206), so the text may also depend on ledger
  state reachable from it. That includes the displayed flags of the account
  and of its parents, which the drivers set right after rendering
  (format.h:167, 207). The model's contexts are value snapshots, and the
  model says nothing about the text.
- `std::time(NULL)` for the header date is a parameter (`now`).
- `balance_t` and amount arithmetic from `ledger.h` are reduced to one integer
  quantity per account. Multi-commodity balances are not modelled. The sum and
  the negation are exact.
- The value-expression evaluator is a function parameter (`Compute`). It
  receives the current result and returns the new one. Errors it raises are
  not modelled, and neither are errors raised by the format-string parser.
- Memory management is not modelled: recursive `delete` in the destructors,
  `std::auto_ptr` and the `NO_CLEANUP` variants. The element chain is an
  immutable datatype, so it cannot be cyclic.
- The `item_handler` / `item_predicate` classes from `walk.h` are not part of
  this model. Each driver keeps only its visit step (and `flush` for equity).
- Objects are identified as follows. Transactions and entries have abstract
  identities. Accounts are identified by their full name, which is unique in
  the account tree. Displayed flags are sets of these identities.
- `format_equity::flush` does not reset the total. Flushing twice writes the
  counter-account twice. The model keeps this: `Flush` can be applied again.
  The balancing theorem is about a run with one flush, which is how a
  traversal uses it.
- FormatEquity.RunBalances: the sum to zero is over the contexts' quantities
  (`account->value.quantity`, which is what the total adds). The amounts a
  format prints go through `compute_value` / `compute_total` and the
  configured value expression, which the model does not constrain. So the
  printed amounts are not proved to sum to zero.
- The `display_predicate = NULL` default argument of the `format_account` and
  `format_equity` constructors (format.h:144, 186) is not modelled. In C++ that
  default builds a `std::string` from a null pointer, which is undefined
  behaviour (libstdc++ throws `std::logic_error`), so neither driver has a
  working "no predicate" form. The model always takes a total display test.
- For `compute_value` / `compute_total`, the code leaves `result` untouched
  when no expression is set. It does not produce an empty value. The model
  follows the code.
