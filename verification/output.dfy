/** The output stream, seen as the log of render calls made on it.

    `format_t::format_elements(out, details)` writes the text of one format
    applied to one ledger object. The log records which of the driver's
    formats was applied to which object; it does not record the text. */
module Output {
  import opened Ledger

  datatype Event =
      /** rendered with a driver's first-line format */
    | FirstLine(details: Details)
      /** rendered with a driver's next-lines (continuation) format */
    | NextLine(details: Details)
      /** rendered with the single format of the account report */
    | Line(details: Details)

  type Log = seq<Event>

  /** Which of a driver's formats a render call uses. */
  datatype Role = FirstLineFormat | NextLinesFormat | AccountFormat

  /** The event of rendering `d` with the format playing `role`. */
  function Render(role: Role, d: Details): (e: Event)
    ensures e.details == d
    ensures e.FirstLine? <==> role == FirstLineFormat
    ensures e.NextLine? <==> role == NextLinesFormat
  {
    match role
    case FirstLineFormat => FirstLine(d)
    case NextLinesFormat => NextLine(d)
    case AccountFormat => Line(d)
  }

  /** One line per account, in order, all with the same format. */
  function AccountLines(role: Role, accts: seq<Account>): (log: Log)
    ensures |log| == |accts|
  {
    seq(|accts|, i requires 0 <= i < |accts| => Render(role, OfAccount(accts[i])))
  }

  lemma AccountLinesCons(role: Role, a: Account, rest: seq<Account>)
    ensures AccountLines(role, [a] + rest) == [Render(role, OfAccount(a))] + AccountLines(role, rest)
  {
    var all := [a] + rest;
    assert all[0] == a;
    forall i | 0 <= i < |rest| ensures all[i + 1] == rest[i] { }
  }
}
