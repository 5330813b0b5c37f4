/** The pure parts of `format_t` and `element_t`: the element record and its
    defaults, `reset`, and the "configured or absent" dispatch of the two
    process-wide value expressions.

    Parsing a format string (`parse_elements`) and rendering elements
    (`format_elements`) are only declared in the header; they appear here as
    parameters, never as definitions. */
module Format {
  import opened Wrappers
  import opened Ledger

  /** The C++ `unsigned int` used for the element widths. */
  newtype U32 = x: int | 0 <= x < 0x1_0000_0000

  /** `element_t::kind_t`; `Literal` is the C++ `STRING`. */
  datatype Kind =
    | Literal | ValueExpr | DateString | Cleared | Code | Payee
    | AccountName | AccountFullname | OptAmount | Value | Total | Spacer

  /** A compiled value expression. Its evaluator is outside this model; an
      expression is identified by the text it was compiled from. */
  datatype Expr = Expr(source: string)

  /** One node of the singly linked element chain; `next` is the owned
      successor. Being a datatype, a chain can never be cyclic. */
  datatype Element = Element(
    alignLeft: bool,
    minWidth: U32,
    maxWidth: U32,
    kind: Kind,
    chars: string,
    valExpr: Option<Expr>,
    next: Option<Element>)

  /** The number of elements in the chain starting at `e`. */
  function Length(e: Element): (n: nat)
    ensures n >= 1
    ensures e.next.None? <==> n == 1
  {
    match e.next
    case None => 1
    case Some(rest) => 1 + Length(rest)
  }

  /** `element_t()`: an unaligned, unbounded, empty literal standing alone. */
  function DefaultElement(): (e: Element)
    ensures e.kind == Literal && e.chars == ""
    ensures !e.alignLeft && e.minWidth == 0 && e.maxWidth == 0
    ensures e.valExpr.None? && e.next.None? && Length(e) == 1
  {
    Element(false, 0, 0, Literal, "", None, None)
  }

  /** The format-string compiler `parse_elements`; `None` is an empty chain. */
  type Parser = string -> Option<Element>

  /** A compiled format: the head of its element chain. */
  datatype FormatT = FormatT(elements: Option<Element>)

  /** `format_t::reset`: the old chain is dropped and replaced by the chain
      compiled from the new format string. */
  function Reset(f: FormatT, fmt: string, parse: Parser): (r: FormatT)
    ensures r.elements == parse(fmt)
    ensures forall g: FormatT {:trigger g.elements} :: g.elements == parse(fmt) ==> r == g
  {
    FormatT(parse(fmt))
  }

  /** `format_t(fmt)`: start from no elements, then `reset`. */
  function NewFormat(fmt: string, parse: Parser): (r: FormatT)
    ensures r.elements == parse(fmt)
  {
    Reset(FormatT(None), fmt, parse)
  }

  /** Resetting does not depend on what the format held before, and a second
      reset with the same string changes nothing. */
  lemma ResetForgetsPrevious(f: FormatT, g: FormatT, fmt: string, parse: Parser)
    ensures Reset(f, fmt, parse) == Reset(g, fmt, parse) == NewFormat(fmt, parse)
    ensures Reset(Reset(f, fmt, parse), fmt, parse) == Reset(f, fmt, parse)
  {
  }

  /** The external evaluator `value_expr_t::compute(result, details)`: it
      receives the current `result` and returns its new value. */
  type Compute = (Expr, Balance, Details) -> Balance

  /** The two static expressions of `format_t`; `None` is a null `auto_ptr`. */
  datatype Config = Config(valueExpr: Option<Expr>, totalExpr: Option<Expr>)

  /** What a dispatch did: the final `result` and the expressions it invoked. */
  datatype Evaluation = Evaluation(result: Balance, calls: seq<Expr>)

  /** `format_t::compute_value`: when no value expression is configured the
      result is left as it was and nothing is called; otherwise the configured
      expression is invoked exactly once and decides the result. */
  function ComputeValue(cfg: Config, compute: Compute, result: Balance, details: Details): (ev: Evaluation)
    ensures |ev.calls| == (if cfg.valueExpr.Some? then 1 else 0)
    ensures cfg.valueExpr.None? ==> ev.result == result
    ensures cfg.valueExpr.Some? ==>
      ev.calls[0] == cfg.valueExpr.value && ev.result == compute(ev.calls[0], result, details)
  {
    match cfg.valueExpr
    case None => Evaluation(result, [])
    case Some(e) => Evaluation(compute(e, result, details), [e])
  }

  /** `format_t::compute_total`: the same dispatch on the total expression. */
  function ComputeTotal(cfg: Config, compute: Compute, result: Balance, details: Details): (ev: Evaluation)
    ensures |ev.calls| == (if cfg.totalExpr.Some? then 1 else 0)
    ensures cfg.totalExpr.None? ==> ev.result == result
    ensures cfg.totalExpr.Some? ==>
      ev.calls[0] == cfg.totalExpr.value && ev.result == compute(ev.calls[0], result, details)
  {
    match cfg.totalExpr
    case None => Evaluation(result, [])
    case Some(e) => Evaluation(compute(e, result, details), [e])
  }

  /** The two dispatches read disjoint halves of the configuration: each is
      blind to the other's expression, and they agree when both hold the same
      expression. */
  lemma DispatchesAreIndependent(cfg: Config, e: Option<Expr>, compute: Compute, result: Balance, details: Details)
    ensures ComputeValue(cfg.(totalExpr := e), compute, result, details)
         == ComputeValue(cfg, compute, result, details)
    ensures ComputeTotal(cfg.(valueExpr := e), compute, result, details)
         == ComputeTotal(cfg, compute, result, details)
    ensures cfg.valueExpr == cfg.totalExpr ==>
      ComputeValue(cfg, compute, result, details) == ComputeTotal(cfg, compute, result, details)
  {
  }
}
