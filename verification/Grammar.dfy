/**
 * What the expression parser accepts (sohara-core/src/expr/parser.rs), stated on
 * token suffixes with one rule for all left-associative binary levels.
 *
 * Levels, loosest first: 0 `or`, 1 `and`, 2 `not`, 3 comparisons and `in`,
 * 4 `+ -`, 5 `* / %`, 6 atoms.
 */
module Grammar {
  import opened Json
  import opened Numbers
  import opened Ast
  import opened Lexer

  const UNARY := 2
  const ATOM := 6

  type Parsed = Option<(Expr, seq<Token>)>

  predicate IsBinary(level: nat) { level < ATOM && level != UNARY }

  /** The binary operator a token stands for after an operand. */
  function OpOf(t: Token): Option<BinOp> {
    match t
    case Ident(name) =>
      if name == "or" then Some(OrOp)
      else if name == "and" then Some(AndOp)
      else if name == "in" then Some(InOp)
      else None
    case Symbol(sym) =>
      match sym {
        case EqEq => Some(CmpBin(Eq))
        case NotEq => Some(CmpBin(Neq))
        case GtSym => Some(CmpBin(Gt))
        case GteSym => Some(CmpBin(Gte))
        case LtSym => Some(CmpBin(Lt))
        case LteSym => Some(CmpBin(Lte))
        case Plus => Some(AddOp)
        case Minus => Some(SubOp)
        case Star => Some(MulOp)
        case Slash => Some(DivOp)
        case Percent => Some(RemOp)
        case _ => None
      }
    case _ => None
  }

  function OpLevel(op: BinOp): (level: nat)
    ensures IsBinary(level)
  {
    match op
    case OrOp => 0
    case AndOp => 1
    case CmpBin(_) => 3
    case InOp => 3
    case AddOp => 4
    case SubOp => 4
    case _ => 5
  }

  /** Whether the first token is a binary operator of the level. */
  predicate OpAhead(level: nat, ts: seq<Token>) {
    ts != [] && OpOf(ts[0]).Some? && OpLevel(OpOf(ts[0]).value) == level
  }

  // ---------- number literals ----------

  /** The value of the digits before the dot. */
  function WholePart(text: string, acc: nat := 0): nat {
    if text == [] || !IsDigit(text[0]) then acc
    else WholePart(text[1..], 10 * acc + (text[0] as int - '0' as int))
  }

  /**
   * Whether the nearest double of a numeral is finite: the doubles overflow
   * from halfway between the largest one and 2^1024, which is an integer.
   */
  predicate FiniteNumeral(text: string) { WholePart(text) < Pow2(1024) - Pow2(970) }

  // ---------- the grammar ----------

  function ParseLevel(level: nat, ts: seq<Token>): (r: Parsed)
    requires level <= ATOM
    ensures r.Some? ==> |r.value.1| < |ts|
    decreases |ts|, ATOM + 1 - level
  {
    if level == ATOM then ParseAtom(ts)
    else if level == UNARY then
      if ts != [] && ts[0] == Ident("not") then
        var inner := ParseLevel(UNARY, ts[1..]);
        if inner.None? then None else Some((Not(inner.value.0), inner.value.1))
      else ParseLevel(level + 1, ts)
    else
      var first := ParseLevel(level + 1, ts);
      if first.None? then None else Tail(level, first.value.0, first.value.1)
  }

  /** The operators and operands of a binary level that follow a first operand. */
  function Tail(level: nat, lhs: Expr, ts: seq<Token>): (r: Parsed)
    requires IsBinary(level)
    ensures r.Some? ==> |r.value.1| <= |ts|
    decreases |ts|, 0
  {
    if !OpAhead(level, ts) then Some((lhs, ts))
    else
      var rhs := ParseLevel(level + 1, ts[1..]);
      if rhs.None? then None
      else Tail(level, Bin(OpOf(ts[0]).value, lhs, rhs.value.0), rhs.value.1)
  }

  function Expect(sym: Sym, r: Parsed): Parsed {
    if r.Some? && r.value.1 != [] && r.value.1[0] == Symbol(sym) then Some((r.value.0, r.value.1[1..])) else None
  }

  function ParseAtom(ts: seq<Token>): (r: Parsed)
    ensures r.Some? ==> |r.value.1| < |ts|
    decreases |ts|, 0
  {
    if ts == [] then None
    else
      var rest := ts[1..];
      match ts[0]
      case Number(numeral) => if FiniteNumeral(numeral) then Some((Lit(Num(numeral)), rest)) else None
      case Text(text) => Some((Lit(Str(text)), rest))
      case Ident(name) =>
        if name == "true" then Some((Lit(Bool(true)), rest))
        else if name == "false" then Some((Lit(Bool(false)), rest))
        else if name == "null" then Some((Lit(Null), rest))
        else if rest != [] && rest[0] == Symbol(LParen) then ParseCall(name, rest[1..])
        else PathFrom(name, rest)
      case Symbol(sym) =>
        match sym
        case Dollar =>
          if |rest| >= 2 && rest[0] == Symbol(Dot) && rest[1].Ident? then PathFrom(rest[1].name, rest[2..]) else None
        case LBracket =>
          var items := ParseItems(RBracket, rest);
          if items.None? then None else Some((List(items.value.0), items.value.1))
        case LParen => Expect(RParen, ParseLevel(0, rest))
        case _ => None
  }

  /** Call arguments after the opening parenthesis; `env` and `var` take one name or string. */
  function ParseCall(name: string, ts: seq<Token>): (r: Parsed)
    ensures r.Some? ==> |r.value.1| < |ts|
    decreases |ts|, ATOM + 4
  {
    if name == "env" || name == "var" then
      if ts != [] && (ts[0].Ident? || ts[0].Text?) then
        var arg := if ts[0].Ident? then ts[0].name else ts[0].text;
        Expect(RParen, Some((Call(name, [Lit(Str(arg))]), ts[1..])))
      else None
    else
      var items := ParseItems(RParen, ts);
      if items.None? then None else Some((Call(name, items.value.0), items.value.1))
  }

  /** A comma-separated, possibly empty list up to and including `close`. */
  function ParseItems(close: Sym, ts: seq<Token>): (r: Option<(seq<Expr>, seq<Token>)>)
    ensures r.Some? ==> |r.value.1| < |ts|
    decreases |ts|, ATOM + 3
  {
    if ts != [] && ts[0] == Symbol(close) then Some(([], ts[1..])) else ParseMore(close, ts)
  }

  function ParseMore(close: Sym, ts: seq<Token>): (r: Option<(seq<Expr>, seq<Token>)>)
    ensures r.Some? ==> |r.value.1| < |ts|
    decreases |ts|, ATOM + 2
  {
    var item := ParseLevel(0, ts);
    if item.None? || item.value.1 == [] then None
    else
      var rest := item.value.1[1..];
      if item.value.1[0] == Symbol(Comma) then
        var more := ParseMore(close, rest);
        if more.None? then None else Some(([item.value.0] + more.value.0, more.value.1))
      else if item.value.1[0] == Symbol(close) then Some(([item.value.0], rest))
      else None
  }

  /** The `.name` segments that follow a first segment. */
  function Segments(ts: seq<Token>): (r: Option<(seq<string>, seq<Token>)>)
    ensures r.Some? ==> |r.value.1| <= |ts|
    decreases |ts|
  {
    if ts == [] || ts[0] != Symbol(Dot) then Some(([], ts))
    else if |ts| < 2 || !ts[1].Ident? then None
    else
      var more := Segments(ts[2..]);
      if more.None? then None else Some(([ts[1].name] + more.value.0, more.value.1))
  }

  function PathFrom(first: string, ts: seq<Token>): (r: Parsed)
    ensures r.Some? ==> |r.value.1| <= |ts|
  {
    var more := Segments(ts);
    if more.None? then None else Some((Path([first] + more.value.0), more.value.1))
  }

  /** The expression a whole token stream denotes: nothing may be left over. */
  function ParseTokens(ts: seq<Token>): Option<Expr> {
    var r := ParseLevel(0, ts);
    if r.Some? && r.value.1 == [] then Some(r.value.0) else None
  }

  /** The expression a text denotes. */
  function Parse(input: string): Option<Expr> {
    var ts := Tokenize(input);
    if ts.None? then None else ParseTokens(ts.value)
  }
}
