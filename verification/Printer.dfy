/**
 * Printing expressions with parentheses only where precedence and left
 * associativity need them, and the round trip through the parser.
 *
 * `Printable` describes exactly the expressions the parser can produce:
 * `ParsePrint` shows each of them is the parse of its printed form, and
 * `ParsedIffPrintable` shows the parser produces nothing else.
 */
module Printer {
  import opened Json
  import opened Ast
  import opened Lexer
  import opened Grammar

  // ---------- the printer ----------

  function OpToken(op: BinOp): Token {
    match op
    case OrOp => Ident("or")
    case AndOp => Ident("and")
    case InOp => Ident("in")
    case CmpBin(Eq) => Symbol(EqEq)
    case CmpBin(Neq) => Symbol(NotEq)
    case CmpBin(Gt) => Symbol(GtSym)
    case CmpBin(Gte) => Symbol(GteSym)
    case CmpBin(Lt) => Symbol(LtSym)
    case CmpBin(Lte) => Symbol(LteSym)
    case AddOp => Symbol(Plus)
    case SubOp => Symbol(Minus)
    case MulOp => Symbol(Star)
    case DivOp => Symbol(Slash)
    case RemOp => Symbol(Percent)
  }

  /** The level at which an expression can stand without parentheses. */
  function LevelOf(e: Expr): nat {
    if e.Bin? then OpLevel(e.op) else if e.Not? then UNARY else ATOM
  }

  /** The tokens of `e` where an operand of level `ctx` is wanted. */
  function Tokens(e: Expr, ctx: nat): seq<Token>
    decreases e, 1
  {
    if LevelOf(e) < ctx then [Symbol(LParen)] + Bare(e) + [Symbol(RParen)] else Bare(e)
  }

  function Bare(e: Expr): seq<Token>
    decreases e, 0
  {
    match e
      case Bin(op, l, r) => Tokens(l, OpLevel(op)) + ([OpToken(op)] + Tokens(r, OpLevel(op) + 1))
      case Not(inner) => [Ident("not")] + Tokens(inner, UNARY)
      case Path(segments) => [Symbol(Dollar)] + SegmentTokens(segments)
      case List(items) => [Symbol(LBracket)] + (ItemTokens(items) + [Symbol(RBracket)])
      case Call(name, args) => [Ident(name), Symbol(LParen)] + (ItemTokens(args) + [Symbol(RParen)])
      case Lit(Num(numeral)) => [Number(numeral)]
      case Lit(Str(text)) => [Text(text)]
      case Lit(Bool(b)) => [Ident(if b then "true" else "false")]
      case _ => [Ident("null")]
  }

  function SegmentTokens(segments: seq<string>): seq<Token> {
    if segments == [] then [] else [Symbol(Dot), Ident(segments[0])] + SegmentTokens(segments[1..])
  }

  function ItemTokens(items: seq<Expr>): seq<Token>
    decreases items, 2
  {
    if items == [] then []
    else Tokens(items[0], 0) + (if |items| == 1 then [] else [Symbol(Comma)] + ItemTokens(items[1..]))
  }

  function Print(e: Expr): string { Render(Tokens(e, 0)) }

  // ---------- the printable expressions ----------

  /**
   * Whether the parser can produce `e` as an operand of level `ctx`. The parser
   * tests for the keyword `not` only where a `not` expression may start, so a
   * call of a function named `not` is possible exactly where it is not `first`
   * in such an expression, as in `1 + not(x)`.
   */
  predicate Printable(e: Expr, ctx: nat, first: bool)
    decreases e, 1
  {
    PrintableBare(e, first || LevelOf(e) < ctx)
  }

  predicate PrintableBare(e: Expr, first: bool)
    decreases e, 0
  {
    match e
      case Bin(op, l, r) =>
        Printable(l, OpLevel(op), first) && Printable(r, OpLevel(op) + 1, OpLevel(op) < UNARY)
      case Not(inner) => Printable(inner, UNARY, true)
      case Path(segments) => segments != [] && forall i :: 0 <= i < |segments| ==> WellFormedIdent(segments[i])
      case List(items) => PrintableAll(items)
      case Call(name, args) =>
        && WellFormedIdent(name) && name != "true" && name != "false" && name != "null"
        && (name == "not" ==> !first)
        && if name == "env" || name == "var" then |args| == 1 && args[0].Lit? && args[0].value.Str?
           else PrintableAll(args)
      case Lit(v) =>
        v == Null || v.Bool? || v.Str? || (v.Num? && WellFormedNumeral(v.numeral) && FiniteNumeral(v.numeral))
  }

  predicate PrintableAll(items: seq<Expr>)
    decreases items, 2
  {
    items == [] || (Printable(items[0], 0, true) && PrintableAll(items[1..]))
  }

  // ---------- printing then parsing ----------

  /** No token of `after` continues an operand of a level above `level`. */
  predicate Stops(level: nat, after: seq<Token>) {
    after == [] || (after[0] != Symbol(Dot) && (OpOf(after[0]).Some? ==> OpLevel(OpOf(after[0]).value) <= level))
  }

  /** What the parser makes of an operand `e` it has read, at `level`. */
  function Continue(level: nat, e: Expr, after: seq<Token>): Parsed {
    if IsBinary(level) then Tail(level, e, after) else Some((e, after))
  }

  lemma OpOfOpToken(op: BinOp)
    ensures OpOf(OpToken(op)) == Some(op) && OpToken(op) != Symbol(Dot)
  {
  }

  /** Only a `not` expression, or a call of `not` that is not first, starts with the word. */
  lemma {:induction false} FirstTokenNotNot(e: Expr, ctx: nat)
    requires Printable(e, ctx, true) && (LevelOf(e) < ctx || LevelOf(e) > UNARY)
    ensures Tokens(e, ctx) != [] && Tokens(e, ctx)[0] != Ident("not")
  {
    if LevelOf(e) >= ctx && e.Bin? {
      FirstTokenNotNot(e.lhs, LevelOf(e));
      assert Tokens(e, ctx) == Bare(e);
    }
  }

  lemma StopsContinue(level: nat, e: Expr, after: seq<Token>)
    requires Stops(level, after)
    ensures Stops(level + 1, after) && Continue(level + 1, e, after) == Some((e, after))
  {
  }

  lemma Descend(level: nat, ts: seq<Token>, e: Expr, after: seq<Token>)
    requires level < ATOM && Stops(level, after)
    requires level == UNARY ==> ts != [] && ts[0] != Ident("not")
    requires ParseLevel(level + 1, ts) == Continue(level + 1, e, after)
    ensures ParseLevel(level, ts) == Continue(level, e, after)
  {
    StopsContinue(level, e, after);
  }

  lemma TailStep(level: nat, op: BinOp, l: Expr, r: Expr, right: seq<Token>, after: seq<Token>)
    requires OpLevel(op) == level && ParseLevel(level + 1, right) == Some((r, after))
    ensures Tail(level, l, [OpToken(op)] + right) == Tail(level, Bin(op, l, r), after)
  {
    OpOfOpToken(op);
    assert ([OpToken(op)] + right)[1..] == right;
  }

  lemma OpStops(op: BinOp, right: seq<Token>)
    ensures Stops(OpLevel(op), [OpToken(op)] + right)
  {
    OpOfOpToken(op);
  }

  lemma PunctuationStops(level: nat, sym: Sym, rest: seq<Token>)
    requires sym == RParen || sym == RBracket || sym == Comma
    ensures Stops(level, [Symbol(sym)] + rest)
    ensures IsBinary(level) ==> forall e :: Tail(level, e, [Symbol(sym)] + rest) == Some((e, [Symbol(sym)] + rest))
  {
  }

  /** Reading back a printed operand: the parser gets `e` and goes on with what follows. */
  lemma {:induction false} ParsePrinted(level: nat, e: Expr, first: bool, after: seq<Token>)
    requires level <= ATOM && Printable(e, level, first) && Stops(level, after)
    requires level <= UNARY ==> first
    ensures ParseLevel(level, Tokens(e, level) + after) == Continue(level, e, after)
    decreases e, if LevelOf(e) < level then 1 else 0, ATOM + 1 - level
  {
    if LevelOf(e) != level {
      if level == ATOM {
        ParsePrintedParens(e, after);
      } else {
        if level == UNARY {
          FirstTokenNotNot(e, level);
          assert (Tokens(e, level) + after)[0] == Tokens(e, level)[0];
        }
        ParsePrinted(level + 1, e, first, after);
        assert Tokens(e, level) == Tokens(e, level + 1);
        Descend(level, Tokens(e, level) + after, e, after);
      }
    } else if level == ATOM {
      ParsePrintedAtom(e, first, after);
    } else if level == UNARY {
      ParsePrinted(UNARY, e.inner, true, after);
      assert Tokens(e, level) == Bare(e) == [Ident("not")] + Tokens(e.inner, UNARY);
      assert (Tokens(e, level) + after)[1..] == Tokens(e.inner, UNARY) + after;
    } else {
      ParsePrintedBinary(level, e, first, after);
    }
  }

  lemma {:induction false} ParsePrintedBinary(level: nat, e: Expr, first: bool, after: seq<Token>)
    requires level <= ATOM && Printable(e, level, first) && Stops(level, after)
    requires e.Bin? && LevelOf(e) == level && (level <= UNARY ==> first)
    ensures ParseLevel(level, Tokens(e, level) + after) == Tail(level, e, after)
    decreases e, 0, 0
  {
    var Bin(op, l, r) := e;
    var right := Tokens(r, level + 1) + after;
    assert PrintableBare(e, first);
    OpStops(op, right);
    ParsePrinted(level, l, first, [OpToken(op)] + right);
    StopsContinue(level, r, after);
    ParsePrinted(level + 1, r, level < UNARY, after);
    TailStep(level, op, l, r, right, after);
    BinaryTokens(op, l, r, after);
  }

  lemma BinaryTokens(op: BinOp, l: Expr, r: Expr, after: seq<Token>)
    ensures var level := OpLevel(op);
            Tokens(Bin(op, l, r), level) + after
              == Tokens(l, level) + ([OpToken(op)] + (Tokens(r, level + 1) + after))
  {
    var e, level := Bin(op, l, r), OpLevel(op);
    assert Tokens(e, level) == Bare(e) == Tokens(l, level) + ([OpToken(op)] + Tokens(r, level + 1));
  }

  lemma {:induction false} ParsePrintedParens(e: Expr, after: seq<Token>)
    requires Printable(e, ATOM, true) && LevelOf(e) < ATOM
    ensures ParseLevel(ATOM, Tokens(e, ATOM) + after) == Some((e, after))
    decreases e, 0, ATOM + 2
  {
    var closed := [Symbol(RParen)] + after;
    PunctuationStops(0, RParen, after);
    ParsePrinted(0, e, true, closed);
    ParenStep(Tokens(e, 0), e, after);
    assert Tokens(e, ATOM) + after == [Symbol(LParen)] + (Tokens(e, 0) + closed);
  }

  lemma ParenStep(inner: seq<Token>, e: Expr, after: seq<Token>)
    requires ParseLevel(0, inner + ([Symbol(RParen)] + after)) == Some((e, [Symbol(RParen)] + after))
    ensures ParseAtom([Symbol(LParen)] + (inner + ([Symbol(RParen)] + after))) == Some((e, after))
  {
    var closed := [Symbol(RParen)] + after;
    var ts := [Symbol(LParen)] + (inner + closed);
    assert ts[1..] == inner + closed;
    assert closed[1..] == after;
  }

  lemma {:induction false} ParsePrintedAtom(e: Expr, first: bool, after: seq<Token>)
    requires Printable(e, ATOM, first) && LevelOf(e) == ATOM && Stops(ATOM, after)
    ensures ParseLevel(ATOM, Tokens(e, ATOM) + after) == Some((e, after))
    decreases e, 0, 0
  {
    assert PrintableBare(e, first) && Tokens(e, ATOM) == Bare(e);
    match e
    case Path(segments) =>
      ParsePrintedPath(segments, after);
    case List(items) =>
      ParsePrintedItems(RBracket, items, after);
      ListStep(items, after);
    case Call(name, args) =>
      if name == "env" || name == "var" {
        ParsePrintedNameCall(name, args, after);
      } else {
        ParsePrintedItems(RParen, args, after);
      }
      CallStep(name, args, after);
    case Lit(v) =>
      ParsePrintedLit(v, after);
  }

  lemma ListStep(items: seq<Expr>, after: seq<Token>)
    requires ParseItems(RBracket, ItemTokens(items) + [Symbol(RBracket)] + after) == Some((items, after))
    ensures ParseAtom(Bare(List(items)) + after) == Some((List(items), after))
  {
    var rest := ItemTokens(items) + [Symbol(RBracket)] + after;
    assert Bare(List(items)) + after == [Symbol(LBracket)] + rest;
    assert ([Symbol(LBracket)] + rest)[1..] == rest;
  }

  lemma CallStep(name: string, args: seq<Expr>, after: seq<Token>)
    requires name != "true" && name != "false" && name != "null"
    ensures ParseAtom(Bare(Call(name, args)) + after)
         == ParseCall(name, ItemTokens(args) + [Symbol(RParen)] + after)
  {
    var rest := ItemTokens(args) + [Symbol(RParen)] + after;
    assert Bare(Call(name, args)) + after == [Ident(name)] + ([Symbol(LParen)] + rest);
    CallStarts(name, rest);
  }

  lemma CallStarts(name: string, rest: seq<Token>)
    requires name != "true" && name != "false" && name != "null"
    ensures ParseAtom([Ident(name)] + ([Symbol(LParen)] + rest)) == ParseCall(name, rest)
  {
    var ts := [Ident(name)] + ([Symbol(LParen)] + rest);
    assert ts[1..] == [Symbol(LParen)] + rest;
    assert ts[1..][1..] == rest;
  }

  lemma ParsePrintedLit(v: Value, after: seq<Token>)
    requires PrintableBare(Lit(v), false)
    ensures ParseAtom(Bare(Lit(v)) + after) == Some((Lit(v), after))
  {
    assert (Bare(Lit(v)) + after)[1..] == after;
  }

  lemma ParsePrintedPath(segments: seq<string>, after: seq<Token>)
    requires segments != [] && Stops(ATOM, after)
    ensures ParseAtom(Bare(Path(segments)) + after) == Some((Path(segments), after))
  {
    var more := SegmentTokens(segments[1..]) + after;
    assert Bare(Path(segments)) + after == [Symbol(Dollar), Symbol(Dot), Ident(segments[0])] + more;
    SegmentsPrinted(segments[1..], after);
    DollarStep(segments, more, after);
  }

  lemma DollarStep(segments: seq<string>, more: seq<Token>, after: seq<Token>)
    requires segments != [] && Segments(more) == Some((segments[1..], after))
    ensures ParseAtom([Symbol(Dollar), Symbol(Dot), Ident(segments[0])] + more) == Some((Path(segments), after))
  {
    var ts := [Symbol(Dollar), Symbol(Dot), Ident(segments[0])] + more;
    assert ts[1..][2..] == more;
    assert [segments[0]] + segments[1..] == segments;
  }

  lemma ParsePrintedNameCall(name: string, args: seq<Expr>, after: seq<Token>)
    requires name == "env" || name == "var"
    requires |args| == 1 && args[0].Lit? && args[0].value.Str?
    ensures ParseCall(name, ItemTokens(args) + [Symbol(RParen)] + after) == Some((Call(name, args), after))
  {
    var ts := ItemTokens(args) + [Symbol(RParen)] + after;
    assert Bare(args[0]) == [Text(args[0].value.text)];
    assert Tokens(args[0], 0) == Bare(args[0]);
    assert ItemTokens(args) == Tokens(args[0], 0) + [];
    assert ts[1..] == [Symbol(RParen)] + after;
    assert ts[1..][1..] == after;
    assert args == [Lit(Str(args[0].value.text))];
  }

  lemma {:induction false} SegmentsPrinted(segments: seq<string>, after: seq<Token>)
    requires Stops(ATOM, after)
    ensures Segments(SegmentTokens(segments) + after) == Some((segments, after))
  {
    var ts := SegmentTokens(segments) + after;
    if segments == [] {
      assert ts == after;
    } else {
      SegmentsPrinted(segments[1..], after);
      assert ts[2..] == SegmentTokens(segments[1..]) + after;
      assert [segments[0]] + segments[1..] == segments;
    }
  }

  lemma {:induction false} ParsePrintedItems(close: Sym, items: seq<Expr>, after: seq<Token>)
    requires PrintableAll(items) && (close == RParen || close == RBracket)
    ensures ParseItems(close, ItemTokens(items) + [Symbol(close)] + after) == Some((items, after))
    decreases items, 2, 0
  {
    var ts := ItemTokens(items) + [Symbol(close)] + after;
    if items == [] {
      assert ts[1..] == after;
    } else {
      ParsePrintedMore(close, items, after);
      StartOfItem(items[0]);
      assert ts[0] == Tokens(items[0], 0)[0];
    }
  }

  /** A printed operand never starts with a closing symbol. */
  lemma {:induction false} StartOfItem(e: Expr, ctx: nat := 0)
    ensures Tokens(e, ctx) != [] && Tokens(e, ctx)[0] != Symbol(RParen) && Tokens(e, ctx)[0] != Symbol(RBracket)
  {
    if LevelOf(e) >= ctx && e.Bin? {
      StartOfItem(e.lhs, LevelOf(e));
      assert Tokens(e, ctx) == Bare(e);
    }
  }

  lemma {:induction false} ParsePrintedMore(close: Sym, items: seq<Expr>, after: seq<Token>)
    requires items != [] && PrintableAll(items) && (close == RParen || close == RBracket)
    ensures ParseMore(close, ItemTokens(items) + [Symbol(close)] + after) == Some((items, after))
    decreases items, 1, 0
  {
    var ts := ItemTokens(items) + [Symbol(close)] + after;
    ItemTokensSplit(items, [Symbol(close)] + after);
    assert ts == ItemTokens(items) + ([Symbol(close)] + after);
    if |items| == 1 {
      ParsePrintedItem(items, close, after);
      LastItemStep(close, ts, items[0], after);
      assert items == [items[0]];
    } else {
      var tail := ItemTokens(items[1..]) + [Symbol(close)] + after;
      assert tail == ItemTokens(items[1..]) + ([Symbol(close)] + after);
      ParsePrintedItem(items, Comma, tail);
      ParsePrintedMore(close, items[1..], after);
      ItemStep(close, ts, items[0], tail);
      assert [items[0]] + items[1..] == items;
    }
  }

  lemma ItemTokensSplit(items: seq<Expr>, rest: seq<Token>)
    requires items != []
    ensures ItemTokens(items) + rest ==
              Tokens(items[0], 0) +
              (if |items| == 1 then rest else [Symbol(Comma)] + (ItemTokens(items[1..]) + rest))
  {
  }

  lemma {:induction false} ParsePrintedItem(items: seq<Expr>, sym: Sym, rest: seq<Token>)
    requires items != [] && PrintableAll(items) && (sym == RParen || sym == RBracket || sym == Comma)
    ensures ParseLevel(0, Tokens(items[0], 0) + ([Symbol(sym)] + rest)) == Some((items[0], [Symbol(sym)] + rest))
    decreases items, 0, 0
  {
    PunctuationStops(0, sym, rest);
    ParsePrinted(0, items[0], true, [Symbol(sym)] + rest);
  }

  lemma LastItemStep(close: Sym, ts: seq<Token>, item: Expr, after: seq<Token>)
    requires close != Comma && ParseLevel(0, ts) == Some((item, [Symbol(close)] + after))
    ensures ParseMore(close, ts) == Some(([item], after))
  {
    assert ([Symbol(close)] + after)[1..] == after;
  }

  lemma ItemStep(close: Sym, ts: seq<Token>, item: Expr, tail: seq<Token>)
    requires ParseLevel(0, ts) == Some((item, [Symbol(Comma)] + tail)) && ParseMore(close, tail).Some?
    ensures var more := ParseMore(close, tail).value;
            ParseMore(close, ts) == Some(([item] + more.0, more.1))
  {
    assert ([Symbol(Comma)] + tail)[1..] == tail;
  }

  /** Every expression the parser can produce is the parse of its printed tokens. */
  lemma ParseTokensPrinted(e: Expr)
    requires Printable(e, 0, true)
    ensures ParseTokens(Tokens(e, 0)) == Some(e)
  {
    ParsePrinted(0, e, true, []);
    assert Tokens(e, 0) + [] == Tokens(e, 0);
  }

  // ---------- parsing then printing ----------

  /** What may stand first may stand anywhere. */
  lemma {:induction false} PrintableNotFirst(e: Expr)
    requires PrintableBare(e, true)
    ensures PrintableBare(e, false)
  {
    if e.Bin? && LevelOf(e.lhs) >= LevelOf(e) { PrintableNotFirst(e.lhs); }
  }

  /** An operand of a level is one of every looser level. */
  lemma LooserPrintable(e: Expr, level: nat, first: bool)
    requires Printable(e, level + 1, first)
    ensures Printable(e, level, first)
  {
    if LevelOf(e) == level && !first { PrintableNotFirst(e); }
  }

  lemma {:induction false} LevelPrintable(level: nat, ts: seq<Token>)
    requires level <= ATOM && WellFormedTokens(ts) && ParseLevel(level, ts).Some?
    ensures ts != []
    ensures var (e, rest) := ParseLevel(level, ts).value;
            WellFormedTokens(rest) && Printable(e, level, level <= UNARY || ts[0] != Ident("not"))
    decreases |ts|, ATOM + 1 - level
  {
    if level == ATOM {
      AtomPrintable(ts);
    } else if level == UNARY && ts != [] && ts[0] == Ident("not") {
      LevelPrintable(UNARY, ts[1..]);
    } else {
      LevelPrintable(level + 1, ts);
      var (e, rest) := ParseLevel(level + 1, ts).value;
      var first := level <= UNARY || ts[0] != Ident("not");
      if level == 1 { assert Printable(e, level + 1, true); }
      LooserPrintable(e, level, first);
      if level != UNARY { TailPrintable(level, e, rest, first); }
    }
  }

  lemma {:induction false} TailPrintable(level: nat, lhs: Expr, ts: seq<Token>, first: bool)
    requires IsBinary(level) && WellFormedTokens(ts) && Printable(lhs, level, first)
    requires Tail(level, lhs, ts).Some?
    ensures var (e, rest) := Tail(level, lhs, ts).value;
            WellFormedTokens(rest) && Printable(e, level, first)
    decreases |ts|, 0
  {
    if OpAhead(level, ts) {
      LevelPrintable(level + 1, ts[1..]);
      var (rhs, rest) := ParseLevel(level + 1, ts[1..]).value;
      OperandPrintable(rhs, level, ts[1..][0] != Ident("not"));
      TailPrintable(level, Bin(OpOf(ts[0]).value, lhs, rhs), rest, first);
    }
  }

  lemma OperandPrintable(e: Expr, level: nat, first: bool)
    requires IsBinary(level) && Printable(e, level + 1, level + 1 <= UNARY || first)
    ensures Printable(e, level + 1, level < UNARY)
  {
    if level > UNARY && first && LevelOf(e) > level { PrintableNotFirst(e); }
  }

  lemma {:induction false} AtomPrintable(ts: seq<Token>)
    requires WellFormedTokens(ts) && ParseAtom(ts).Some?
    ensures ts != []
    ensures var (e, rest) := ParseAtom(ts).value;
            WellFormedTokens(rest) && Printable(e, ATOM, ts[0] != Ident("not"))
    decreases |ts|, 0
  {
    var rest := ts[1..];
    if ts[0] == Symbol(LBracket) {
      ItemsPrintable(RBracket, rest);
    } else if ts[0] == Symbol(LParen) {
      LevelPrintable(0, rest);
      ParensPrintable(ParseLevel(0, rest).value.0, true);
    } else if ts[0] == Symbol(Dollar) {
      SegmentsWellFormed(rest[2..]);
    } else if ts[0].Ident? && rest != [] && rest[0] == Symbol(LParen) {
      if ParseAtom(ts) == ParseCall(ts[0].name, rest[1..]) { CallPrintable(ts[0].name, rest[1..]); }
    } else if ts[0].Ident? {
      if ParseAtom(ts) == PathFrom(ts[0].name, rest) { SegmentsWellFormed(rest); }
    }
  }

  lemma ParensPrintable(e: Expr, first: bool)
    requires Printable(e, 0, true)
    ensures Printable(e, ATOM, first)
  {
  }

  lemma {:induction false} CallPrintable(name: string, ts: seq<Token>)
    requires WellFormedTokens(ts) && ParseCall(name, ts).Some?
    requires WellFormedIdent(name) && name != "true" && name != "false" && name != "null"
    ensures var (e, rest) := ParseCall(name, ts).value;
            WellFormedTokens(rest) && Printable(e, ATOM, name != "not")
    decreases |ts|, ATOM + 4
  {
    if name != "env" && name != "var" { ItemsPrintable(RParen, ts); }
  }

  lemma {:induction false} ItemsPrintable(close: Sym, ts: seq<Token>)
    requires WellFormedTokens(ts) && ParseItems(close, ts).Some?
    ensures var (items, rest) := ParseItems(close, ts).value;
            WellFormedTokens(rest) && PrintableAll(items)
    decreases |ts|, ATOM + 3
  {
    if !(ts != [] && ts[0] == Symbol(close)) { MorePrintable(close, ts); }
  }

  lemma {:induction false} MorePrintable(close: Sym, ts: seq<Token>)
    requires WellFormedTokens(ts) && ParseMore(close, ts).Some?
    ensures var (items, rest) := ParseMore(close, ts).value;
            WellFormedTokens(rest) && PrintableAll(items)
    decreases |ts|, ATOM + 2
  {
    LevelPrintable(0, ts);
    var (item, rest) := ParseLevel(0, ts).value;
    if rest[0] == Symbol(Comma) {
      MorePrintable(close, rest[1..]);
      var more := ParseMore(close, rest[1..]).value.0;
      assert ([item] + more)[1..] == more;
    } else {
      assert [item][1..] == [];
    }
  }

  lemma {:induction false} SegmentsWellFormed(ts: seq<Token>)
    requires WellFormedTokens(ts) && Segments(ts).Some?
    ensures var (names, rest) := Segments(ts).value;
            WellFormedTokens(rest) && forall i :: 0 <= i < |names| ==> WellFormedIdent(names[i])
    decreases |ts|
  {
    if ts != [] && ts[0] == Symbol(Dot) {
      SegmentsWellFormed(ts[2..]);
      assert WellFormedToken(ts[1]);
    }
  }

  // ---------- printed tokens are tokens ----------

  lemma {:induction false} TokensWellFormed(e: Expr, ctx: nat, first: bool)
    requires Printable(e, ctx, first)
    ensures WellFormedTokens(Tokens(e, ctx))
    decreases e, 1
  {
    BareWellFormed(e, first || LevelOf(e) < ctx);
  }

  lemma {:induction false} BareWellFormed(e: Expr, first: bool)
    requires PrintableBare(e, first)
    ensures WellFormedTokens(Bare(e))
    decreases e, 0
  {
    match e
    case Bin(op, l, r) =>
      TokensWellFormed(l, OpLevel(op), first);
      TokensWellFormed(r, OpLevel(op) + 1, OpLevel(op) < UNARY);
      assert WellFormedToken(OpToken(op));
    case Not(inner) => TokensWellFormed(inner, UNARY, true);
    case Path(segments) => SegmentTokensWellFormed(segments);
    case List(items) => ItemTokensWellFormed(items);
    case Call(name, args) =>
      if name == "env" || name == "var" {
        assert args[1..] == [] && PrintableBare(args[0], true) && PrintableAll(args);
      }
      ItemTokensWellFormed(args);
    case Lit(_) =>
  }

  lemma {:induction false} SegmentTokensWellFormed(segments: seq<string>)
    requires forall i :: 0 <= i < |segments| ==> WellFormedIdent(segments[i])
    ensures WellFormedTokens(SegmentTokens(segments))
  {
    if segments != [] { SegmentTokensWellFormed(segments[1..]); }
  }

  lemma {:induction false} ItemTokensWellFormed(items: seq<Expr>)
    requires PrintableAll(items)
    ensures WellFormedTokens(ItemTokens(items))
    decreases items, 2
  {
    if items != [] {
      TokensWellFormed(items[0], 0, true);
      ItemTokensWellFormed(items[1..]);
    }
  }

  // ---------- the theorems ----------

  /** Parsing a printed expression gives the expression back. */
  lemma ParsePrint(e: Expr)
    requires Printable(e, 0, true)
    ensures Parse(Print(e)) == Some(e)
  {
    TokensWellFormed(e, 0, true);
    TokenizeRender(Tokens(e, 0));
    ParseTokensPrinted(e);
  }

  /** The parser produces exactly the printable expressions. */
  lemma ParsedIffPrintable(e: Expr)
    ensures (exists input :: Parse(input) == Some(e)) <==> Printable(e, 0, true)
  {
    if Printable(e, 0, true) {
      ParsePrint(e);
    }
    forall input | Parse(input) == Some(e) ensures Printable(e, 0, true) {
      TokenizeWellFormed(input);
      LevelPrintable(0, Tokenize(input).value);
    }
  }

  /** Printing is a normal form: it keeps the meaning of every text that parses. */
  lemma PrintKeepsParse(input: string)
    requires Parse(input).Some?
    ensures Parse(Print(Parse(input).value)) == Parse(input)
  {
    ParsedIffPrintable(Parse(input).value);
    ParsePrint(Parse(input).value);
  }

  /** `not` is a keyword only where a `not` expression may start; elsewhere it names a function. */
  lemma NotNamesAFunctionAfterAnOperator()
    ensures var call := Call("not", [Path(["x"])]);
            && !Printable(call, 0, true)
            && Parse(Print(Bin(AddOp, Lit(Str("a")), call))) == Some(Bin(AddOp, Lit(Str("a")), call))
  {
    var x, call := Path(["x"]), Call("not", [Path(["x"])]);
    assert [x][1..] == [] && PrintableBare(x, true) && PrintableAll([]) && PrintableAll([x]);
    assert PrintableBare(call, false) && PrintableBare(Lit(Str("a")), true);
    ParsePrint(Bin(AddOp, Lit(Str("a")), call));
  }

  /** Different printable expressions print differently. */
  lemma PrintInjective(e: Expr, f: Expr)
    requires Printable(e, 0, true) && Printable(f, 0, true) && Print(e) == Print(f)
    ensures e == f
  {
    ParsePrint(e);
    ParsePrint(f);
  }
}
