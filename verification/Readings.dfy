/**
 * What texts of the expression language mean (sohara-core/src/expr/parser.rs,
 * sohara-core/src/expr/token.rs): which expression is read from operands with
 * operators between them, from lists, calls, paths and literals, stated on the
 * texts themselves.
 */
module Readings {
  import opened Json
  import opened Ast
  import opened Lexer
  import opened Grammar
  import opened Printer

  // ---------- how operators are written and how tightly they bind ----------

  function Sign(op: BinOp): string {
    match op
    case OrOp => "or" case AndOp => "and" case InOp => "in"
    case CmpBin(Eq) => "==" case CmpBin(Neq) => "!=" case CmpBin(Gt) => ">"
    case CmpBin(Gte) => ">=" case CmpBin(Lt) => "<" case CmpBin(Lte) => "<="
    case AddOp => "+" case SubOp => "-" case MulOp => "*" case DivOp => "/" case RemOp => "%"
  }

  /** Whether `q` takes its operands before `p` does: or < and < comparisons and in < + - < * / %. */
  predicate BindsTighter(q: BinOp, p: BinOp) {
    match p
    case OrOp => q != OrOp
    case AndOp => q != OrOp && q != AndOp
    case CmpBin(_) => q == AddOp || q == SubOp || q == MulOp || q == DivOp || q == RemOp
    case InOp => q == AddOp || q == SubOp || q == MulOp || q == DivOp || q == RemOp
    case AddOp => q == MulOp || q == DivOp || q == RemOp
    case SubOp => q == MulOp || q == DivOp || q == RemOp
    case _ => false
  }

  lemma TighterIsHigher(q: BinOp, p: BinOp)
    ensures BindsTighter(q, p) <==> OpLevel(q) > OpLevel(p)
  {
  }

  // ---------- texts with blanks between them ----------

  lemma {:induction false} SpanSpaced(p: char -> bool, cs: string, rest: string)
    requires rest == [] || !p(rest[0])
    ensures Span(p, cs + rest) == Span(p, cs)
  {
    if cs == [] {
      assert cs + rest == rest;
    } else {
      assert (cs + rest)[1..] == cs[1..] + rest;
      SpanSpaced(p, cs[1..], rest);
    }
  }

  lemma {:induction false} StringBodySpaced(quote: char, cs: string, rest: string)
    requires StringBody(quote, cs).Some?
    ensures var (body, after) := StringBody(quote, cs).value;
            StringBody(quote, cs + rest) == Some((body, after + rest))
  {
    if cs[0] == '\\' {
      assert (cs + rest)[2..] == cs[2..] + rest;
      StringBodySpaced(quote, cs[2..], rest);
    } else {
      assert (cs + rest)[1..] == cs[1..] + rest;
      if cs[0] != quote { StringBodySpaced(quote, cs[1..], rest); }
    }
  }

  /** A token is read the same when a blank and more text follow. */
  lemma NextTokenSpaced(cs: string, more: string)
    requires cs != [] && NextToken(cs).Some?
    ensures var (t, after) := NextToken(cs).value; NextToken(cs + (" " + more)) == Some((t, after + (" " + more)))
  {
    var rest := " " + more;
    var longer := cs + rest;
    assert longer[0] == cs[0] && longer[1..] == cs[1..] + rest;
    if SymbolOf(cs[0]).Some? {
    } else if IsOperatorStart(cs[0]) {
      assert longer[1] == if |cs| > 1 then cs[1] else ' ';
      if |cs| > 1 { assert longer[2..] == cs[2..] + rest; }
    } else if cs[0] == '"' || cs[0] == '\'' {
      StringBodySpaced(cs[0], cs[1..], rest);
    } else if IsDigit(cs[0]) {
      SpanSpaced(IsNumeralPart, cs, rest);
      SplitSpaced(cs, rest, Span(IsNumeralPart, cs));
    } else {
      SpanSpaced(IsIdentPart, cs, rest);
      SplitSpaced(cs, rest, Span(IsIdentPart, cs));
    }
  }

  lemma SplitSpaced(cs: string, rest: string, n: nat)
    requires n <= |cs|
    ensures (cs + rest)[..n] == cs[..n] && (cs + rest)[n..] == cs[n..] + rest
  {
  }

  /** Two texts with a blank between them have the tokens of the first, then those of the second. */
  lemma {:induction false} Spaced(x: string, y: string)
    requires Tokenize(x).Some?
    ensures Tokenize(x + " " + y) == Cons(Tokenize(x).value, Tokenize(y))
    decreases |x|
  {
    var rest := " " + y;
    assert x + " " + y == x + rest;
    assert rest[1..] == y && Tokenize(rest) == Tokenize(y);
    if x == [] {
      assert x + rest == rest;
      if Tokenize(y).Some? { assert [] + Tokenize(y).value == Tokenize(y).value; }
    } else if IsWhitespace(x[0]) {
      assert (x + rest)[1..] == x[1..] + rest == x[1..] + " " + y;
      Spaced(x[1..], y);
    } else {
      var (t, after) := NextToken(x).value;
      NextTokenSpaced(x, y);
      Spaced(after, y);
      assert after + rest == after + " " + y;
      if Tokenize(y).Some? {
        assert [t] + (Tokenize(after).value + Tokenize(y).value) == ([t] + Tokenize(after).value) + Tokenize(y).value;
      }
    }
  }

  lemma SignToken(op: BinOp)
    ensures Tokenize(Sign(op)) == Some([OpToken(op)])
  {
    var cs := Sign(op);
    var name: string := cs;
    match op
    case OrOp => Word("or");
    case AndOp => Word("and");
    case InOp => Word("in");
    case _ =>
      assert cs[|cs|..] == [] && Tokenize([]) == Some([]);
      assert [OpToken(op)] + [] == [OpToken(op)];
  }

  /** An identifier on its own is one token. */
  lemma Word(name: string)
    requires WellFormedIdent(name)
    ensures Tokenize(name) == Some([Ident(name)])
  {
    NextTokenOfIdent(name, []);
    assert name + [] == name && Tokenize([]) == Some([]);
    assert [Ident(name)] + [] == [Ident(name)];
  }

  // ---------- reading operands ----------

  /** No token of `after` continues an operand of a level above `level`, nor makes a call of a name. */
  predicate Halts(level: nat, after: seq<Token>) {
    Stops(level, after) && (after != [] ==> after[0] != Symbol(LParen))
  }

  /** The tokens are an operand that no operator can split: whatever stops an atom, they are read as `e`. */
  ghost predicate Operand(ts: seq<Token>, e: Expr) {
    && ts != [] && ts[0] != Ident("not")
    && forall after {:trigger ParseAtom(ts + after)} :: Halts(ATOM, after) ==> ParseAtom(ts + after) == Some((e, after))
  }

  /** Where an operand of the level is wanted the tokens are read as `e`, and the parser goes on with what follows. */
  ghost predicate ReadsAt(level: nat, ts: seq<Token>, e: Expr)
    requires level <= ATOM
  {
    && ts != []
    && forall after {:trigger ParseLevel(level, ts + after)} ::
         Halts(level, after) ==> ParseLevel(level, ts + after) == Continue(level, e, after)
  }

  /** What is read at a level is read at every looser one. */
  lemma {:induction false} Loosen(level: nat, looser: nat, ts: seq<Token>, e: Expr)
    requires looser <= level <= ATOM && ReadsAt(level, ts, e)
    requires looser <= UNARY < level ==> ts[0] != Ident("not")
    ensures ReadsAt(looser, ts, e)
    decreases level - looser
  {
    if looser < level {
      forall after | Halts(level - 1, after)
        ensures ParseLevel(level - 1, ts + after) == Continue(level - 1, e, after)
      {
        StopsContinue(level - 1, e, after);
        assert (ts + after)[0] == ts[0];
        Descend(level - 1, ts + after, e, after);
      }
      Loosen(level - 1, looser, ts, e);
    }
  }

  lemma OperandReads(level: nat, ts: seq<Token>, e: Expr)
    requires level <= ATOM && Operand(ts, e)
    ensures ReadsAt(level, ts, e)
  {
    forall after | Halts(ATOM, after) ensures ParseLevel(ATOM, ts + after) == Continue(ATOM, e, after) {
      assert ParseAtom(ts + after) == Some((e, after));
    }
    Loosen(ATOM, level, ts, e);
  }

  /** Two operands with an operator between them. */
  lemma InfixReads(op: BinOp, left: seq<Token>, l: Expr, right: seq<Token>, r: Expr)
    requires ReadsAt(OpLevel(op), left, l) && ReadsAt(OpLevel(op) + 1, right, r)
    ensures ReadsAt(OpLevel(op), left + [OpToken(op)] + right, Bin(op, l, r))
  {
    var level := OpLevel(op);
    var ts := left + [OpToken(op)] + right;
    forall after | Halts(level, after) ensures ParseLevel(level, ts + after) == Continue(level, Bin(op, l, r), after) {
      var rest := right + after;
      assert ts + after == left + ([OpToken(op)] + rest);
      OpStops(op, rest);
      assert ParseLevel(level, left + ([OpToken(op)] + rest)) == Tail(level, l, [OpToken(op)] + rest);
      StopsContinue(level, r, after);
      assert ParseLevel(level + 1, right + after) == Some((r, after));
      TailStep(level, op, l, r, rest, after);
    }
  }

  lemma NotReads(ts: seq<Token>, e: Expr)
    requires ReadsAt(UNARY, ts, e)
    ensures ReadsAt(UNARY, [Ident("not")] + ts, Not(e))
  {
    forall after | Halts(UNARY, after)
      ensures ParseLevel(UNARY, ([Ident("not")] + ts) + after) == Continue(UNARY, Not(e), after)
    {
      assert (([Ident("not")] + ts) + after)[1..] == ts + after;
      assert ParseLevel(UNARY, ts + after) == Some((e, after));
    }
  }

  /** Parentheses make an operand of any expression. */
  lemma GroupReads(ts: seq<Token>, e: Expr)
    requires ReadsAt(0, ts, e)
    ensures Operand([Symbol(LParen)] + ts + [Symbol(RParen)], e)
  {
    var group := [Symbol(LParen)] + ts + [Symbol(RParen)];
    forall after | Halts(ATOM, after) ensures ParseAtom(group + after) == Some((e, after)) {
      var closed := [Symbol(RParen)] + after;
      PunctuationStops(0, RParen, after);
      assert ParseLevel(0, ts + closed) == Some((e, closed));
      ParenStep(ts, e, after);
      assert group + after == [Symbol(LParen)] + (ts + closed);
    }
  }

  lemma WholeReads(ts: seq<Token>, e: Expr)
    requires ReadsAt(0, ts, e)
    ensures ParseTokens(ts) == Some(e)
  {
    assert ts + [] == ts;
    assert ParseLevel(0, ts + []) == Continue(0, e, []);
  }

  // ---------- texts of operands ----------

  /** The text is an operand with this meaning. */
  ghost predicate Means(text: string, e: Expr) { Tokenize(text).Some? && Operand(Tokenize(text).value, e) }

  /** A name stands for the path of one segment. */
  lemma NameMeans(name: string)
    requires WellFormedIdent(name) && name !in ["true", "false", "null", "not"]
    ensures Means(name, Path([name]))
  {
    Word(name);
    forall after | Halts(ATOM, after) ensures ParseAtom([Ident(name)] + after) == Some((Path([name]), after)) {
      OneTokenRest(Ident(name), after);
      assert [name] + [] == [name];
    }
  }

  lemma OneTokenRest(t: Token, after: seq<Token>)
    ensures ([t] + after)[0] == t && ([t] + after)[1..] == after
  {
  }

  lemma NumeralMeans(numeral: string)
    requires WellFormedNumeral(numeral) && FiniteNumeral(numeral)
    ensures Means(numeral, Lit(Num(numeral)))
  {
    NextTokenOfNumeral(numeral, []);
    assert numeral + [] == numeral && Tokenize([]) == Some([]) && [Number(numeral)] + [] == [Number(numeral)];
    forall after | Halts(ATOM, after)
      ensures ParseAtom([Number(numeral)] + after) == Some((Lit(Num(numeral)), after))
    {
      OneTokenRest(Number(numeral), after);
    }
  }

  /** A text in quotes, without quotes and backslashes inside, stands for itself. */
  lemma TextMeans(text: string, quote: char)
    requires (quote == '"' || quote == '\'') && forall i :: 0 <= i < |text| ==> text[i] != quote && text[i] != '\\'
    ensures Means([quote] + text + [quote], Lit(Str(text)))
  {
    var cs := [quote] + text + [quote];
    assert cs[1..] == text + [quote];
    PlainBody(text, quote);
    assert SymbolOf(quote).None? && !IsOperatorStart(quote) && NextToken(cs) == Some((Text(text), []));
    assert Tokenize([]) == Some([]) && [Text(text)] + [] == [Text(text)];
    forall after | Halts(ATOM, after) ensures ParseAtom([Text(text)] + after) == Some((Lit(Str(text)), after)) {
      OneTokenRest(Text(text), after);
    }
  }

  /** A backslash takes the next character as it is. */
  lemma EscapedMeans(c: char, quote: char)
    requires quote == '"' || quote == '\''
    ensures Means([quote, '\\', c, quote], Lit(Str([c])))
  {
    var cs := [quote, '\\', c, quote];
    assert cs[1..] == ['\\', c, quote] && cs[1..][2..] == [quote] && [quote][1..] == [];
    assert [c] + [] == [c] && StringBody(quote, cs[1..]) == Some(([c], []));
    assert SymbolOf(quote).None? && !IsOperatorStart(quote) && NextToken(cs) == Some((Text([c]), []));
    assert Tokenize([]) == Some([]) && [Text([c])] + [] == [Text([c])];
    forall after | Halts(ATOM, after) ensures ParseAtom([Text([c])] + after) == Some((Lit(Str([c])), after)) {
      OneTokenRest(Text([c]), after);
    }
  }

  lemma {:induction false} PlainBody(text: string, quote: char)
    requires quote != '\\' && forall i :: 0 <= i < |text| ==> text[i] != quote && text[i] != '\\'
    ensures StringBody(quote, text + [quote]) == Some((text, []))
  {
    var cs := text + [quote];
    if text == [] {
      assert cs[1..] == [];
    } else {
      assert cs[1..] == text[1..] + [quote];
      PlainBody(text[1..], quote);
      assert [text[0]] + text[1..] == text;
    }
  }

  lemma ConstantMeans(word: string, x: Value)
    requires || (word == "true" && x == Bool(true)) || (word == "false" && x == Bool(false))
             || (word == "null" && x == Null)
    ensures Means(word, Lit(x))
  {
    Word(word);
    forall after | Halts(ATOM, after) ensures ParseAtom([Ident(word)] + after) == Some((Lit(x), after)) {
      OneTokenRest(Ident(word), after);
    }
  }

  // ---------- texts of expressions ----------

  /** The whole text is read as the expression. */
  ghost predicate Whole(text: string, e: Expr) {
    Tokenize(text).Some? && ReadsAt(0, Tokenize(text).value, e)
  }

  lemma WholeParses(text: string, e: Expr)
    requires Whole(text, e)
    ensures Parse(text) == Some(e)
  {
    WholeReads(Tokenize(text).value, e);
  }

  lemma PrintedIsWhole(e: Expr)
    requires Printable(e, 0, true)
    ensures Whole(Print(e), e)
  {
    var ts := Tokens(e, 0);
    TokensWellFormed(e, 0, true);
    TokenizeRender(ts);
    StartOfItem(e);
    forall after | Halts(0, after) ensures ParseLevel(0, ts + after) == Continue(0, e, after) {
      ParsePrinted(0, e, true, after);
    }
  }

  /** In parentheses, any expression is an operand. */
  lemma GroupMeans(text: string, e: Expr)
    requires Whole(text, e)
    ensures Means("( " + text + " )", e)
  {
    Spaced("(", text);
    Spaced("( " + text, ")");
    assert "(" + " " + text == "( " + text && "( " + text + " " + ")" == "( " + text + " )";
    assert Tokenize("(") == Some([Symbol(LParen)]) by { Punctuation('(', LParen); }
    assert Tokenize(")") == Some([Symbol(RParen)]) by { Punctuation(')', RParen); }
    GroupReads(Tokenize(text).value, e);
  }

  lemma Punctuation(c: char, sym: Sym)
    requires SymbolOf(c) == Some(sym) && !IsWhitespace(c)
    ensures Tokenize([c]) == Some([Symbol(sym)])
  {
    assert [c][1..] == [] && Tokenize([]) == Some([]);
    assert [Symbol(sym)] + [] == [Symbol(sym)];
  }

  // ---------- precedence ----------

  /** The tokens of `x p y q z`. */
  lemma TwoSigns(p: BinOp, q: BinOp, x: string, y: string, z: string)
    requires Tokenize(x).Some? && Tokenize(y).Some? && Tokenize(z).Some?
    ensures Tokenize(x + " " + Sign(p) + " " + y + " " + Sign(q) + " " + z)
         == Some(Tokenize(x).value + [OpToken(p)] + Tokenize(y).value + [OpToken(q)] + Tokenize(z).value)
  {
    SignToken(p);
    SignToken(q);
    Spaced(x, Sign(p));
    Spaced(x + " " + Sign(p), y);
    Spaced(x + " " + Sign(p) + " " + y, Sign(q));
    Spaced(x + " " + Sign(p) + " " + y + " " + Sign(q), z);
  }

  /**
   * Of two operators between operands the second takes the middle operand
   * exactly when it binds tighter; otherwise the first does, so operators of
   * the same kind are taken from the left.
   */
  lemma Precedence(p: BinOp, q: BinOp, x: string, a: Expr, y: string, b: Expr, z: string, c: Expr)
    requires Means(x, a) && Means(y, b) && Means(z, c)
    ensures Parse(x + " " + Sign(p) + " " + y + " " + Sign(q) + " " + z)
         == Some(if BindsTighter(q, p) then Bin(p, a, Bin(q, b, c)) else Bin(q, Bin(p, a, b), c))
  {
    TwoSigns(p, q, x, y, z);
    TokenPrecedence(p, q, Tokenize(x).value, a, Tokenize(y).value, b, Tokenize(z).value, c);
  }

  lemma TokenPrecedence(p: BinOp, q: BinOp, ta: seq<Token>, a: Expr, tb: seq<Token>, b: Expr, tc: seq<Token>, c: Expr)
    requires Operand(ta, a) && Operand(tb, b) && Operand(tc, c)
    ensures ParseTokens(ta + [OpToken(p)] + tb + [OpToken(q)] + tc)
         == Some(if BindsTighter(q, p) then Bin(p, a, Bin(q, b, c)) else Bin(q, Bin(p, a, b), c))
  {
    var ts := ta + [OpToken(p)] + tb + [OpToken(q)] + tc;
    TighterIsHigher(q, p);
    if BindsTighter(q, p) {
      var inner := tb + [OpToken(q)] + tc;
      OperandReads(OpLevel(q), tb, b);
      OperandReads(OpLevel(q) + 1, tc, c);
      InfixReads(q, tb, b, tc, c);
      Loosen(OpLevel(q), OpLevel(p) + 1, inner, Bin(q, b, c));
      OperandReads(OpLevel(p), ta, a);
      InfixReads(p, ta, a, inner, Bin(q, b, c));
      assert ts == ta + [OpToken(p)] + inner;
      Loosen(OpLevel(p), 0, ts, Bin(p, a, Bin(q, b, c)));
      WholeReads(ts, Bin(p, a, Bin(q, b, c)));
    } else {
      var inner := ta + [OpToken(p)] + tb;
      OperandReads(OpLevel(p), ta, a);
      OperandReads(OpLevel(p) + 1, tb, b);
      InfixReads(p, ta, a, tb, b);
      Loosen(OpLevel(p), OpLevel(q), inner, Bin(p, a, b));
      OperandReads(OpLevel(q) + 1, tc, c);
      InfixReads(q, inner, Bin(p, a, b), tc, c);
      Loosen(OpLevel(q), 0, ts, Bin(q, Bin(p, a, b), c));
      WholeReads(ts, Bin(q, Bin(p, a, b), c));
    }
  }

  /** Prefix `not` takes everything up to an `and` or `or`. */
  lemma NotPrecedence(q: BinOp, x: string, a: Expr, y: string, b: Expr)
    requires Means(x, a) && Means(y, b)
    ensures Parse("not" + " " + x + " " + Sign(q) + " " + y)
         == Some(if q == OrOp || q == AndOp then Bin(q, Not(a), b) else Not(Bin(q, a, b)))
  {
    Word("not");
    SignToken(q);
    Spaced("not", x);
    Spaced("not" + " " + x, Sign(q));
    Spaced("not" + " " + x + " " + Sign(q), y);
    TokenNotPrecedence(q, Tokenize(x).value, a, Tokenize(y).value, b);
  }

  lemma TokenNotPrecedence(q: BinOp, ta: seq<Token>, a: Expr, tb: seq<Token>, b: Expr)
    requires Operand(ta, a) && Operand(tb, b)
    ensures ParseTokens([Ident("not")] + ta + [OpToken(q)] + tb)
         == Some(if q == OrOp || q == AndOp then Bin(q, Not(a), b) else Not(Bin(q, a, b)))
  {
    var word: seq<Token> := [Ident("not")];
    var ts := word + ta + [OpToken(q)] + tb;
    if q == OrOp || q == AndOp {
      OperandReads(UNARY, ta, a);
      NotReads(ta, a);
      Loosen(UNARY, OpLevel(q), word + ta, Not(a));
      OperandReads(OpLevel(q) + 1, tb, b);
      InfixReads(q, word + ta, Not(a), tb, b);
      Loosen(OpLevel(q), 0, ts, Bin(q, Not(a), b));
      WholeReads(ts, Bin(q, Not(a), b));
    } else {
      var inner := ta + [OpToken(q)] + tb;
      OperandReads(OpLevel(q), ta, a);
      OperandReads(OpLevel(q) + 1, tb, b);
      InfixReads(q, ta, a, tb, b);
      Loosen(OpLevel(q), UNARY, inner, Bin(q, a, b));
      NotReads(inner, Bin(q, a, b));
      assert ts == word + inner;
      Loosen(UNARY, 0, ts, Not(Bin(q, a, b)));
      WholeReads(ts, Not(Bin(q, a, b)));
    }
  }

  lemma ThreeNames()
    ensures Means("a", Path(["a"])) && Means("b", Path(["b"])) && Means("c", Path(["c"]))
  {
    NameMeans("a");
    NameMeans("b");
    NameMeans("c");
  }

  /** So `a + b * c` is a sum, `a * b - c` a difference, and `not a == b` a negation. */
  lemma SumOfProduct(text: string)
    requires text == "a + b * c"
    ensures Parse(text) == Some(Bin(AddOp, Path(["a"]), Bin(MulOp, Path(["b"]), Path(["c"]))))
  {
    ThreeNames();
    Precedence(AddOp, MulOp, "a", Path(["a"]), "b", Path(["b"]), "c", Path(["c"]));
    FiveWords('a', '+', 'b', '*', 'c');
  }

  lemma FiveWords(a: char, p: char, b: char, q: char, c: char)
    ensures [a] + " " + [p] + " " + [b] + " " + [q] + " " + [c] == [a, ' ', p, ' ', b, ' ', q, ' ', c]
  {
  }

  lemma DifferenceOfProduct(text: string)
    requires text == "a * b - c"
    ensures Parse(text) == Some(Bin(SubOp, Bin(MulOp, Path(["a"]), Path(["b"])), Path(["c"])))
  {
    ThreeNames();
    Precedence(MulOp, SubOp, "a", Path(["a"]), "b", Path(["b"]), "c", Path(["c"]));
    FiveWords('a', '*', 'b', '-', 'c');
  }

  lemma NotOfComparison(text: string)
    requires text == "not a == b"
    ensures Parse(text) == Some(Not(Bin(CmpBin(Eq), Path(["a"]), Path(["b"]))))
  {
    ThreeNames();
    NotPrecedence(CmpBin(Eq), "a", Path(["a"]), "b", Path(["b"]));
    assert "not" + " " + "a" + " " + "==" + " " + "b" == "not a == b";
  }

  // ---------- lists, calls and paths ----------

  /** Printed expressions with commas between them. */
  function Commas(items: seq<Expr>): string
    requires items != []
  {
    if |items| == 1 then Print(items[0]) else Print(items[0]) + " " + "," + " " + Commas(items[1..])
  }

  lemma {:induction false} CommasTokens(items: seq<Expr>)
    requires items != [] && PrintableAll(items)
    ensures Tokenize(Commas(items)) == Some(ItemTokens(items))
  {
    PrintedTokens(items[0]);
    var first, text := Tokens(items[0], 0), Print(items[0]);
    if |items| == 1 {
      assert first + [] == first;
    } else {
      CommasTokens(items[1..]);
      CommaBetween(text, Commas(items[1..]));
      assert first + [Symbol(Comma)] + ItemTokens(items[1..]) == first + ([Symbol(Comma)] + ItemTokens(items[1..]));
    }
  }

  lemma CommaBetween(x: string, y: string)
    requires Tokenize(x).Some? && Tokenize(y).Some?
    ensures Tokenize(x + " " + "," + " " + y) == Some(Tokenize(x).value + [Symbol(Comma)] + Tokenize(y).value)
  {
    Punctuation(',', Comma);
    Spaced(x, ",");
    Spaced(x + " " + ",", y);
  }

  lemma PrintedTokens(e: Expr)
    requires Printable(e, 0, true)
    ensures Tokenize(Print(e)) == Some(Tokens(e, 0))
  {
    TokensWellFormed(e, 0, true);
    TokenizeRender(Tokens(e, 0));
  }

  /** The tokens of a text between two brackets. */
  lemma Enclosed(open: char, first: Sym, text: string, close: char, last: Sym)
    requires SymbolOf(open) == Some(first) && SymbolOf(close) == Some(last) && Tokenize(text).Some?
    requires !IsWhitespace(open) && !IsWhitespace(close)
    ensures Tokenize([open] + " " + text + " " + [close])
         == Some([Symbol(first)] + Tokenize(text).value + [Symbol(last)])
  {
    Punctuation(open, first);
    Punctuation(close, last);
    Spaced([open], text);
    Spaced([open] + " " + text, [close]);
  }

  /** A list holds its items in the order written. */
  lemma ListReads(items: seq<Expr>)
    requires items != [] && PrintableAll(items)
    ensures Parse("[" + " " + Commas(items) + " " + "]") == Some(List(items))
  {
    CommasTokens(items);
    Enclosed('[', LBracket, Commas(items), ']', RBracket);
    ListIsPrinted(items);
    ParseTokensPrinted(List(items));
  }

  lemma ListIsPrinted(items: seq<Expr>)
    requires PrintableAll(items)
    ensures Printable(List(items), 0, true)
    ensures Tokens(List(items), 0) == [Symbol(LBracket)] + ItemTokens(items) + [Symbol(RBracket)]
  {
    var list := List(items);
    assert Tokens(list, 0) == Bare(list) == [Symbol(LBracket)] + (ItemTokens(items) + [Symbol(RBracket)]);
  }

  lemma PairReads(a: Expr, b: Expr)
    requires Printable(a, 0, true) && Printable(b, 0, true)
    ensures Parse("[" + " " + (Print(a) + " " + "," + " " + Print(b)) + " " + "]") == Some(List([a, b]))
  {
    assert [a, b][1..] == [b] && [b][1..] == [] && PrintableAll([]) && PrintableAll([b]) && PrintableAll([a, b]);
    assert Commas([b]) == Print(b) && Commas([a, b]) == Print(a) + " " + "," + " " + Print(b);
    ListReads([a, b]);
  }

  /** A call has its name and its arguments in the order written. */
  lemma CallReads(name: string, args: seq<Expr>)
    requires WellFormedIdent(name) && name !in ["true", "false", "null", "not", "env", "var"]
    requires args != [] && PrintableAll(args)
    ensures Parse(name + " " + "(" + " " + Commas(args) + " " + ")") == Some(Call(name, args))
  {
    CommasTokens(args);
    CallTokens(name, Commas(args));
    CallIsPrinted(name, args);
    ParseTokensPrinted(Call(name, args));
  }

  lemma CallIsPrinted(name: string, args: seq<Expr>)
    requires WellFormedIdent(name) && name !in ["true", "false", "null", "not", "env", "var"] && PrintableAll(args)
    ensures Printable(Call(name, args), 0, true)
    ensures Tokens(Call(name, args), 0) == [Ident(name)] + [Symbol(LParen)] + ItemTokens(args) + [Symbol(RParen)]
  {
    var call := Call(name, args);
    assert Tokens(call, 0) == Bare(call) == [Ident(name), Symbol(LParen)] + (ItemTokens(args) + [Symbol(RParen)]);
  }

  lemma CallTokens(name: string, text: string)
    requires WellFormedIdent(name) && Tokenize(text).Some?
    ensures Tokenize(name + " " + "(" + " " + text + " " + ")")
         == Some([Ident(name)] + [Symbol(LParen)] + Tokenize(text).value + [Symbol(RParen)])
  {
    Word(name);
    Punctuation('(', LParen);
    Punctuation(')', RParen);
    Spaced(name, "(");
    Spaced(name + " " + "(", text);
    Spaced(name + " " + "(" + " " + text, ")");
  }

  /** `env` and `var` take a bare name as text. */
  lemma NamedReads(name: string, arg: string)
    requires (name == "env" || name == "var") && WellFormedIdent(arg)
    ensures Parse(name + " " + "(" + " " + arg + " " + ")") == Some(Call(name, [Lit(Str(arg))]))
  {
    Word(arg);
    CallTokens(name, arg);
    var ts := [Ident(name), Symbol(LParen), Ident(arg), Symbol(RParen)];
    assert [Ident(name)] + [Symbol(LParen)] + [Ident(arg)] + [Symbol(RParen)] == ts;
    NamedOperand(name, arg);
    OperandReads(0, ts, Call(name, [Lit(Str(arg))]));
    WholeReads(ts, Call(name, [Lit(Str(arg))]));
  }

  lemma NamedOperand(name: string, arg: string)
    requires name == "env" || name == "var"
    ensures Operand([Ident(name), Symbol(LParen), Ident(arg), Symbol(RParen)], Call(name, [Lit(Str(arg))]))
  {
    var ts := [Ident(name), Symbol(LParen), Ident(arg), Symbol(RParen)];
    forall after | Halts(ATOM, after) ensures ParseAtom(ts + after) == Some((Call(name, [Lit(Str(arg))]), after)) {
      assert (ts + after)[1..][1..] == [Ident(arg), Symbol(RParen)] + after;
      assert ([Ident(arg), Symbol(RParen)] + after)[1..] == [Symbol(RParen)] + after;
      assert ([Symbol(RParen)] + after)[1..] == after;
    }
  }

  /** Segments with dots between them. */
  function Dotted(segments: seq<string>): string
    requires segments != []
  {
    if |segments| == 1 then segments[0] else segments[0] + " " + "." + " " + Dotted(segments[1..])
  }

  lemma DotBetween(x: string, y: string)
    requires Tokenize(x).Some? && Tokenize(y).Some?
    ensures Tokenize(x + " " + "." + " " + y) == Some(Tokenize(x).value + [Symbol(Dot)] + Tokenize(y).value)
  {
    Punctuation('.', Dot);
    Spaced(x, ".");
    Spaced(x + " " + ".", y);
  }

  lemma SegmentTokensSplit(ts: seq<Token>, segments: seq<string>)
    requires segments != []
    ensures ts + [Symbol(Dot)] + ([Ident(segments[0])] + SegmentTokens(segments[1..])) == ts + SegmentTokens(segments)
  {
  }

  lemma {:induction false} DottedTokens(segments: seq<string>)
    requires segments != [] && forall i :: 0 <= i < |segments| ==> WellFormedIdent(segments[i])
    ensures Tokenize(Dotted(segments)) == Some([Ident(segments[0])] + SegmentTokens(segments[1..]))
  {
    Word(segments[0]);
    var name: seq<Token> := [Ident(segments[0])];
    if |segments| == 1 {
      assert name + [] == name;
    } else {
      DottedTokens(segments[1..]);
      DotBetween(segments[0], Dotted(segments[1..]));
      SegmentTokensSplit(name, segments[1..]);
    }
  }

  /** A path has its segments in the order written, with or without a dollar sign in front. */
  lemma PathReads(segments: seq<string>)
    requires segments != [] && forall i :: 0 <= i < |segments| ==> WellFormedIdent(segments[i])
    requires segments[0] !in ["true", "false", "null", "not"]
    ensures Parse(Dotted(segments)) == Some(Path(segments))
    ensures Parse("$" + " " + "." + " " + Dotted(segments)) == Some(Path(segments))
  {
    var ts := [Ident(segments[0])] + SegmentTokens(segments[1..]);
    DottedTokens(segments);
    PathOperand(segments);
    OperandReads(0, ts, Path(segments));
    WholeReads(ts, Path(segments));
    DollarTokens(Dotted(segments));
    DollarReads(segments);
  }

  lemma DollarTokens(text: string)
    requires Tokenize(text).Some?
    ensures Tokenize("$" + " " + "." + " " + text) == Some([Symbol(Dollar)] + [Symbol(Dot)] + Tokenize(text).value)
  {
    Punctuation('$', Dollar);
    Punctuation('.', Dot);
    Spaced("$", ".");
    Spaced("$" + " " + ".", text);
  }

  lemma DollarReads(segments: seq<string>)
    requires segments != [] && forall i :: 0 <= i < |segments| ==> WellFormedIdent(segments[i])
    ensures ParseTokens([Symbol(Dollar)] + [Symbol(Dot)] + ([Ident(segments[0])] + SegmentTokens(segments[1..])))
         == Some(Path(segments))
  {
    ParseTokensPrinted(Path(segments));
    assert Tokens(Path(segments), 0)
        == [Symbol(Dollar)] + [Symbol(Dot)] + ([Ident(segments[0])] + SegmentTokens(segments[1..]));
  }

  lemma NoCallAhead(segments: seq<string>, after: seq<Token>)
    requires Halts(ATOM, after)
    ensures var rest := SegmentTokens(segments) + after; rest != [] ==> rest[0] != Symbol(LParen)
  {
  }

  lemma NamedPath(segments: seq<string>, rest: seq<Token>, after: seq<Token>)
    requires segments != [] && segments[0] !in ["true", "false", "null", "not"]
    requires Grammar.Segments(rest) == Some((segments[1..], after)) && (rest != [] ==> rest[0] != Symbol(LParen))
    ensures ParseAtom([Ident(segments[0])] + rest) == Some((Path(segments), after))
  {
    OneTokenRest(Ident(segments[0]), rest);
    assert [segments[0]] + segments[1..] == segments;
  }

  lemma PathOperand(segments: seq<string>)
    requires segments != [] && segments[0] !in ["true", "false", "null", "not"]
    ensures Operand([Ident(segments[0])] + SegmentTokens(segments[1..]), Path(segments))
  {
    var ts := [Ident(segments[0])] + SegmentTokens(segments[1..]);
    forall after | Halts(ATOM, after) ensures ParseAtom(ts + after) == Some((Path(segments), after)) {
      var rest := SegmentTokens(segments[1..]) + after;
      assert ts + after == [Ident(segments[0])] + rest;
      SegmentsPrinted(segments[1..], after);
      NoCallAhead(segments[1..], after);
      NamedPath(segments, rest, after);
    }
  }

  // ---------- characters and numerals ----------

  /** Names start with a letter or an underscore and go on with these or digits; numerals are digits and dots. */
  lemma CharactersAre(c: char)
    ensures WellFormedIdent([c]) <==> 'a' <= c <= 'z' || 'A' <= c <= 'Z' || c == '_'
    ensures WellFormedIdent(['x', c]) <==> 'a' <= c <= 'z' || 'A' <= c <= 'Z' || c == '_' || '0' <= c <= '9'
    ensures WellFormedNumeral([c]) <==> '0' <= c <= '9'
    ensures WellFormedNumeral(['1', c]) <==> '0' <= c <= '9' || c == '.'
    ensures !WellFormedNumeral(['1', '.', '.'])
  {
    assert ['x', c][1] == c && ['1', c][1] == c;
    assert ['1', c][1..] == [c] && [c][1..] == [] && ['1', '.', '.'][1..] == ['.', '.'] && ['.', '.'][1..] == ['.'];
    assert Dots([c]) == (if c == '.' then 1 else 0) + Dots([]);
    assert Dots(['.', '.']) == 1 + Dots(['.']) && Dots(['.']) == 1;
  }

  /** The digits of a whole part are its decimal value; what follows a dot does not count. */
  lemma {:induction false} WholePartIs(digits: string, c: char, rest: string, acc: nat)
    requires (forall i :: 0 <= i < |digits| ==> '0' <= digits[i] <= '9') && '0' <= c <= '9'
    requires rest == [] || rest[0] == '.'
    ensures WholePart(rest, acc) == acc
    ensures WholePart(digits + [c] + rest, acc) == 10 * WholePart(digits, acc) + (c as int - '0' as int)
    decreases |digits|
  {
    var text := digits + [c] + rest;
    if digits == [] {
      assert text[0] == c && text[1..] == rest;
    } else {
      assert text[0] == digits[0] && text[1..] == digits[1..] + [c] + rest;
      WholePartIs(digits[1..], c, rest, 10 * acc + (digits[0] as int - '0' as int));
    }
  }
}
