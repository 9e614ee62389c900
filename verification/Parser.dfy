/**
 * The recursive-descent parser as the program runs it (sohara-core/src/expr/parser.rs):
 * a cursor over the tokens that each method advances. Every method is proved to
 * compute the grammar of the tokens from the cursor on.
 */
module Parsing {
  import opened Json
  import opened Ast
  import opened Lexer
  import opened Grammar

  class Parser {
    const tokens: seq<Token>
    var pos: nat

    constructor (tokens: seq<Token>)
      ensures this.tokens == tokens && pos == 0
    {
      this.tokens := tokens;
      pos := 0;
    }

    ghost predicate Valid()
      reads this
    {
      pos <= |tokens|
    }

    ghost function Rest(): seq<Token>
      reads this
      requires Valid()
    {
      tokens[pos..]
    }

    function Peek(): (t: Option<Token>)
      reads this
      requires Valid()
      ensures t.None? <==> Rest() == []
      ensures t.Some? ==> t.value == Rest()[0]
    {
      if pos < |tokens| then Some(tokens[pos]) else None
    }

    /** The parser reached the expression and the position the grammar gives. */
    ghost predicate Agrees(r: Option<Expr>, spec: Parsed)
      reads this
      requires Valid()
    {
      if spec.None? then r.None? else r == Some(spec.value.0) && Rest() == spec.value.1
    }

    method Next() returns (t: Option<Token>)
      requires Valid()
      modifies this`pos
      ensures Valid()
      ensures if old(Rest()) == [] then t.None? && pos == old(pos)
              else t == Some(old(Rest())[0]) && pos == old(pos) + 1 && Rest() == old(Rest())[1..]
    {
      t := Peek();
      if t.Some? { pos := pos + 1; }
    }

    method ExpectSym(sym: Sym) returns (ok: bool)
      requires Valid()
      modifies this`pos
      ensures Valid() && pos >= old(pos)
      ensures ok <==> old(Rest()) != [] && old(Rest())[0] == Symbol(sym)
      ensures ok ==> Rest() == old(Rest())[1..]
    {
      var t := Next();
      ok := t == Some(Symbol(sym));
    }

    method ParseOr() returns (r: Option<Expr>)
      requires Valid()
      modifies this`pos
      ensures Valid() && pos >= old(pos) && Agrees(r, ParseLevel(0, old(Rest())))
      decreases |tokens| - pos, 12
    {
      r := ParseAnd();
      if r.None? { return; }
      ghost var spec := ParseLevel(0, old(Rest()));
      while Peek() == Some(Ident("or"))
        invariant Valid() && pos > old(pos) && r.Some?
        invariant spec == Tail(0, r.value, Rest())
        decreases |tokens| - pos
      {
        assert OpAhead(0, Rest());
        var _ := Next();
        var rhs := ParseAnd();
        if rhs.None? { return None; }
        r := Some(Bin(OrOp, r.value, rhs.value));
      }
      NotAheadWord(0, "or", Rest());
    }

    method ParseAnd() returns (r: Option<Expr>)
      requires Valid()
      modifies this`pos
      ensures Valid() && Agrees(r, ParseLevel(1, old(Rest())))
      ensures pos >= old(pos) && (r.Some? ==> pos > old(pos))
      decreases |tokens| - pos, 11
    {
      r := ParseUnary();
      if r.None? { return; }
      ghost var spec := ParseLevel(1, old(Rest()));
      while Peek() == Some(Ident("and"))
        invariant Valid() && pos > old(pos) && r.Some?
        invariant spec == Tail(1, r.value, Rest())
        decreases |tokens| - pos
      {
        assert OpAhead(1, Rest());
        var _ := Next();
        var rhs := ParseUnary();
        if rhs.None? { return None; }
        r := Some(Bin(AndOp, r.value, rhs.value));
      }
      NotAheadWord(1, "and", Rest());
    }

    method ParseUnary() returns (r: Option<Expr>)
      requires Valid()
      modifies this`pos
      ensures Valid() && Agrees(r, ParseLevel(2, old(Rest())))
      ensures pos >= old(pos) && (r.Some? ==> pos > old(pos))
      decreases |tokens| - pos, 10
    {
      if Peek() == Some(Ident("not")) {
        var _ := Next();
        r := ParseUnary();
        if r.Some? { r := Some(Not(r.value)); }
      } else {
        r := ParseCmp();
      }
    }

    method ParseCmp() returns (r: Option<Expr>)
      requires Valid()
      modifies this`pos
      ensures Valid() && Agrees(r, ParseLevel(3, old(Rest())))
      ensures pos >= old(pos) && (r.Some? ==> pos > old(pos))
      decreases |tokens| - pos, 9
    {
      r := ParseAdd();
      if r.None? { return; }
      ghost var spec := ParseLevel(3, old(Rest()));
      while true
        invariant Valid() && pos > old(pos) && r.Some?
        invariant spec == Tail(3, r.value, Rest())
        decreases |tokens| - pos
      {
        var op := match Peek()
          case Some(Symbol(EqEq)) => Some(Eq)
          case Some(Symbol(NotEq)) => Some(Neq)
          case Some(Symbol(GtSym)) => Some(Gt)
          case Some(Symbol(GteSym)) => Some(Gte)
          case Some(Symbol(LtSym)) => Some(Lt)
          case Some(Symbol(LteSym)) => Some(Lte)
          case _ => None;
        if op.Some? {
          assert OpAhead(3, Rest()) && OpOf(Rest()[0]) == Some(CmpBin(op.value));
          var _ := Next();
          var rhs := ParseAdd();
          if rhs.None? { return None; }
          r := Some(Bin(CmpBin(op.value), r.value, rhs.value));
          continue;
        }
        if Peek() == Some(Ident("in")) {
          assert OpAhead(3, Rest());
          var _ := Next();
          var rhs := ParseAdd();
          if rhs.None? { return None; }
          r := Some(Bin(InOp, r.value, rhs.value));
          continue;
        }
        NotAheadCmp(Rest());
        return;
      }
    }

    method ParseAdd() returns (r: Option<Expr>)
      requires Valid()
      modifies this`pos
      ensures Valid() && Agrees(r, ParseLevel(4, old(Rest())))
      ensures pos >= old(pos) && (r.Some? ==> pos > old(pos))
      decreases |tokens| - pos, 8
    {
      r := ParseMul();
      if r.None? { return; }
      ghost var spec := ParseLevel(4, old(Rest()));
      while true
        invariant Valid() && pos > old(pos) && r.Some?
        invariant spec == Tail(4, r.value, Rest())
        decreases |tokens| - pos
      {
        var isAdd := Peek() == Some(Symbol(Plus));
        var isSub := Peek() == Some(Symbol(Minus));
        if !isAdd && !isSub {
          assert !OpAhead(4, Rest());
          return;
        }
        assert OpAhead(4, Rest());
        var _ := Next();
        var rhs := ParseMul();
        if rhs.None? { return None; }
        r := Some(Bin(if isAdd then AddOp else SubOp, r.value, rhs.value));
      }
    }

    method ParseMul() returns (r: Option<Expr>)
      requires Valid()
      modifies this`pos
      ensures Valid() && Agrees(r, ParseLevel(5, old(Rest())))
      ensures pos >= old(pos) && (r.Some? ==> pos > old(pos))
      decreases |tokens| - pos, 7
    {
      r := ParseAtom();
      assert ParseLevel(ATOM, old(Rest())) == Grammar.ParseAtom(old(Rest()));
      if r.None? { return; }
      ghost var spec := ParseLevel(5, old(Rest()));
      while true
        invariant Valid() && pos > old(pos) && r.Some?
        invariant spec == Tail(5, r.value, Rest())
        decreases |tokens| - pos
      {
        var op := match Peek()
          case Some(Symbol(Star)) => Some(MulOp)
          case Some(Symbol(Slash)) => Some(DivOp)
          case Some(Symbol(Percent)) => Some(RemOp)
          case _ => None;
        if op.None? {
          assert !OpAhead(5, Rest());
          return;
        }
        assert OpAhead(5, Rest()) && OpOf(Rest()[0]) == op;
        var _ := Next();
        var rhs := ParseAtom();
        if rhs.None? { return None; }
        r := Some(Bin(op.value, r.value, rhs.value));
      }
    }

    method ParseAtom() returns (r: Option<Expr>)
      requires Valid()
      modifies this`pos
      ensures Valid() && Agrees(r, Grammar.ParseAtom(old(Rest())))
      ensures pos >= old(pos) && (r.Some? ==> pos > old(pos))
      decreases |tokens| - pos, 6
    {
      var t := Next();
      match t
      case Some(Number(numeral)) =>
        r := if FiniteNumeral(numeral) then Some(Lit(Num(numeral))) else None;
      case Some(Text(text)) => r := Some(Lit(Str(text)));
      case Some(Ident(name)) => r := ParseIdentOrCall(name);
      case Some(Symbol(Dollar)) => r := ParseDollarPath();
      case Some(Symbol(LBracket)) => r := ParseList();
      case Some(Symbol(LParen)) =>
        r := ParseOr();
        if r.Some? {
          var ok := ExpectSym(RParen);
          if !ok { r := None; }
        }
      case _ => r := None;
    }

    method ParseIdentOrCall(name: string) returns (r: Option<Expr>)
      requires Valid()
      modifies this`pos
      ensures Valid() && pos >= old(pos)
      ensures Agrees(r, Grammar.ParseAtom([Ident(name)] + old(Rest())))
      decreases |tokens| - pos, 5
    {
      ghost var ts := [Ident(name)] + Rest();
      assert ts[1..] == Rest();
      if name == "true" { return Some(Lit(Bool(true))); }
      if name == "false" { return Some(Lit(Bool(false))); }
      if name == "null" { return Some(Lit(Null)); }
      if Peek() == Some(Symbol(LParen)) {
        var _ := Next();
        r := ParseCall(name);
      } else {
        r := ParseIdentPath(name);
      }
    }

    method ParseCall(name: string) returns (r: Option<Expr>)
      requires Valid()
      modifies this`pos
      ensures Valid() && pos >= old(pos) && Agrees(r, Grammar.ParseCall(name, old(Rest())))
      decreases |tokens| - pos, 14
    {
      if name == "env" || name == "var" {
        r := ParseNameCall(name);
      } else {
        var args := ParseItems(RParen);
        r := if args.None? then None else Some(Call(name, args.value));
      }
    }

    method ParseNameCall(name: string) returns (r: Option<Expr>)
      requires Valid() && (name == "env" || name == "var")
      modifies this`pos
      ensures Valid() && pos >= old(pos) && Agrees(r, Grammar.ParseCall(name, old(Rest())))
    {
      var t := Next();
      var arg := match t
        case Some(Ident(ident)) => Some(ident)
        case Some(Text(text)) => Some(text)
        case _ => None;
      if arg.None? { return None; }
      var ok := ExpectSym(RParen);
      r := if ok then Some(Call(name, [Lit(Str(arg.value))])) else None;
    }

    /** The item loop that calls and list literals share. */
    method ParseItems(close: Sym) returns (items: Option<seq<Expr>>)
      requires Valid() && close != Comma
      modifies this`pos
      ensures Valid() && pos >= old(pos)
      ensures var spec := Grammar.ParseItems(close, old(Rest()));
              if spec.None? then items.None? else items == Some(spec.value.0) && Rest() == spec.value.1
      decreases |tokens| - pos, 13
    {
      if Peek() != Some(Symbol(close)) {
        items := ParseMoreItems(close);
      } else {
        var _ := ExpectSym(close);
        items := Some([]);
      }
    }

    method ParseMoreItems(close: Sym) returns (items: Option<seq<Expr>>)
      requires Valid() && close != Comma
      modifies this`pos
      ensures Valid() && pos >= old(pos)
      ensures var spec := ParseMore(close, old(Rest()));
              if spec.None? then items.None? else items == Some(spec.value.0) && Rest() == spec.value.1
      decreases |tokens| - pos, 13, 0
    {
      var done: seq<Expr> := [];
      ghost var spec := ParseMore(close, Rest());
      assert spec.Some? ==> [] + spec.value.0 == spec.value.0;
      while true
        invariant Valid() && pos >= old(pos)
        invariant spec == AppendTo(done, ParseMore(close, Rest()))
        decreases |tokens| - pos
      {
        ghost var here := Rest();
        ghost var start := pos;
        var item := ParseOr();
        if item.None? { return None; }
        assert pos > start;
        AppendToStep(done, item.value, close, here);
        done := done + [item.value];
        if Peek() != Some(Symbol(Comma)) { break; }
        var _ := Next();
      }
      var ok := ExpectSym(close);
      return if ok then Some(done) else None;
    }

    method ParseIdentPath(name: string) returns (r: Option<Expr>)
      requires Valid()
      modifies this`pos
      ensures Valid() && pos >= old(pos) && Agrees(r, PathFrom(name, old(Rest())))
    {
      var path := [name];
      ghost var spec := Segments(Rest());
      assert spec.Some? ==> [name] + spec.value.0 == path + spec.value.0;
      while Peek() == Some(Symbol(Dot))
        invariant Valid() && pos >= old(pos)
        invariant PathFrom(name, old(Rest())) == PathTo(path, Segments(Rest()))
        decreases |tokens| - pos
      {
        ghost var here := Rest();
        var _ := Next();
        var t := Next();
        if t.None? || !t.value.Ident? { return None; }
        assert here[2..] == Rest() && here[1] == t.value;
        PathToStep(path, t.value.name, Segments(Rest()));
        path := path + [t.value.name];
      }
      assert path + [] == path;
      return Some(Path(path));
    }

    method ParseDollarPath() returns (r: Option<Expr>)
      requires Valid()
      modifies this`pos
      ensures Valid() && pos >= old(pos)
      ensures Agrees(r, Grammar.ParseAtom([Symbol(Dollar)] + old(Rest())))
    {
      ghost var rest := Rest();
      assert ([Symbol(Dollar)] + rest)[1..] == rest;
      var ok := ExpectSym(Dot);
      if !ok { return None; }
      var t := Next();
      if t.None? || !t.value.Ident? { return None; }
      assert rest[2..] == Rest();
      r := ParseIdentPath(t.value.name);
    }

    method ParseList() returns (r: Option<Expr>)
      requires Valid()
      modifies this`pos
      ensures Valid() && pos >= old(pos)
      ensures Agrees(r, Grammar.ParseAtom([Symbol(LBracket)] + old(Rest())))
      decreases |tokens| - pos, 14
    {
      assert ([Symbol(LBracket)] + Rest())[1..] == Rest();
      var items := ParseItems(RBracket);
      r := if items.None? then None else Some(List(items.value));
    }
  }

  // ---------- facts the loops use ----------

  lemma NotAheadWord(level: nat, word: string, ts: seq<Token>)
    requires (level == 0 && word == "or") || (level == 1 && word == "and")
    requires ts == [] || ts[0] != Ident(word)
    ensures !OpAhead(level, ts)
  {
  }

  lemma NotAheadCmp(ts: seq<Token>)
    requires ts == [] || (ts[0] != Ident("in") && ts[0] !in
      [Symbol(EqEq), Symbol(NotEq), Symbol(GtSym), Symbol(GteSym), Symbol(LtSym), Symbol(LteSym)])
    ensures !OpAhead(3, ts)
  {
  }

  type ParsedItems = Option<(seq<Expr>, seq<Token>)>

  ghost function AppendTo(done: seq<Expr>, more: ParsedItems): ParsedItems {
    if more.None? then None else Some((done + more.value.0, more.value.1))
  }

  lemma AppendToStep(done: seq<Expr>, item: Expr, close: Sym, ts: seq<Token>)
    requires ParseLevel(0, ts).Some? && ParseLevel(0, ts).value.0 == item
    ensures var rest := ParseLevel(0, ts).value.1;
            AppendTo(done, ParseMore(close, ts)) ==
            if rest == [] then None
            else if rest[0] == Symbol(Comma) then AppendTo(done + [item], ParseMore(close, rest[1..]))
            else if rest[0] == Symbol(close) then Some((done + [item], rest[1..]))
            else None
  {
    var rest := ParseLevel(0, ts).value.1;
    if rest != [] && rest[0] == Symbol(Comma) && ParseMore(close, rest[1..]).Some? {
      var more := ParseMore(close, rest[1..]).value.0;
      assert done + ([item] + more) == done + [item] + more;
    }
  }

  ghost function PathTo(path: seq<string>, more: Option<(seq<string>, seq<Token>)>): Parsed {
    if more.None? then None else Some((Path(path + more.value.0), more.value.1))
  }

  lemma PathToStep(path: seq<string>, name: string, more: Option<(seq<string>, seq<Token>)>)
    ensures more.Some? ==>
              PathTo(path, Some(([name] + more.value.0, more.value.1))) == PathTo(path + [name], more)
  {
    if more.Some? {
      assert path + ([name] + more.value.0) == path + [name] + more.value.0;
    }
  }

  /** Parsing a text: tokenize it, parse, and refuse trailing tokens. */
  method ParseText(input: string) returns (r: Option<Expr>)
    ensures r == Grammar.Parse(input)
  {
    var ts := Scan(input);
    if ts.None? { return None; }
    var parser := new Parser(ts.value);
    assert parser.Rest() == ts.value;
    r := parser.ParseOr();
    if r.Some? && parser.Peek().Some? { r := None; }
  }
}
