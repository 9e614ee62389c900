/**
 * The tokenizer (sohara-core/src/expr/token.rs).
 *
 * `Tokenize` says what the token stream of a text is, by recursion on the text.
 * The methods scan with an index as the program does and are proved to compute it.
 * `Render` writes a token stream with a blank only where two tokens would run
 * together; `TokenizeRender` shows the tokenizer undoes it.
 */
module Lexer {
  import opened Json

  datatype Sym =
    | Dollar | Dot | LParen | RParen | LBracket | RBracket | Comma
    | Plus | Minus | Star | Slash | Percent
    | EqEq | NotEq | GtSym | GteSym | LtSym | LteSym

  datatype Token =
    | Ident(name: string)
    | Number(numeral: string)
    | Text(text: string)
    | Symbol(sym: Sym)

  // ---------- character classes ----------

  /** The characters with the Unicode White_Space property. */
  predicate IsWhitespace(c: char) {
    || '\U{0009}' <= c <= '\U{000D}' || c == ' ' || c == '\U{0085}' || c == '\U{00A0}'
    || c == '\U{1680}' || '\U{2000}' <= c <= '\U{200A}' || c == '\U{2028}' || c == '\U{2029}'
    || c == '\U{202F}' || c == '\U{205F}' || c == '\U{3000}'
  }

  predicate IsDigit(c: char) { '0' <= c <= '9' }

  predicate IsIdentStart(c: char) { 'a' <= c <= 'z' || 'A' <= c <= 'Z' || c == '_' }

  predicate IsIdentPart(c: char) { IsIdentStart(c) || IsDigit(c) }

  predicate IsNumeralPart(c: char) { IsDigit(c) || c == '.' }

  function SymbolOf(c: char): Option<Sym> {
    match c
    case '$' => Some(Dollar)
    case '.' => Some(Dot)
    case '(' => Some(LParen)
    case ')' => Some(RParen)
    case '[' => Some(LBracket)
    case ']' => Some(RBracket)
    case ',' => Some(Comma)
    case '+' => Some(Plus)
    case '-' => Some(Minus)
    case '*' => Some(Star)
    case '/' => Some(Slash)
    case '%' => Some(Percent)
    case _ => None
  }

  // ---------- specification of the scanner ----------

  /** Length of the longest prefix of `cs` whose characters all satisfy `p`. */
  function Span(p: char -> bool, cs: string): (n: nat)
    ensures n <= |cs|
    ensures forall i :: 0 <= i < n ==> p(cs[i])
    ensures n < |cs| ==> !p(cs[n])
  {
    if cs == [] || !p(cs[0]) then 0 else 1 + Span(p, cs[1..])
  }

  function Dots(text: string): nat {
    if text == [] then 0 else (if text[0] == '.' then 1 else 0) + Dots(text[1..])
  }

  /** A run of digits and dots is a decimal numeral exactly when it has at most one dot. */
  predicate ValidNumeral(text: string) { Dots(text) <= 1 }

  /** The two-character operators; `cs` starts at their first character. */
  function Operator(cs: string): Option<(Token, string)>
    requires cs != []
  {
    var two := |cs| > 1 && cs[1] == '=';
    match cs[0]
    case '=' => if two then Some((Symbol(EqEq), cs[2..])) else None
    case '!' => if two then Some((Symbol(NotEq), cs[2..])) else None
    case '>' => if two then Some((Symbol(GteSym), cs[2..])) else Some((Symbol(GtSym), cs[1..]))
    case _ => if two then Some((Symbol(LteSym), cs[2..])) else Some((Symbol(LtSym), cs[1..]))
  }

  /** The string that closes with `quote`, and what follows the quote; `cs` starts after the opening quote. */
  function StringBody(quote: char, cs: string): (r: Option<(string, string)>)
    ensures r.Some? ==> |r.value.1| < |cs|
  {
    if cs == [] then None
    else if cs[0] == '\\' then
      if |cs| < 2 then None else Prepend(cs[1], StringBody(quote, cs[2..]))
    else if cs[0] == quote then Some(("", cs[1..]))
    else Prepend(cs[0], StringBody(quote, cs[1..]))
  }

  function Prepend(c: char, r: Option<(string, string)>): Option<(string, string)> {
    if r.None? then None else Some(([c] + r.value.0, r.value.1))
  }

  function PrependAll(value: string, r: Option<(string, string)>): Option<(string, string)> {
    if r.None? then None else Some((value + r.value.0, r.value.1))
  }

  lemma PrependAllStep(value: string, c: char, r: Option<(string, string)>)
    ensures PrependAll(value, Prepend(c, r)) == PrependAll(value + [c], r)
  {
    if r.Some? {
      assert value + ([c] + r.value.0) == value + [c] + r.value.0;
    }
  }

  predicate IsOperatorStart(c: char) { c == '=' || c == '!' || c == '>' || c == '<' }

  /** First token of `cs` (which does not start with white space) and the text after it. */
  function NextToken(cs: string): (r: Option<(Token, string)>)
    requires cs != []
    ensures r.Some? ==> |r.value.1| < |cs|
  {
    var c := cs[0];
    if SymbolOf(c).Some? then Some((Symbol(SymbolOf(c).value), cs[1..]))
    else if IsOperatorStart(c) then Operator(cs)
    else if c == '"' || c == '\'' then
      var body := StringBody(c, cs[1..]);
      if body.None? then None else Some((Text(body.value.0), body.value.1))
    else if IsDigit(c) then
      var n := Span(IsNumeralPart, cs);
      if ValidNumeral(cs[..n]) then Some((Number(cs[..n]), cs[n..])) else None
    else if IsIdentStart(c) then
      var n := Span(IsIdentPart, cs);
      Some((Ident(cs[..n]), cs[n..]))
    else None
  }

  /** The token stream of a text, or None where some part of it is not a token. */
  function Tokenize(cs: string): Option<seq<Token>>
    decreases |cs|
  {
    if cs == [] then Some([])
    else if IsWhitespace(cs[0]) then Tokenize(cs[1..])
    else
      var first := NextToken(cs);
      if first.None? then None else Cons([first.value.0], Tokenize(first.value.1))
  }

  function Cons(ts: seq<Token>, rest: Option<seq<Token>>): Option<seq<Token>> {
    if rest.None? then None else Some(ts + rest.value)
  }

  // ---------- the scanner itself ----------

  method ReadString(chars: string, start: nat, quote: char) returns (r: Option<(string, nat)>)
    requires start < |chars|
    ensures r.None? <==> StringBody(quote, chars[start + 1..]).None?
    ensures r.Some? ==> start < r.value.1 <= |chars|
                        && StringBody(quote, chars[start + 1..]) == Some((r.value.0, chars[r.value.1..]))
  {
    var value: string := [];
    var i := start + 1;
    ghost var spec := StringBody(quote, chars[start + 1..]);
    assert spec.Some? ==> [] + spec.value.0 == spec.value.0;
    while i < |chars|
      invariant start < i <= |chars|
      invariant spec == PrependAll(value, StringBody(quote, chars[i..]))
    {
      var c := chars[i];
      PrependAllStep(value, chars[i], StringBody(quote, chars[i + 1..]));
      if c == '\\' {
        if i + 1 >= |chars| { return None; }
        assert chars[i..][2..] == chars[i + 2..];
        PrependAllStep(value, chars[i + 1], StringBody(quote, chars[i + 2..]));
        value := value + [chars[i + 1]];
        i := i + 2;
      } else if c == quote {
        assert chars[i..][1..] == chars[i + 1..];
        assert value + "" == value;
        return Some((value, i + 1));
      } else {
        assert chars[i..][1..] == chars[i + 1..];
        value := value + [c];
        i := i + 1;
      }
    }
    return None;
  }

  method ReadNumber(chars: string, start: nat) returns (r: Option<(string, nat)>)
    requires start < |chars|
    ensures var n := Span(IsNumeralPart, chars[start..]);
            r == if ValidNumeral(chars[start..][..n]) then Some((chars[start..][..n], start + n)) else None
  {
    var i := ScanWhile(IsNumeralPart, chars, start);
    assert chars[start..][..i - start] == chars[start..i];
    r := if ValidNumeral(chars[start..i]) then Some((chars[start..i], i)) else None;
  }

  method ReadIdent(chars: string, start: nat) returns (name: string, next: nat)
    requires start < |chars|
    ensures var n := Span(IsIdentPart, chars[start..]);
            name == chars[start..][..n] && next == start + n
  {
    next := ScanWhile(IsIdentPart, chars, start);
    name := chars[start..next];
    assert chars[start..][..next - start] == chars[start..next];
  }

  /** The scanning loop shared by numbers and identifiers. */
  method ScanWhile(p: char -> bool, chars: string, start: nat) returns (i: nat)
    requires start <= |chars|
    ensures i == start + Span(p, chars[start..])
  {
    i := start;
    while i < |chars| && p(chars[i])
      invariant start <= i <= |chars|
      invariant start + Span(p, chars[start..]) == i + Span(p, chars[i..])
    {
      assert chars[i..][1..] == chars[i + 1..];
      i := i + 1;
    }
  }

  method ScanToken(chars: string, i: nat) returns (r: Option<(Token, nat)>)
    requires i < |chars|
    ensures r.None? <==> NextToken(chars[i..]).None?
    ensures r.Some? ==> i < r.value.1 <= |chars|
                        && NextToken(chars[i..]) == Some((r.value.0, chars[r.value.1..]))
  {
    var c := chars[i];
    assert chars[i..][0] == c && chars[i..][1..] == chars[i + 1..];
    if SymbolOf(c).Some? {
      return Some((Symbol(SymbolOf(c).value), i + 1));
    }
    if IsOperatorStart(c) {
      var two := i + 1 < |chars| && chars[i + 1] == '=';
      if two { assert chars[i..][2..] == chars[i + 2..]; }
      if (c == '=' || c == '!') && !two { return None; }
      var sym := match c
        case '=' => EqEq
        case '!' => NotEq
        case '>' => if two then GteSym else GtSym
        case _ => if two then LteSym else LtSym;
      return Some((Symbol(sym), i + (if two then 1 else 0) + 1));
    }
    if c == '"' || c == '\'' {
      var body := ReadString(chars, i, c);
      return if body.None? then None else Some((Text(body.value.0), body.value.1));
    }
    if IsDigit(c) {
      var number := ReadNumber(chars, i);
      ghost var n := Span(IsNumeralPart, chars[i..]);
      assert chars[i..][n..] == chars[i + n..];
      return if number.None? then None else Some((Number(number.value.0), number.value.1));
    }
    if IsIdentStart(c) {
      var name, next := ReadIdent(chars, i);
      assert chars[i..][next - i..] == chars[next..];
      return Some((Ident(name), next));
    }
    return None;
  }

  /** The tokenizer's loop computes the token stream. */
  method Scan(chars: string) returns (r: Option<seq<Token>>)
    ensures r == Tokenize(chars)
  {
    var tokens: seq<Token> := [];
    var i := 0;
    assert chars[0..] == chars;
    assert Tokenize(chars).Some? ==> [] + Tokenize(chars).value == Tokenize(chars).value;
    while i < |chars|
      invariant 0 <= i <= |chars|
      invariant Tokenize(chars) == Cons(tokens, Tokenize(chars[i..]))
    {
      if IsWhitespace(chars[i]) {
        assert chars[i..][1..] == chars[i + 1..];
        i := i + 1;
      } else {
        var next := ScanToken(chars, i);
        if next.None? { return None; }
        ghost var rest := Tokenize(chars[next.value.1..]);
        assert rest.Some? ==> tokens + ([next.value.0] + rest.value) == tokens + [next.value.0] + rest.value;
        tokens := tokens + [next.value.0];
        i := next.value.1;
      }
    }
    assert chars[i..] == [] && tokens + [] == tokens;
    return Some(tokens);
  }

  // ---------- rendering ----------

  predicate WellFormedIdent(name: string) {
    name != [] && IsIdentStart(name[0]) && forall i :: 0 <= i < |name| ==> IsIdentPart(name[i])
  }

  predicate WellFormedNumeral(text: string) {
    && text != [] && IsDigit(text[0]) && ValidNumeral(text)
    && forall i :: 0 <= i < |text| ==> IsNumeralPart(text[i])
  }

  /** The tokens the tokenizer can produce. */
  predicate WellFormedToken(t: Token) {
    && (t.Ident? ==> WellFormedIdent(t.name))
    && (t.Number? ==> WellFormedNumeral(t.numeral))
  }

  predicate WellFormedTokens(ts: seq<Token>) { forall i :: 0 <= i < |ts| ==> WellFormedToken(ts[i]) }

  function RenderSym(s: Sym): (r: string)
    ensures r != []
  {
    match s
    case Dollar => "$" case Dot => "." case LParen => "(" case RParen => ")"
    case LBracket => "[" case RBracket => "]" case Comma => "," case Plus => "+"
    case Minus => "-" case Star => "*" case Slash => "/" case Percent => "%"
    case EqEq => "==" case NotEq => "!=" case GtSym => ">" case GteSym => ">="
    case LtSym => "<" case LteSym => "<="
  }

  function Escape(text: string): string {
    if text == [] then []
    else (if text[0] == '"' || text[0] == '\\' then ['\\', text[0]] else [text[0]]) + Escape(text[1..])
  }

  function RenderToken(t: Token): string {
    match t
    case Ident(name) => name
    case Number(numeral) => numeral
    case Text(text) => ['"'] + Escape(text) + ['"']
    case Symbol(sym) => RenderSym(sym)
  }

  /** Whether `c` right after token `t` would be read as part of it. */
  predicate Extends(t: Token, c: char) {
    match t
    case Ident(_) => IsIdentPart(c)
    case Number(_) => IsNumeralPart(c)
    case Text(_) => false
    case Symbol(sym) => (sym == GtSym || sym == LtSym) && c == '='
  }

  /** The blank between token `t` and the text `rest`, where one is needed. */
  function Separator(t: Token, rest: string): string {
    if rest != [] && Extends(t, rest[0]) then " " else ""
  }

  /** The text of a token stream, with a blank only between tokens that would run together. */
  function Render(ts: seq<Token>): string {
    if ts == [] then []
    else
      var rest := Render(ts[1..]);
      RenderToken(ts[0]) + (Separator(ts[0], rest) + rest)
  }

  // ---------- the round trip ----------

  lemma {:induction false} SpanOfPrefix(p: char -> bool, xs: string, rest: string)
    requires forall i :: 0 <= i < |xs| ==> p(xs[i])
    requires rest == [] || !p(rest[0])
    ensures Span(p, xs + rest) == |xs|
  {
    if xs == [] {
      assert xs + rest == rest;
    } else {
      assert (xs + rest)[1..] == xs[1..] + rest;
      SpanOfPrefix(p, xs[1..], rest);
    }
  }

  lemma {:induction false} StringBodyOfEscape(text: string, rest: string)
    ensures StringBody('"', Escape(text) + ['"'] + rest) == Some((text, rest))
  {
    var cs := Escape(text) + ['"'] + rest;
    if text == [] {
      assert cs == ['"'] + rest;
    } else {
      StringBodyOfEscape(text[1..], rest);
      var tail := Escape(text[1..]) + ['"'] + rest;
      assert [text[0]] + text[1..] == text;
      if text[0] == '"' || text[0] == '\\' {
        assert cs == ['\\', text[0]] + tail;
        assert cs[2..] == tail;
      } else {
        assert cs == [text[0]] + tail;
        assert cs[1..] == tail;
      }
    }
  }

  lemma NextTokenOfIdent(name: string, rest: string)
    requires WellFormedIdent(name)
    requires rest == [] || !IsIdentPart(rest[0])
    ensures NextToken(name + rest) == Some((Ident(name), rest))
  {
    var cs := name + rest;
    SpanOfPrefix(IsIdentPart, name, rest);
    assert cs[0] == name[0];
    assert cs[..|name|] == name;
    assert cs[|name|..] == rest;
  }

  lemma NextTokenOfNumeral(numeral: string, rest: string)
    requires WellFormedNumeral(numeral)
    requires rest == [] || !IsNumeralPart(rest[0])
    ensures NextToken(numeral + rest) == Some((Number(numeral), rest))
  {
    var cs := numeral + rest;
    SpanOfPrefix(IsNumeralPart, numeral, rest);
    assert cs[0] == numeral[0];
    assert cs[..|numeral|] == numeral;
    assert cs[|numeral|..] == rest;
  }

  lemma NextTokenOfText(text: string, rest: string)
    ensures NextToken(RenderToken(Text(text)) + rest) == Some((Text(text), rest))
  {
    var cs := RenderToken(Text(text)) + rest;
    StringBodyOfEscape(text, rest);
    assert cs[0] == '"';
    assert cs[1..] == Escape(text) + ['"'] + rest;
    assert StringBody('"', cs[1..]) == Some((text, rest));
    assert SymbolOf('"').None? && !IsOperatorStart('"');
  }

  /** A rendered token followed by text that does not extend it is read back as that token. */
  lemma NextTokenOfRender(t: Token, rest: string)
    requires WellFormedToken(t)
    requires rest == [] || !Extends(t, rest[0])
    ensures RenderToken(t) != [] && !IsWhitespace(RenderToken(t)[0])
    ensures NextToken(RenderToken(t) + rest) == Some((t, rest))
  {
    match t
    case Ident(name) => NextTokenOfIdent(name, rest);
    case Number(numeral) => NextTokenOfNumeral(numeral, rest);
    case Text(text) => NextTokenOfText(text, rest);
    case Symbol(sym) => NextTokenOfSymbol(sym, rest);
  }

  lemma NextTokenOfSymbol(sym: Sym, rest: string)
    requires rest == [] || !Extends(Symbol(sym), rest[0])
    ensures NextToken(RenderSym(sym) + rest) == Some((Symbol(sym), rest))
  {
    var cs := RenderSym(sym) + rest;
    assert cs[0] == RenderSym(sym)[0];
    assert cs[|RenderSym(sym)|..] == rest;
    if |cs| > 1 {
      assert cs[1] == if |RenderSym(sym)| == 2 then '=' else rest[0];
    }
  }

  lemma TokenizeStep(cs: string, t: Token, rest: string)
    requires cs != [] && !IsWhitespace(cs[0]) && NextToken(cs) == Some((t, rest))
    requires Tokenize(rest).Some?
    ensures Tokenize(cs) == Some([t] + Tokenize(rest).value)
  {
  }

  lemma SeparatorSeparates(t: Token, rest: string)
    ensures var after := Separator(t, rest) + rest;
            Tokenize(after) == Tokenize(rest) && (after == [] || !Extends(t, after[0]))
  {
    var after := Separator(t, rest) + rest;
    if rest != [] && Extends(t, rest[0]) {
      assert after[0] == ' ';
      assert after[1..] == rest;
    } else {
      assert after == rest;
    }
  }

  /** Tokenizing a rendered token stream gives the stream back. */
  lemma {:induction false} TokenizeRender(ts: seq<Token>)
    requires WellFormedTokens(ts)
    ensures Tokenize(Render(ts)) == Some(ts)
  {
    if ts != [] {
      TokenizeRender(ts[1..]);
      var rest := Render(ts[1..]);
      SeparatorSeparates(ts[0], rest);
      var after := Separator(ts[0], rest) + rest;
      NextTokenOfRender(ts[0], after);
      TokenizeStep(RenderToken(ts[0]) + after, ts[0], after);
      assert [ts[0]] + ts[1..] == ts;
    }
  }

  lemma NextTokenWellFormed(cs: string)
    requires cs != [] && NextToken(cs).Some?
    ensures WellFormedToken(NextToken(cs).value.0)
  {
    var n, m := Span(IsNumeralPart, cs), Span(IsIdentPart, cs);
    assert IsDigit(cs[0]) ==> n > 0 && cs[..n][0] == cs[0];
    assert IsIdentStart(cs[0]) ==> m > 0 && cs[..m][0] == cs[0];
  }

  /** Every token the tokenizer produces is well formed. */
  lemma {:induction false} TokenizeWellFormed(cs: string)
    requires Tokenize(cs).Some?
    ensures WellFormedTokens(Tokenize(cs).value)
    decreases |cs|
  {
    if cs != [] {
      if IsWhitespace(cs[0]) {
        TokenizeWellFormed(cs[1..]);
      } else {
        NextTokenWellFormed(cs);
        TokenizeWellFormed(NextToken(cs).value.1);
      }
    }
  }
}
