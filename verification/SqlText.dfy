/** Characters and tokens of the accepted SQL subset: the raw-text gates of the
    policy, a lexer, and the printer that separates tokens by one space. */
module SqlText {
  import opened Wrappers
  import opened Numerals

  // ---------------------------------------------------------------- characters

  predicate IsLetter(c: char) { 'a' <= c <= 'z' || 'A' <= c <= 'Z' || c == '_' }

  predicate IsWordChar(c: char) { IsLetter(c) || IsDigit(c) }

  predicate IsNumberChar(c: char) { IsDigit(c) || c == '.' }

  function LowerChar(c: char): char {
    if 'A' <= c <= 'Z' then c - 'A' + 'a' else c
  }

  function Lower(s: string): (r: string)
    ensures |r| == |s|
    ensures forall i :: 0 <= i < |s| ==> r[i] == LowerChar(s[i])
  {
    seq(|s|, i requires 0 <= i < |s| => LowerChar(s[i]))
  }

  lemma LowerIdempotent(s: string)
    ensures Lower(Lower(s)) == Lower(s)
  {
    assert forall i :: 0 <= i < |s| ==> Lower(Lower(s))[i] == Lower(s)[i];
  }

  // ---------------------------------------------------------------- raw-text gates

  predicate HasPair(s: string, a: char, b: char) {
    exists i :: 0 <= i < |s| - 1 && s[i] == a && s[i + 1] == b
  }

  /** The three comment markers the policy refuses anywhere in the text. */
  predicate HasComment(s: string) {
    HasPair(s, '-', '-') || HasPair(s, '/', '*') || HasPair(s, '*', '/')
  }

  /** Text that may still hold one statement: no comment marker and no semicolon. */
  predicate Clean(s: string) { !HasComment(s) && ';' !in s }

  lemma CleanSlice(s: string, i: nat, j: nat)
    requires Clean(s) && i <= j <= |s|
    ensures Clean(s[i..j])
  {
    var t := s[i..j];
    forall a, b | HasPair(t, a, b)
      ensures HasPair(s, a, b)
    {
      var k :| 0 <= k < |t| - 1 && t[k] == a && t[k + 1] == b;
      assert s[i + k] == a && s[i + k + 1] == b;
    }
  }

  /** `sql.rstrip()` */
  function RStripSpace(s: string): (r: string)
    ensures r <= s
    ensures r == [] || !IsSpace(r[|r| - 1])
  {
    if s != [] && IsSpace(s[|s| - 1]) then RStripSpace(s[..|s| - 1]) else s
  }

  /** `sql.rstrip(";")` */
  function RStripSemicolons(s: string): (r: string)
    ensures r <= s
    ensures r == [] || r[|r| - 1] != ';'
  {
    if s != [] && s[|s| - 1] == ';' then RStripSemicolons(s[..|s| - 1]) else s
  }

  function Body(sql: string): (r: string)
    ensures r <= sql
  {
    RStripSemicolons(RStripSpace(sql))
  }

  // ---------------------------------------------------------------- tokens

  datatype Keyword = SELECT | FROM | JOIN | LEFT | ON | WHERE | LIMIT | AS | AND | OR

  datatype Symbol =
    | LParen | RParen | Comma | Dot | Star | Slash | Plus | Minus | Concat
    | Eq | Ne | Lt | Gt | Le | Ge

  function KeywordText(k: Keyword): string {
    match k
    case SELECT => "SELECT" case FROM => "FROM" case JOIN => "JOIN" case LEFT => "LEFT" case ON => "ON"
    case WHERE => "WHERE" case LIMIT => "LIMIT" case AS => "AS" case AND => "AND" case OR => "OR"
  }

  function KeywordOf(lowered: string): Option<Keyword> {
    if lowered == "select" then Some(SELECT) else if lowered == "from" then Some(FROM)
    else if lowered == "join" then Some(JOIN) else if lowered == "left" then Some(LEFT)
    else if lowered == "on" then Some(ON) else if lowered == "where" then Some(WHERE)
    else if lowered == "limit" then Some(LIMIT) else if lowered == "as" then Some(AS)
    else if lowered == "and" then Some(AND) else if lowered == "or" then Some(OR) else None
  }

  function SymbolText(s: Symbol): string {
    match s
    case LParen => "(" case RParen => ")" case Comma => "," case Dot => "." case Star => "*"
    case Slash => "/" case Plus => "+" case Minus => "-" case Concat => "||" case Eq => "="
    case Ne => "<>" case Lt => "<" case Gt => ">" case Le => "<=" case Ge => ">="
  }

  function SymbolOf(text: string): Option<Symbol> {
    if text == "(" then Some(LParen) else if text == ")" then Some(RParen)
    else if text == "," then Some(Comma) else if text == "." then Some(Dot)
    else if text == "*" then Some(Star) else if text == "/" then Some(Slash)
    else if text == "+" then Some(Plus) else if text == "-" then Some(Minus)
    else if text == "||" then Some(Concat) else if text == "=" then Some(Eq)
    else if text == "<>" then Some(Ne) else if text == "<" then Some(Lt)
    else if text == ">" then Some(Gt) else if text == "<=" then Some(Le)
    else if text == ">=" then Some(Ge) else None
  }

  predicate IsWord(s: string) {
    |s| > 0 && IsLetter(s[0]) && forall i :: 0 <= i < |s| ==> IsWordChar(s[i])
  }

  predicate IsName(s: string) { IsWord(s) && KeywordOf(Lower(s)).None? }

  predicate IsNumber(s: string) {
    |s| > 0 && IsDigit(s[0]) && forall i :: 0 <= i < |s| ==> IsNumberChar(s[i])
  }

  /** Index just past the quote that closes a string literal; `''` is an escaped quote. */
  function QuoteEnd(s: string, i: nat): (r: Option<nat>)
    requires i <= |s|
    ensures r.Some? ==> i < r.value <= |s|
    decreases |s| - i
  {
    if i == |s| then None
    else if s[i] != '\'' then QuoteEnd(s, i + 1)
    else if i + 1 < |s| && s[i + 1] == '\'' then QuoteEnd(s, i + 2)
    else Some(i + 1)
  }

  predicate IsQuoted(s: string) {
    |s| > 0 && s[0] == '\'' && QuoteEnd(s, 1) == Some(|s|) && Clean(s)
  }

  type Name = s: string | IsName(s) witness "x"
  type Number = s: string | IsNumber(s) witness "0"
  type Quoted = s: string | IsQuoted(s) witness "''"

  datatype Token = Key(k: Keyword) | Id(name: Name) | Num(n: Number) | Str(q: Quoted) | Sym(s: Symbol)

  function TokenText(t: Token): string {
    match t
    case Key(k) => KeywordText(k)
    case Id(name) => name
    case Num(n) => n
    case Str(q) => q
    case Sym(s) => SymbolText(s)
  }

  function LowerName(n: Name): (r: Name)
    ensures r == Lower(n)
  {
    LowerIdempotent(n);
    Lower(n)
  }

  // ---------------------------------------------------------------- lexer

  function Span(p: char -> bool, s: string): (n: nat)
    ensures n <= |s|
    ensures forall i :: 0 <= i < n ==> p(s[i])
    ensures n < |s| ==> !p(s[n])
  {
    if s != [] && p(s[0]) then 1 + Span(p, s[1..]) else 0
  }

  /** One token from the front of non-blank text, and how many characters it took. */
  function LexOne(s: string): (r: Option<(Token, nat)>)
    requires |s| > 0 && Clean(s)
    ensures r.Some? ==> 0 < r.value.1 <= |s|
  {
    if IsLetter(s[0]) then
      var n := Span(IsWordChar, s);
      var w := s[..n];
      match KeywordOf(Lower(w))
      case Some(k) => Some((Key(k), n))
      case None => Some((Id(w), n))
    else if IsDigit(s[0]) then
      var n := Span(IsNumberChar, s);
      Some((Num(s[..n]), n))
    else if s[0] == '\'' then
      match QuoteEnd(s, 1)
      case None => None
      case Some(n) => CleanSlice(s, 0, n); QuoteEndLocal(s, n, 1); Some((Str(s[..n]), n))
    else if |s| >= 2 && SymbolOf(s[..2]).Some? then Some((Sym(SymbolOf(s[..2]).value), 2))
    else match SymbolOf(s[..1])
      case None => None
      case Some(y) => Some((Sym(y), 1))
  }

  function Lex(s: string): Option<seq<Token>>
    requires Clean(s)
    decreases |s|
  {
    if s == [] then Some([])
    else if IsSpace(s[0]) then CleanSlice(s, 1, |s|); Lex(s[1..])
    else match LexOne(s)
      case None => None
      case Some((t, n)) =>
        CleanSlice(s, n, |s|);
        match Lex(s[n..])
        case None => None
        case Some(ts) => Some([t] + ts)
  }

  /** A literal that closes inside a prefix closes at the same place in the prefix alone. */
  lemma {:induction false} QuoteEndLocal(s: string, n: nat, i: nat)
    requires i <= n <= |s| && QuoteEnd(s, i) == Some(n)
    ensures QuoteEnd(s[..n], i) == Some(n)
    decreases |s| - i
  {
    if s[i] != '\'' {
      QuoteEndLocal(s, n, i + 1);
    } else if i + 1 < |s| && s[i + 1] == '\'' {
      QuoteEndLocal(s, n, i + 2);
    }
  }

  lemma {:induction false} QuoteEndExtend(q: string, rest: string, i: nat)
    requires i <= |q| && QuoteEnd(q, i) == Some(|q|)
    requires rest == [] || rest[0] != '\''
    ensures QuoteEnd(q + rest, i) == Some(|q|)
    decreases |q| - i
  {
    var s := q + rest;
    if q[i] != '\'' {
      QuoteEndExtend(q, rest, i + 1);
    } else if i + 1 < |q| && q[i + 1] == '\'' {
      QuoteEndExtend(q, rest, i + 2);
    } else {
      assert i + 1 == |q|;
    }
  }

  lemma {:induction false} SpanExact(p: char -> bool, w: string, rest: string)
    requires forall i :: 0 <= i < |w| ==> p(w[i])
    requires rest == [] || !p(rest[0])
    ensures Span(p, w + rest) == |w|
  {
    if w == [] {
      assert w + rest == rest;
    } else {
      assert (w + rest)[1..] == w[1..] + rest;
      SpanExact(p, w[1..], rest);
    }
  }

  // ---------------------------------------------------------------- printer

  function Unlex(ts: seq<Token>): string {
    if ts == [] then ""
    else if |ts| == 1 then TokenText(ts[0])
    else TokenText(ts[0]) + " " + Unlex(ts[1..])
  }

  lemma LowerOfKeyword(k: Keyword)
    ensures IsWord(KeywordText(k)) && KeywordOf(Lower(KeywordText(k))) == Some(k)
  {
    match k
    case SELECT => assert Lower("SELECT") == "select";
    case FROM => assert Lower("FROM") == "from";
    case JOIN => assert Lower("JOIN") == "join";
    case LEFT => assert Lower("LEFT") == "left";
    case ON => assert Lower("ON") == "on";
    case WHERE => assert Lower("WHERE") == "where";
    case LIMIT => assert Lower("LIMIT") == "limit";
    case AS => assert Lower("AS") == "as";
    case AND => assert Lower("AND") == "and";
    case OR => assert Lower("OR") == "or";
  }

  lemma TokenClean(t: Token)
    ensures Clean(TokenText(t)) && |TokenText(t)| > 0
    ensures !IsSpace(TokenText(t)[0])
    ensures !IsSpace(TokenText(t)[|TokenText(t)| - 1])
  {
    match t
    case Key(k) => LowerOfKeyword(k);
    case Id(n) =>
    case Num(n) =>
    case Str(q) => QuotedEndsInQuote(q, 1);
    case Sym(y) => SymbolClean(y);
  }

  lemma SymbolClean(y: Symbol)
    ensures Clean(SymbolText(y)) && |SymbolText(y)| > 0
    ensures !IsSpace(SymbolText(y)[0])
    ensures !IsSpace(SymbolText(y)[|SymbolText(y)| - 1])
  {
  }

  lemma {:induction false} QuotedEndsInQuote(q: string, i: nat)
    requires i <= |q| && QuoteEnd(q, i) == Some(|q|)
    ensures |q| > 0 && q[|q| - 1] == '\''
    decreases |q| - i
  {
    if q[i] != '\'' {
      QuotedEndsInQuote(q, i + 1);
    } else if i + 1 < |q| && q[i + 1] == '\'' {
      QuotedEndsInQuote(q, i + 2);
    }
  }

  /** Printed tokens never spell a comment marker or a semicolon: a revalidation of
      normalised text cannot fail at the two raw-text gates. */
  lemma {:induction false} UnlexClean(ts: seq<Token>)
    ensures Clean(Unlex(ts)) && Body(Unlex(ts)) == Unlex(ts)
    ensures ts != [] ==> |Unlex(ts)| > 0 && !IsSpace(Unlex(ts)[|Unlex(ts)| - 1])
  {
    if ts != [] {
      TokenClean(ts[0]);
      UnlexClean(ts[1..]);
      if |ts| > 1 {
        CleanJoin(TokenText(ts[0]), Unlex(ts[1..]));
      }
    }
  }

  lemma CleanJoin(a: string, b: string)
    requires Clean(a) && Clean(b)
    ensures Clean(a + " " + b)
  {
    var s := a + " " + b;
    forall i | 0 <= i < |s| - 1
      ensures !(s[i] == '-' && s[i + 1] == '-')
      ensures !(s[i] == '/' && s[i + 1] == '*') && !(s[i] == '*' && s[i + 1] == '/')
    {
      if i + 1 < |a| {
        assert s[i] == a[i] && s[i + 1] == a[i + 1];
      } else if i > |a| {
        assert s[i] == b[i - |a| - 1] && s[i + 1] == b[i - |a|];
      }
    }
  }

  lemma LexOneOfToken(t: Token, rest: string)
    requires rest == [] || rest[0] == ' '
    requires Clean(TokenText(t) + rest)
    ensures |TokenText(t)| > 0 && LexOne(TokenText(t) + rest) == Some((t, |TokenText(t)|))
  {
    var w := TokenText(t);
    TokenClean(t);
    var s := w + rest;
    assert s[..|w|] == w;
    match t
    case Key(k) => LowerOfKeyword(k); SpanExact(IsWordChar, w, rest);
    case Id(n) => SpanExact(IsWordChar, w, rest);
    case Num(n) => SpanExact(IsNumberChar, w, rest);
    case Str(q) => QuoteEndExtend(q, rest, 1);
    case Sym(y) => LexSymbol(y, rest);
  }

  lemma LexSymbol(y: Symbol, rest: string)
    requires rest == [] || rest[0] == ' '
    requires Clean(SymbolText(y) + rest)
    ensures |SymbolText(y)| > 0 && LexOne(SymbolText(y) + rest) == Some((Sym(y), |SymbolText(y)|))
  {
    var w := SymbolText(y);
    var s := w + rest;
    assert SymbolOf(w) == Some(y);
    assert s[..|w|] == w;
    if |w| == 1 && |s| >= 2 {
      assert s[..2][1] == ' ';
    }
  }

  lemma LexStep(t: Token, rest: string, ts: seq<Token>)
    requires rest == [] || rest[0] == ' '
    requires Clean(TokenText(t) + rest) && Clean(rest)
    requires Lex(rest) == Some(ts)
    ensures Lex(TokenText(t) + rest) == Some([t] + ts)
  {
    TokenClean(t);
    LexOneOfToken(t, rest);
    assert (TokenText(t) + rest)[|TokenText(t)|..] == rest;
  }

  lemma LexBlank(s: string)
    requires Clean(s) && Clean(" " + s)
    ensures Lex(" " + s) == Lex(s)
  {
    assert (" " + s)[1..] == s;
  }

  lemma UnlexCons(t: Token, ts: seq<Token>)
    requires ts != []
    ensures Unlex([t] + ts) == TokenText(t) + (" " + Unlex(ts))
  {
    assert ([t] + ts)[1..] == ts;
  }

  lemma LexUnlexCons(t: Token, rest: seq<Token>)
    requires rest != [] && Clean(Unlex(rest)) && Clean(Unlex([t] + rest))
    requires Lex(Unlex(rest)) == Some(rest)
    ensures Lex(Unlex([t] + rest)) == Some([t] + rest)
  {
    var w, s := TokenText(t), " " + Unlex(rest);
    UnlexCons(t, rest);
    CleanSlice(w + s, |w|, |w + s|);
    assert (w + s)[|w|..] == s;
    LexBlank(Unlex(rest));
    LexStep(t, s, rest);
  }

  /** Lexing undoes printing. */
  lemma {:induction false} LexUnlex(ts: seq<Token>)
    ensures Clean(Unlex(ts)) && Lex(Unlex(ts)) == Some(ts)
  {
    UnlexClean(ts);
    if |ts| == 1 {
      assert Unlex(ts) == TokenText(ts[0]) + [];
      LexStep(ts[0], [], []);
      assert ts == [ts[0]] + [];
    } else if |ts| > 1 {
      LexUnlex(ts[1..]);
      assert ts == [ts[0]] + ts[1..];
      LexUnlexCons(ts[0], ts[1..]);
    }
  }
}
