/** Syntax trees of the accepted SELECT subset, a precedence parser and a printer. */
module SqlAst {
  import opened Wrappers
  import opened SqlText

  datatype BinOp = OrOp | AndOp | EqOp | NeOp | LtOp | GtOp | LeOp | GeOp | AddOp | SubOp | ConcatOp | MulOp | DivOp

  datatype Expr =
    | NumLit(n: Number)
    | StrLit(q: Quoted)
    | StarExpr
    | Col(qualifier: Option<Name>, name: Name)
    | Call(fn: Name, args: seq<Expr>)
    | Bin(op: BinOp, left: Expr, right: Expr)

  datatype Item = Item(e: Expr, alias: Option<Name>)

  datatype JoinKind = Inner | LeftOuter

  datatype Source = Source(kind: JoinKind, schema: Option<Name>, table: Name, alias: Option<Name>, on: Option<Expr>)

  datatype Query = Query(items: seq<Item>, sources: seq<Source>, where: Option<Expr>, limit: Option<Expr>)

  /** The first source stands after FROM; every other one is joined on a condition. */
  predicate WellFormed(q: Query) {
    |q.items| > 0 && Joined(q.sources)
  }

  predicate Joined(sources: seq<Source>) {
    && (|sources| > 0 ==> sources[0].kind == Inner && sources[0].on.None?)
    && forall i :: 0 < i < |sources| ==> sources[i].on.Some?
  }

  // ---------------------------------------------------------------- operators

  function Level(op: BinOp): (l: nat)
    ensures l < 5
  {
    match op
    case OrOp => 0
    case AndOp => 1
    case AddOp => 3 case SubOp => 3 case ConcatOp => 3
    case MulOp => 4 case DivOp => 4
    case _ => 2
  }

  function OpToken(op: BinOp): Token {
    match op
    case OrOp => Key(OR) case AndOp => Key(AND)
    case EqOp => Sym(Eq) case NeOp => Sym(Ne) case LtOp => Sym(Lt)
    case GtOp => Sym(Gt) case LeOp => Sym(Le) case GeOp => Sym(Ge)
    case AddOp => Sym(Plus) case SubOp => Sym(Minus) case ConcatOp => Sym(Concat)
    case MulOp => Sym(Star) case DivOp => Sym(Slash)
  }

  function OpOf(t: Token): (r: Option<BinOp>)
    ensures r.Some? ==> OpToken(r.value) == t
    ensures r.None? ==> forall op :: OpToken(op) != t
  {
    match t
    case Key(OR) => Some(OrOp) case Key(AND) => Some(AndOp)
    case Sym(Eq) => Some(EqOp) case Sym(Ne) => Some(NeOp) case Sym(Lt) => Some(LtOp)
    case Sym(Gt) => Some(GtOp) case Sym(Le) => Some(LeOp) case Sym(Ge) => Some(GeOp)
    case Sym(Plus) => Some(AddOp) case Sym(Minus) => Some(SubOp) case Sym(Concat) => Some(ConcatOp)
    case Sym(Star) => Some(MulOp) case Sym(Slash) => Some(DivOp)
    case _ => None
  }

  predicate OpAtLevel(ts: seq<Token>, l: nat) {
    ts != [] && OpOf(ts[0]).Some? && Level(OpOf(ts[0]).value) == l
  }

  lemma OpOfToken(op: BinOp)
    ensures OpOf(OpToken(op)) == Some(op)
  {
    match op {
      case OrOp => case AndOp => case EqOp => case NeOp => case LtOp => case GtOp => case LeOp =>
      case GeOp => case AddOp => case SubOp => case ConcatOp => case MulOp => case DivOp =>
    }
  }

  // ---------------------------------------------------------------- expression parser

  datatype Parsed<+T> = Fail | Got(v: T, rest: seq<Token>)

  predicate At(ts: seq<Token>, t: Token) { ts != [] && ts[0] == t }

  /** Levels 0 to 4 are the left-associative operators, loosest first; level 5 is a primary. */
  function ParseLevel(l: nat, ts: seq<Token>): (r: Parsed<Expr>)
    requires l <= 5
    ensures r.Got? ==> |r.rest| < |ts|
    decreases |ts|, 6 - l
  {
    if l == 5 then ParsePrimary(ts)
    else match ParseLevel(l + 1, ts)
      case Fail => Fail
      case Got(e, rest) => ParseLoop(l, e, rest)
  }

  function ParseLoop(l: nat, acc: Expr, ts: seq<Token>): (r: Parsed<Expr>)
    requires l < 5
    ensures r.Got? ==> |r.rest| <= |ts|
    decreases |ts|, 0
  {
    if !OpAtLevel(ts, l) then Got(acc, ts)
    else match ParseLevel(l + 1, ts[1..])
      case Fail => Fail
      case Got(e, rest) => ParseLoop(l, Bin(OpOf(ts[0]).value, acc, e), rest)
  }

  function ParsePrimary(ts: seq<Token>): (r: Parsed<Expr>)
    ensures r.Got? ==> |r.rest| < |ts|
    decreases |ts|, 0
  {
    if ts == [] then Fail
    else match ts[0]
      case Num(n) => Got(NumLit(n), ts[1..])
      case Str(q) => Got(StrLit(q), ts[1..])
      case Sym(Star) => Got(StarExpr, ts[1..])
      case Sym(LParen) =>
        (match ParseLevel(0, ts[1..])
         case Fail => Fail
         case Got(e, rest) => if At(rest, Sym(RParen)) then Got(e, rest[1..]) else Fail)
      case Id(name) =>
        if At(ts[1..], Sym(LParen)) then
          if At(ts[2..], Sym(RParen)) then Got(Call(name, []), ts[3..])
          else match ParseArgs(ts[2..])
            case Fail => Fail
            case Got(args, rest) => Got(Call(name, args), rest)
        else if At(ts[1..], Sym(Dot)) then
          if |ts| > 2 && ts[2].Id? then Got(Col(Some(name), ts[2].name), ts[3..]) else Fail
        else Got(Col(None, name), ts[1..])
      case _ => Fail
  }

  /** A non-empty argument list and its closing parenthesis. */
  function ParseArgs(ts: seq<Token>): (r: Parsed<seq<Expr>>)
    ensures r.Got? ==> |r.rest| < |ts|
    decreases |ts|, 7
  {
    match ParseLevel(0, ts)
    case Fail => Fail
    case Got(e, rest) =>
      if At(rest, Sym(RParen)) then Got([e], rest[1..])
      else if At(rest, Sym(Comma)) then
        match ParseArgs(rest[1..])
        case Fail => Fail
        case Got(es, more) => Got([e] + es, more)
      else Fail
  }

  // ---------------------------------------------------------------- expression printer

  /** An expression as an operand of level `l`: only a looser operator needs parentheses. The
      right operand of a left-associative operator stands one level higher. */
  function TokensAt(l: nat, e: Expr): seq<Token>
    decreases e
  {
    match e
    case NumLit(n) => [Num(n)]
    case StrLit(q) => [Str(q)]
    case StarExpr => [Sym(Star)]
    case Col(None, name) => [Id(name)]
    case Col(Some(a), name) => [Id(a), Sym(Dot), Id(name)]
    case Call(fn, args) => [Id(fn), Sym(LParen)] + (ArgTokens(args) + [Sym(RParen)])
    case Bin(op, a, b) =>
      var inner := TokensAt(Level(op), a) + ([OpToken(op)] + TokensAt(Level(op) + 1, b));
      if Level(op) < l then [Sym(LParen)] + (inner + [Sym(RParen)]) else inner
  }

  function ExprTokens(e: Expr): seq<Token> { TokensAt(0, e) }

  function ArgTokens(args: seq<Expr>): seq<Token>
    decreases args
  {
    if args == [] then []
    else if |args| == 1 then TokensAt(0, args[0])
    else TokensAt(0, args[0]) + ([Sym(Comma)] + ArgTokens(args[1..]))
  }

  /** What may follow an expression without being read as part of it. */
  predicate Follow(l: nat, ts: seq<Token>) {
    ts == [] || (ts[0] != Sym(LParen) && ts[0] != Sym(Dot) && (OpOf(ts[0]).Some? ==> Level(OpOf(ts[0]).value) < l))
  }

  /** An operator looser than its place stands in parentheses there. */
  predicate Parenthesised(l: nat, e: Expr) { e.Bin? && Level(e.op) < l }

  lemma {:induction false} PrimaryRoundTrip(e: Expr, rest: seq<Token>)
    requires Follow(5, rest)
    ensures ParsePrimary(TokensAt(5, e) + rest) == Got(e, rest)
    decreases e, if e.Bin? then 1 else 0, 0, 0
  {
    var ts := TokensAt(5, e) + rest;
    match e
    case NumLit(n) => assert ts[1..] == rest;
    case StrLit(q) => assert ts[1..] == rest;
    case StarExpr => assert ts[1..] == rest;
    case Col(None, name) => assert ts[1..] == rest;
    case Col(Some(a), name) => assert ts[3..] == rest;
    case Call(fn, args) =>
      if args != [] {
        ArgsRoundTrip(args, rest);
      }
      CallRoundTrip(fn, args, rest);
    case Bin(op, a, b) =>
      LevelRoundTrip(0, e, [Sym(RParen)] + rest);
      ParenRoundTrip(e, rest);
  }

  lemma CallRoundTrip(fn: Name, args: seq<Expr>, rest: seq<Token>)
    requires args != [] ==> ParseArgs(ArgTokens(args) + ([Sym(RParen)] + rest)) == Got(args, rest)
    ensures ParsePrimary(TokensAt(5, Call(fn, args)) + rest) == Got(Call(fn, args), rest)
  {
    var head, close := [Id(fn), Sym(LParen)], [Sym(RParen)];
    AppendAfter(head, ArgTokens(args), close, rest);
    if args == [] {
      assert ArgTokens(args) + (close + rest) == close + rest;
      EmptyCall(fn, rest);
    } else {
      ArgsHead(args, close + rest);
      ParsePrimaryCall(fn, args, ArgTokens(args) + (close + rest), rest);
    }
  }

  lemma EmptyCall(fn: Name, rest: seq<Token>)
    ensures ParsePrimary([Id(fn), Sym(LParen)] + ([Sym(RParen)] + rest)) == Got(Call(fn, []), rest)
  {
    var ts := [Id(fn), Sym(LParen)] + ([Sym(RParen)] + rest);
    assert ts[2..] == [Sym(RParen)] + rest && ts[3..] == rest;
  }

  lemma ParsePrimaryCall(fn: Name, args: seq<Expr>, inner: seq<Token>, rest: seq<Token>)
    requires !At(inner, Sym(RParen)) && ParseArgs(inner) == Got(args, rest)
    ensures ParsePrimary([Id(fn), Sym(LParen)] + inner) == Got(Call(fn, args), rest)
  {
    assert ([Id(fn), Sym(LParen)] + inner)[2..] == inner;
  }

  lemma ParenRoundTrip(e: Expr, rest: seq<Token>)
    requires e.Bin? && ParseLevel(0, TokensAt(0, e) + ([Sym(RParen)] + rest)) == Got(e, [Sym(RParen)] + rest)
    ensures ParsePrimary(TokensAt(5, e) + rest) == Got(e, rest)
  {
    var inner, close := TokensAt(0, e), [Sym(RParen)] + rest;
    assert TokensAt(5, e) == [Sym(LParen)] + (inner + [Sym(RParen)]);
    AppendAfter([Sym(LParen)], inner, [Sym(RParen)], rest);
    DropPrefix([Sym(LParen)], inner + close);
    DropPrefix([Sym(RParen)], rest);
    ParsePrimaryParen([Sym(LParen)] + (inner + close), e, close);
  }

  lemma ParsePrimaryParen(ts: seq<Token>, e: Expr, tail: seq<Token>)
    requires At(ts, Sym(LParen)) && At(tail, Sym(RParen)) && ParseLevel(0, ts[1..]) == Got(e, tail)
    ensures ParsePrimary(ts) == Got(e, tail[1..])
  {
  }

  lemma {:induction false} ArgsHead(args: seq<Expr>, rest: seq<Token>)
    requires args != []
    ensures var ts := ArgTokens(args) + rest; ts != [] && ts[0] != Sym(RParen)
  {
    ExprHead(0, args[0]);
  }

  lemma {:induction false} ExprHead(l: nat, e: Expr)
    ensures TokensAt(l, e) != [] && TokensAt(l, e)[0] != Sym(RParen)
    decreases e
  {
    if e.Bin? { ExprHead(Level(e.op), e.left); }
  }

  /** Parsing at a level undoes printing at that level. */
  lemma {:induction false} LevelRoundTrip(l: nat, e: Expr, rest: seq<Token>)
    requires l <= 5 && Follow(l, rest)
    ensures ParseLevel(l, TokensAt(l, e) + rest) == Got(e, rest)
    decreases e, if Parenthesised(l, e) then 1 else 0, 5 - l, 1
  {
    if l == 5 {
      PrimaryRoundTrip(e, rest);
    } else {
      ChainRoundTrip(l, e, rest);
    }
  }

  /** The parser, at the printed form of `e` at level `k`, goes on as the loop of that level
      does with `e` as the operand read so far; so chains of equal operators lean left. */
  lemma {:induction false} ChainRoundTrip(k: nat, e: Expr, more: seq<Token>)
    requires k < 5 && Follow(k + 1, more)
    ensures ParseLevel(k, TokensAt(k, e) + more) == ParseLoop(k, e, more)
    decreases e, if Parenthesised(k, e) then 1 else 0, 5 - k, 0
  {
    if e.Bin? && Level(e.op) == k {
      var next := [OpToken(e.op)] + (TokensAt(k + 1, e.right) + more);
      AppendAfter(TokensAt(k, e.left), [OpToken(e.op)], TokensAt(k + 1, e.right), more);
      OpFollows(e.op, TokensAt(k + 1, e.right) + more);
      ChainRoundTrip(k, e.left, next);
      LevelRoundTrip(k + 1, e.right, more);
      LoopTakesOperand(k, e, next, more);
    } else {
      LevelRoundTrip(k + 1, e, more);
    }
  }

  lemma OpFollows(op: BinOp, ts: seq<Token>)
    ensures Follow(Level(op) + 1, [OpToken(op)] + ts) && OpAtLevel([OpToken(op)] + ts, Level(op))
  {
    OpOfToken(op);
  }

  lemma LoopTakesOperand(k: nat, e: Expr, next: seq<Token>, more: seq<Token>)
    requires k < 5 && e.Bin? && Level(e.op) == k
    requires next != [] && next[0] == OpToken(e.op) && ParseLevel(k + 1, next[1..]) == Got(e.right, more)
    ensures ParseLoop(k, e.left, next) == ParseLoop(k, e, more)
  {
    OpOfToken(e.op);
  }

  lemma {:induction false} ArgsRoundTrip(args: seq<Expr>, rest: seq<Token>)
    requires args != []
    ensures ParseArgs(ArgTokens(args) + ([Sym(RParen)] + rest)) == Got(args, rest)
    decreases args, 0
  {
    var close := [Sym(RParen)] + rest;
    if |args| == 1 {
      LevelRoundTrip(0, args[0], close);
      DropPrefix([Sym(RParen)], rest);
      assert args == [args[0]];
    } else {
      var tail := ArgTokens(args[1..]) + close;
      AppendAfter(TokensAt(0, args[0]), [Sym(Comma)], ArgTokens(args[1..]), close);
      LevelRoundTrip(0, args[0], [Sym(Comma)] + tail);
      DropPrefix([Sym(Comma)], tail);
      ArgsRoundTrip(args[1..], rest);
      ParseArgsComma(args, [Sym(Comma)] + tail, rest, TokensAt(0, args[0]) + ([Sym(Comma)] + tail));
    }
  }

  lemma ParseArgsComma(args: seq<Expr>, more: seq<Token>, last: seq<Token>, ts: seq<Token>)
    requires |args| > 1 && At(more, Sym(Comma))
    requires ParseLevel(0, ts) == Got(args[0], more) && ParseArgs(more[1..]) == Got(args[1..], last)
    ensures ParseArgs(ts) == Got(args, last)
  {
    assert args == [args[0]] + args[1..];
  }

  // ---------------------------------------------------------------- query parser

  function ParseAlias(ts: seq<Token>): (r: Parsed<Option<Name>>)
    ensures r.Got? ==> |r.rest| <= |ts|
  {
    if At(ts, Key(AS)) then
      if |ts| > 1 && ts[1].Id? then Got(Some(ts[1].name), ts[2..]) else Fail
    else if ts != [] && ts[0].Id? then Got(Some(ts[0].name), ts[1..])
    else Got(None, ts)
  }

  function ParseItem(ts: seq<Token>): (r: Parsed<Item>)
    ensures r.Got? ==> |r.rest| < |ts|
  {
    match ParseLevel(0, ts)
    case Fail => Fail
    case Got(e, rest) =>
      match ParseAlias(rest)
      case Fail => Fail
      case Got(alias, more) => Got(Item(e, alias), more)
  }

  function ParseItems(ts: seq<Token>): (r: Parsed<seq<Item>>)
    ensures r.Got? ==> |r.rest| < |ts| && |r.v| > 0
    decreases |ts|
  {
    match ParseItem(ts)
    case Fail => Fail
    case Got(item, rest) =>
      if !At(rest, Sym(Comma)) then Got([item], rest)
      else match ParseItems(rest[1..])
        case Fail => Fail
        case Got(items, more) => Got([item] + items, more)
  }

  function ParseTable(kind: JoinKind, ts: seq<Token>): (r: Parsed<Source>)
    ensures r.Got? ==> |r.rest| < |ts| && r.v.kind == kind && r.v.on.None?
  {
    if ts == [] || !ts[0].Id? then Fail
    else if At(ts[1..], Sym(Dot)) then
      if |ts| > 2 && ts[2].Id? then
        match ParseAlias(ts[3..])
        case Fail => Fail
        case Got(alias, rest) => Got(Source(kind, Some(ts[0].name), ts[2].name, alias, None), rest)
      else Fail
    else match ParseAlias(ts[1..])
      case Fail => Fail
      case Got(alias, rest) => Got(Source(kind, None, ts[0].name, alias, None), rest)
  }

  function ParseJoins(ts: seq<Token>): (r: Parsed<seq<Source>>)
    ensures r.Got? ==> |r.rest| <= |ts| && forall i :: 0 <= i < |r.v| ==> r.v[i].on.Some?
    decreases |ts|
  {
    if At(ts, Key(JOIN)) then ParseJoin(Inner, ts[1..])
    else if At(ts, Key(LEFT)) then
      if At(ts[1..], Key(JOIN)) then ParseJoin(LeftOuter, ts[2..]) else Fail
    else Got([], ts)
  }

  function ParseJoin(kind: JoinKind, ts: seq<Token>): (r: Parsed<seq<Source>>)
    ensures r.Got? ==> |r.rest| <= |ts| && forall i :: 0 <= i < |r.v| ==> r.v[i].on.Some?
    decreases |ts|
  {
    match ParseTable(kind, ts)
    case Fail => Fail
    case Got(table, rest) =>
      if !At(rest, Key(ON)) then Fail
      else match ParseLevel(0, rest[1..])
        case Fail => Fail
        case Got(e, more) =>
          match ParseJoins(more)
          case Fail => Fail
          case Got(joins, last) => Got([table.(on := Some(e))] + joins, last)
  }

  function ParseFrom(ts: seq<Token>): (r: Parsed<seq<Source>>)
    ensures r.Got? ==> Joined(r.v)
  {
    if !At(ts, Key(FROM)) then Got([], ts)
    else match ParseTable(Inner, ts[1..])
      case Fail => Fail
      case Got(table, rest) =>
        match ParseJoins(rest)
        case Fail => Fail
        case Got(joins, more) => Got([table] + joins, more)
  }

  function ParseClause(k: Keyword, ts: seq<Token>): Parsed<Option<Expr>> {
    if !At(ts, Key(k)) then Got(None, ts)
    else match ParseLevel(0, ts[1..])
      case Fail => Fail
      case Got(e, rest) => Got(Some(e), rest)
  }

  function ParseQuery(ts: seq<Token>): (r: Option<Query>)
    ensures r.Some? ==> WellFormed(r.value)
  {
    if !At(ts, Key(SELECT)) then None
    else match ParseItems(ts[1..])
      case Fail => None
      case Got(items, r1) =>
        match ParseFrom(r1)
        case Fail => None
        case Got(sources, r2) =>
          match ParseClause(WHERE, r2)
          case Fail => None
          case Got(where, r3) =>
            match ParseClause(LIMIT, r3)
            case Fail => None
            case Got(limit, r4) => if r4 == [] then Some(Query(items, sources, where, limit)) else None
  }

  // ---------------------------------------------------------------- query printer

  function AliasTokens(alias: Option<Name>): seq<Token> {
    match alias
    case None => []
    case Some(a) => [Key(AS), Id(a)]
  }

  function ItemsTokens(items: seq<Item>): seq<Token>
    requires |items| > 0
  {
    var first := ExprTokens(items[0].e) + AliasTokens(items[0].alias);
    if |items| == 1 then first else first + ([Sym(Comma)] + ItemsTokens(items[1..]))
  }

  function TableTokens(s: Source): seq<Token> {
    match s.schema
    case None => [Id(s.table)] + AliasTokens(s.alias)
    case Some(sch) => [Id(sch), Sym(Dot), Id(s.table)] + AliasTokens(s.alias)
  }

  function ClauseTokens(k: Keyword, e: Option<Expr>): seq<Token> {
    match e
    case None => []
    case Some(x) => [Key(k)] + ExprTokens(x)
  }

  function JoinsTokens(js: seq<Source>): seq<Token> {
    if js == [] then []
    else
      JoinKeywords(js[0].kind)
      + (TableTokens(js[0]) + (ClauseTokens(ON, js[0].on) + JoinsTokens(js[1..])))
  }

  function FromTokens(sources: seq<Source>): seq<Token> {
    if sources == [] then [] else [Key(FROM)] + (TableTokens(sources[0]) + JoinsTokens(sources[1..]))
  }

  function QueryTokens(q: Query): seq<Token>
    requires WellFormed(q)
  {
    [Key(SELECT)] + (ItemsTokens(q.items)
    + (FromTokens(q.sources) + (ClauseTokens(WHERE, q.where) + ClauseTokens(LIMIT, q.limit))))
  }

  /** Starts with a clause keyword, or is the end of the query. */
  predicate Stop(ts: seq<Token>) {
    ts == [] || (ts[0].Key? && ts[0].k in {FROM, JOIN, LEFT, ON, WHERE, LIMIT})
  }

  lemma AliasRoundTrip(alias: Option<Name>, rest: seq<Token>)
    requires Stop(rest) || At(rest, Sym(Comma))
    ensures ParseAlias(AliasTokens(alias) + rest) == Got(alias, rest)
  {
    var ts := AliasTokens(alias) + rest;
    match alias
    case None => assert ts == rest;
    case Some(a) => assert ts[2..] == rest;
  }

  lemma ItemRoundTrip(item: Item, rest: seq<Token>)
    requires Stop(rest) || At(rest, Sym(Comma))
    ensures ParseItem((ExprTokens(item.e) + AliasTokens(item.alias)) + rest) == Got(item, rest)
  {
    var more := AliasTokens(item.alias) + rest;
    assert (ExprTokens(item.e) + AliasTokens(item.alias)) + rest == ExprTokens(item.e) + more;
    LevelRoundTrip(0, item.e, more);
    AliasRoundTrip(item.alias, rest);
  }

  lemma AppendAfter(a: seq<Token>, b: seq<Token>, c: seq<Token>, rest: seq<Token>)
    ensures (a + (b + c)) + rest == a + (b + (c + rest))
  {
  }

  lemma ParseItemsComma(items: seq<Item>, more: seq<Token>, last: seq<Token>, ts: seq<Token>)
    requires |items| > 1 && At(more, Sym(Comma))
    requires ParseItem(ts) == Got(items[0], more) && ParseItems(more[1..]) == Got(items[1..], last)
    ensures ParseItems(ts) == Got(items, last)
  {
    assert items == [items[0]] + items[1..];
  }

  lemma {:induction false} ItemsRoundTrip(items: seq<Item>, rest: seq<Token>)
    requires |items| > 0 && Stop(rest)
    ensures ParseItems(ItemsTokens(items) + rest) == Got(items, rest)
  {
    var first := ExprTokens(items[0].e) + AliasTokens(items[0].alias);
    if |items| == 1 {
      ItemRoundTrip(items[0], rest);
      assert items == [items[0]];
    } else {
      var tail := ItemsTokens(items[1..]) + rest;
      AppendAfter(first, [Sym(Comma)], ItemsTokens(items[1..]), rest);
      ItemRoundTrip(items[0], [Sym(Comma)] + tail);
      DropPrefix([Sym(Comma)], tail);
      ItemsRoundTrip(items[1..], rest);
      ParseItemsComma(items, [Sym(Comma)] + tail, rest, first + ([Sym(Comma)] + tail));
    }
  }

  lemma PlainTable(s: Source, more: seq<Token>, rest: seq<Token>)
    requires s.schema.None? && !At(more, Sym(Dot)) && ParseAlias(more) == Got(s.alias, rest)
    ensures ParseTable(s.kind, [Id(s.table)] + more) == Got(s.(on := None), rest)
  {
    assert ([Id(s.table)] + more)[1..] == more;
  }

  lemma DottedTable(s: Source, more: seq<Token>, rest: seq<Token>)
    requires s.schema.Some? && ParseAlias(more) == Got(s.alias, rest)
    ensures ParseTable(s.kind, [Id(s.schema.value), Sym(Dot), Id(s.table)] + more) == Got(s.(on := None), rest)
  {
    assert ([Id(s.schema.value), Sym(Dot), Id(s.table)] + more)[3..] == more;
  }

  lemma TableRoundTrip(s: Source, rest: seq<Token>)
    requires Stop(rest)
    ensures ParseTable(s.kind, TableTokens(s) + rest) == Got(s.(on := None), rest)
  {
    var more := AliasTokens(s.alias) + rest;
    AliasRoundTrip(s.alias, rest);
    match s.schema
    case None =>
      assert TableTokens(s) + rest == [Id(s.table)] + more;
      PlainTable(s, more, rest);
    case Some(sch) =>
      assert TableTokens(s) + rest == [Id(sch), Sym(Dot), Id(s.table)] + more;
      DottedTable(s, more, rest);
  }

  lemma NoClause(k: Keyword, rest: seq<Token>)
    requires !At(rest, Key(k))
    ensures ParseClause(k, ClauseTokens(k, None) + rest) == Got(None, rest)
  {
    assert ClauseTokens(k, None) + rest == rest;
  }

  lemma SomeClause(k: Keyword, e: Expr, rest: seq<Token>)
    requires Stop(rest)
    ensures ParseClause(k, ClauseTokens(k, Some(e)) + rest) == Got(Some(e), rest)
  {
    LevelRoundTrip(0, e, rest);
    DropPrefix([Key(k)], ExprTokens(e) + rest);
    assert ClauseTokens(k, Some(e)) + rest == [Key(k)] + (ExprTokens(e) + rest);
    ParseClauseSome(k, e, [Key(k)] + (ExprTokens(e) + rest), rest);
  }

  lemma ClauseRoundTrip(k: Keyword, e: Option<Expr>, rest: seq<Token>)
    requires Stop(rest) && !At(rest, Key(k))
    ensures ParseClause(k, ClauseTokens(k, e) + rest) == Got(e, rest)
  {
    if e.Some? { SomeClause(k, e.value, rest); } else { NoClause(k, rest); }
  }

  lemma ParseClauseSome(k: Keyword, e: Expr, ts: seq<Token>, rest: seq<Token>)
    requires At(ts, Key(k)) && ParseLevel(0, ts[1..]) == Got(e, rest)
    ensures ParseClause(k, ts) == Got(Some(e), rest)
  {
  }

  lemma JoinRoundTrip(s: Source, js: seq<Source>, tail: seq<Token>, rest: seq<Token>)
    requires s.on.Some? && Stop(tail) && ParseJoins(tail) == Got(js, rest)
    ensures ParseJoin(s.kind, TableTokens(s) + (ClauseTokens(ON, s.on) + tail)) == Got([s] + js, rest)
  {
    var cond := ClauseTokens(ON, s.on) + tail;
    OnRoundTrip(s.on.value, tail);
    TableRoundTrip(s, cond);
  }

  lemma OnRoundTrip(e: Expr, tail: seq<Token>)
    requires Stop(tail)
    ensures var cond := ClauseTokens(ON, Some(e)) + tail;
            Stop(cond) && At(cond, Key(ON)) && ParseLevel(0, cond[1..]) == Got(e, tail)
  {
    assert (ClauseTokens(ON, Some(e)) + tail)[1..] == ExprTokens(e) + tail;
    LevelRoundTrip(0, e, tail);
  }

  lemma JoinsStop(js: seq<Source>, rest: seq<Token>)
    requires Stop(rest)
    ensures Stop(JoinsTokens(js) + rest)
  {
    if js == [] {
      assert JoinsTokens(js) + rest == rest;
    }
  }

  lemma {:induction false} JoinsRoundTrip(js: seq<Source>, rest: seq<Token>)
    requires forall i :: 0 <= i < |js| ==> js[i].on.Some?
    requires Stop(rest) && !At(rest, Key(JOIN)) && !At(rest, Key(LEFT))
    ensures ParseJoins(JoinsTokens(js) + rest) == Got(js, rest)
  {
    if js == [] {
      assert JoinsTokens(js) + rest == rest;
    } else {
      JoinsRoundTrip(js[1..], rest);
      JoinsStop(js[1..], rest);
      JoinRoundTrip(js[0], js[1..], JoinsTokens(js[1..]) + rest, rest);
      JoinsPrefix(js, rest);
      assert js == [js[0]] + js[1..];
    }
  }

  /** Appending to four concatenated runs appends to the innermost one. */
  lemma AppendInner(a: seq<Token>, b: seq<Token>, c: seq<Token>, d: seq<Token>, rest: seq<Token>)
    ensures (a + (b + (c + d))) + rest == a + (b + (c + (d + rest)))
  {
  }

  lemma DropPrefix(a: seq<Token>, b: seq<Token>)
    ensures (a + b)[|a|..] == b
  {
  }

  function JoinKeywords(kind: JoinKind): seq<Token> {
    if kind.Inner? then [Key(JOIN)] else [Key(LEFT), Key(JOIN)]
  }

  lemma JoinsPrefix(js: seq<Source>, rest: seq<Token>)
    requires js != []
    ensures var body := TableTokens(js[0]) + (ClauseTokens(ON, js[0].on) + (JoinsTokens(js[1..]) + rest));
            ParseJoins(JoinsTokens(js) + rest) == ParseJoin(js[0].kind, body)
  {
    var keys := JoinKeywords(js[0].kind);
    var table, on, more := TableTokens(js[0]), ClauseTokens(ON, js[0].on), JoinsTokens(js[1..]);
    assert JoinsTokens(js) == keys + (table + (on + more));
    AppendInner(keys, table, on, more, rest);
    ParseJoinsKeyword(js[0].kind, table + (on + (more + rest)));
  }

  lemma ParseJoinsKeyword(kind: JoinKind, body: seq<Token>)
    ensures ParseJoins(JoinKeywords(kind) + body) == ParseJoin(kind, body)
  {
    DropPrefix(JoinKeywords(kind), body);
  }

  lemma FromRoundTrip(sources: seq<Source>, rest: seq<Token>)
    requires Joined(sources)
    requires Stop(rest) && !At(rest, Key(JOIN)) && !At(rest, Key(LEFT)) && !At(rest, Key(FROM))
    ensures ParseFrom(FromTokens(sources) + rest) == Got(sources, rest)
  {
    if sources == [] {
      assert FromTokens(sources) + rest == rest;
    } else {
      JoinsRoundTrip(sources[1..], rest);
      JoinsStop(sources[1..], rest);
      TableRoundTrip(sources[0], JoinsTokens(sources[1..]) + rest);
      FromPrefix(sources, rest);
      assert sources == [sources[0]] + sources[1..];
    }
  }

  lemma FromPrefix(sources: seq<Source>, rest: seq<Token>)
    requires sources != []
    ensures var ts := FromTokens(sources) + rest;
            At(ts, Key(FROM)) && ts[1..] == TableTokens(sources[0]) + (JoinsTokens(sources[1..]) + rest)
  {
    var table, joins := TableTokens(sources[0]), JoinsTokens(sources[1..]);
    assert FromTokens(sources) == [Key(FROM)] + (table + joins);
    FromAssoc(table, joins, rest);
  }

  lemma FromAssoc(table: seq<Token>, joins: seq<Token>, rest: seq<Token>)
    ensures var ts := ([Key(FROM)] + (table + joins)) + rest;
            At(ts, Key(FROM)) && ts[1..] == table + (joins + rest)
  {
    assert ([Key(FROM)] + (table + joins)) + rest == [Key(FROM)] + (table + (joins + rest));
  }

  lemma ClausesRoundTrip(where: Option<Expr>, limit: Option<Expr>)
    ensures var r3 := ClauseTokens(LIMIT, limit);
            var r2 := ClauseTokens(WHERE, where) + r3;
            && Stop(r2) && !At(r2, Key(JOIN)) && !At(r2, Key(LEFT)) && !At(r2, Key(FROM))
            && ParseClause(WHERE, r2) == Got(where, r3) && ParseClause(LIMIT, r3) == Got(limit, [])
  {
    var r3 := ClauseTokens(LIMIT, limit);
    ClauseRoundTrip(WHERE, where, r3);
    ClauseRoundTrip(LIMIT, limit, []);
    assert r3 + [] == r3;
  }

  lemma FromStops(sources: seq<Source>, rest: seq<Token>)
    requires Stop(rest)
    ensures Stop(FromTokens(sources) + rest)
  {
    if sources == [] {
      assert FromTokens(sources) + rest == rest;
    }
  }

  /** Parsing undoes printing for every well-formed query. */
  lemma QueryRoundTrip(q: Query)
    requires WellFormed(q)
    ensures ParseQuery(QueryTokens(q)) == Some(q)
  {
    var r2 := ClauseTokens(WHERE, q.where) + ClauseTokens(LIMIT, q.limit);
    var r1 := FromTokens(q.sources) + r2;
    assert QueryTokens(q)[1..] == ItemsTokens(q.items) + r1;
    ClausesRoundTrip(q.where, q.limit);
    FromStops(q.sources, r2);
    FromRoundTrip(q.sources, r2);
    ItemsRoundTrip(q.items, r1);
  }
}
