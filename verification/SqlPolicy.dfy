/** The SQL policy as a small compiler: allowlist walk, column qualification, LIMIT
    rewrite, print and fingerprint, and the proof that its output is its own fixpoint. */
module SqlPolicy {
  import opened Wrappers
  import opened Numerals
  import opened SqlText
  import opened SqlAst

  datatype CatalogColumn = CatalogColumn(
    schema: string, table: string, column: string, dataType: string, sensitive: bool)

  datatype Catalog = Catalog(version: nat, columns: seq<CatalogColumn>)

  datatype RawConfig = Config(
    policyVersion: string, allowedSchemas: set<string>, allowedFunctions: set<string>,
    maxJoins: nat, maxRows: nat, requireQualifiedTables: bool)

  type Config = c: RawConfig | c.maxRows >= 1 witness Config("", {}, {}, 0, 1, true)

  datatype Code =
    | CommentsForbidden | MultipleStatements | ParseError | SelectOnly | SelectStarForbidden | TooManyJoins
    | UnqualifiedTable | SchemaNotAllowed | TableNotAllowed | ColumnQualificationFailed
    | UnqualifiedColumn | ColumnSourceNotConcrete | ColumnNotAllowed
    | FunctionNotAllowed | DynamicLimitForbidden | NonPositiveLimit

  datatype Ruling<+T> = Ok(value: T) | Err(code: Code)

  datatype Validated = Validated(
    sql: string, fingerprint: string, tables: set<string>, columns: set<string>,
    projectionSensitive: seq<bool>, rowLimit: nat, policyVersion: string)

  // ---------------------------------------------------------------- catalog

  predicate Names(c: CatalogColumn, schema: string, table: string) {
    Lower(c.schema) == schema && Lower(c.table) == table
  }

  /** The catalogued columns of one table; empty when the table is not catalogued. */
  function TableColumns(cat: Catalog, schema: string, table: string): set<string> {
    set c | c in cat.columns && Names(c, schema, table) :: Lower(c.column)
  }

  predicate TableListed(cat: Catalog, schema: string, table: string) {
    exists c :: c in cat.columns && Names(c, schema, table)
  }

  /** Duplicate catalogue entries overwrite one another, so the last one decides. */
  function SensitiveLookup(cols: seq<CatalogColumn>, schema: string, table: string, column: string): bool {
    if cols == [] then false
    else
      var last := cols[|cols| - 1];
      if Names(last, schema, table) && Lower(last.column) == column then last.sensitive
      else SensitiveLookup(cols[..|cols| - 1], schema, table, column)
  }

  // ---------------------------------------------------------------- sources

  function LowerOption(n: Option<Name>): Option<Name> {
    match n
    case None => None
    case Some(x) => Some(LowerName(x))
  }

  function AliasOf(s: Source): Name {
    LowerName(if s.alias.Some? then s.alias.value else s.table)
  }

  function SchemaName(s: Source): string {
    match s.schema
    case None => ""
    case Some(x) => Lower(x)
  }

  function TableName(s: Source): string { Lower(s.table) }

  function Columns(cat: Catalog, s: Source): set<string> { TableColumns(cat, SchemaName(s), TableName(s)) }

  predicate DistinctAliases(srcs: seq<Source>) {
    forall i, j :: 0 <= i < j < |srcs| ==> AliasOf(srcs[i]) != AliasOf(srcs[j])
  }

  function FindSource(srcs: seq<Source>, alias: string): (r: Option<Source>)
    ensures r.Some? ==> r.value in srcs && AliasOf(r.value) == alias
  {
    if srcs == [] then None
    else if AliasOf(srcs[0]) == alias then Some(srcs[0])
    else FindSource(srcs[1..], alias)
  }

  /** The aliases of every source that has the column, in order. */
  function Candidates(cat: Catalog, srcs: seq<Source>, column: string): seq<Name> {
    if srcs == [] then []
    else (if column in Columns(cat, srcs[0]) then [AliasOf(srcs[0])] else []) + Candidates(cat, srcs[1..], column)
  }

  // ---------------------------------------------------------------- qualification

  function QualifyExpr(cat: Catalog, srcs: seq<Source>, e: Expr): Option<Expr> {
    match e
    case Col(Some(a), n) =>
      var s := FindSource(srcs, Lower(a));
      if s.Some? && Lower(n) in Columns(cat, s.value) then Some(Col(Some(LowerName(a)), LowerName(n))) else None
    case Col(None, n) =>
      var found := Candidates(cat, srcs, Lower(n));
      if |found| == 1 then Some(Col(Some(found[0]), LowerName(n))) else None
    case Call(fn, args) =>
      (match QualifyExprs(cat, srcs, args)
       case None => None
       case Some(args') => Some(Call(fn, args')))
    case Bin(op, l, r) =>
      var l', r' := QualifyExpr(cat, srcs, l), QualifyExpr(cat, srcs, r);
      if l'.Some? && r'.Some? then Some(Bin(op, l'.value, r'.value)) else None
    case _ => Some(e)
  }

  function QualifyExprs(cat: Catalog, srcs: seq<Source>, es: seq<Expr>): (r: Option<seq<Expr>>)
    ensures r.Some? ==> |r.value| == |es|
  {
    if es == [] then Some([])
    else
      var first, more := QualifyExpr(cat, srcs, es[0]), QualifyExprs(cat, srcs, es[1..]);
      if first.Some? && more.Some? then Some([first.value] + more.value) else None
  }

  function QualifyOption(cat: Catalog, srcs: seq<Source>, e: Option<Expr>): (r: Option<Option<Expr>>)
    ensures r.Some? ==> (r.value.Some? <==> e.Some?)
  {
    match e
    case None => Some(None)
    case Some(x) =>
      match QualifyExpr(cat, srcs, x)
      case None => None
      case Some(x') => Some(Some(x'))
  }

  function GeneratedAlias(i: nat): Name {
    var s := "_col_" + Decimal(i);
    assert Lower(s)[0] == '_';
    s
  }

  /** An unaliased column keeps its own name; any other unaliased output gets a positional one. */
  function OutputAlias(i: nat, e: Expr, alias: Option<Name>): Name {
    match alias
    case Some(a) => LowerName(a)
    case None => if e.Col? then e.name else GeneratedAlias(i)
  }

  function QualifyItems(cat: Catalog, srcs: seq<Source>, i: nat, items: seq<Item>): (r: Option<seq<Item>>)
    ensures r.Some? ==> |r.value| == |items|
    decreases |items|
  {
    if items == [] then Some([])
    else
      var e, more := QualifyExpr(cat, srcs, items[0].e), QualifyItems(cat, srcs, i + 1, items[1..]);
      if e.Some? && more.Some?
      then Some([Item(e.value, Some(OutputAlias(i, e.value, items[0].alias)))] + more.value) else None
  }

  function QualifySource(cat: Catalog, srcs: seq<Source>, s: Source): Option<Source> {
    match QualifyOption(cat, srcs, s.on)
    case None => None
    case Some(on) => Some(Source(s.kind, LowerOption(s.schema), LowerName(s.table), Some(AliasOf(s)), on))
  }

  function QualifySources(cat: Catalog, srcs: seq<Source>, ss: seq<Source>): (r: Option<seq<Source>>)
    ensures r.Some? ==> |r.value| == |ss|
    ensures r.Some? ==> forall i :: 0 <= i < |ss| ==> Some(r.value[i]) == QualifySource(cat, srcs, ss[i])
  {
    if ss == [] then Some([])
    else
      var first, more := QualifySource(cat, srcs, ss[0]), QualifySources(cat, srcs, ss[1..]);
      if first.Some? && more.Some? then Some([first.value] + more.value) else None
  }

  function Qualify(cat: Catalog, q: Query): Option<Query> {
    if !DistinctAliases(q.sources) then None
    else
      var items := QualifyItems(cat, q.sources, 0, q.items);
      var sources := QualifySources(cat, q.sources, q.sources);
      var where := QualifyOption(cat, q.sources, q.where);
      if items.Some? && sources.Some? && where.Some?
      then Some(Query(items.value, sources.value, where.value, q.limit)) else None
  }

  // ---------------------------------------------------------------- checks on the tree

  function ExprStar(e: Expr): bool {
    match e
    case StarExpr => true
    case Call(_, args) => exists i :: 0 <= i < |args| && ExprStar(args[i])
    case Bin(_, l, r) => ExprStar(l) || ExprStar(r)
    case _ => false
  }

  predicate OptionStar(e: Option<Expr>) { e.Some? && ExprStar(e.value) }

  predicate HasStar(q: Query) {
    || (exists i :: 0 <= i < |q.items| && ExprStar(q.items[i].e))
    || (exists i :: 0 <= i < |q.sources| && OptionStar(q.sources[i].on))
    || OptionStar(q.where) || OptionStar(q.limit)
  }

  function CheckTable(cfg: Config, cat: Catalog, s: Source): Ruling<string> {
    if cfg.requireQualifiedTables && SchemaName(s) == "" then Err(UnqualifiedTable)
    else if SchemaName(s) !in cfg.allowedSchemas then Err(SchemaNotAllowed)
    else if !TableListed(cat, SchemaName(s), TableName(s)) then Err(TableNotAllowed)
    else Ok(SchemaName(s) + "." + TableName(s))
  }

  function CheckTables(cfg: Config, cat: Catalog, srcs: seq<Source>): Ruling<set<string>> {
    if srcs == [] then Ok({})
    else
      match CheckTables(cfg, cat, srcs[..|srcs| - 1])
      case Err(c) => Err(c)
      case Ok(names) =>
        match CheckTable(cfg, cat, srcs[|srcs| - 1])
        case Err(c) => Err(c)
        case Ok(name) => Ok(names + {name})
  }

  /** Every column an expression reads, left to right. */
  function ExprColumns(e: Expr): seq<Expr>
    ensures forall c :: c in ExprColumns(e) ==> c.Col?
  {
    match e
    case Col(_, _) => [e]
    case Call(_, args) => ExprsColumns(args)
    case Bin(_, l, r) => ExprColumns(l) + ExprColumns(r)
    case _ => []
  }

  function ExprsColumns(es: seq<Expr>): seq<Expr>
    ensures forall c :: c in ExprsColumns(es) ==> c.Col?
  {
    if es == [] then [] else ExprColumns(es[0]) + ExprsColumns(es[1..])
  }

  function OptionExprs(e: Option<Expr>): seq<Expr> { if e.Some? then [e.value] else [] }

  function SourceExprs(srcs: seq<Source>): seq<Expr> {
    if srcs == [] then [] else OptionExprs(srcs[0].on) + SourceExprs(srcs[1..])
  }

  function ItemExprs(items: seq<Item>): (r: seq<Expr>)
    ensures |r| == |items| && forall i :: 0 <= i < |items| ==> r[i] == items[i].e
  {
    seq(|items|, i requires 0 <= i < |items| => items[i].e)
  }

  /** Every expression of the query except LIMIT. */
  function QueryExprs(q: Query): seq<Expr> {
    ItemExprs(q.items) + SourceExprs(q.sources) + OptionExprs(q.where)
  }

  function CheckColumn(cat: Catalog, srcs: seq<Source>, c: Expr): Ruling<string>
    requires c.Col?
  {
    if c.qualifier.None? then Err(UnqualifiedColumn)
    else match FindSource(srcs, Lower(c.qualifier.value))
      case None => Err(ColumnSourceNotConcrete)
      case Some(s) =>
        if Lower(c.name) in Columns(cat, s)
        then Ok(SchemaName(s) + "." + TableName(s) + "." + Lower(c.name)) else Err(ColumnNotAllowed)
  }

  function CheckColumns(cat: Catalog, srcs: seq<Source>, cols: seq<Expr>): Ruling<set<string>>
    requires forall c :: c in cols ==> c.Col?
  {
    if cols == [] then Ok({})
    else
      match CheckColumns(cat, srcs, cols[..|cols| - 1])
      case Err(code) => Err(code)
      case Ok(names) =>
        match CheckColumn(cat, srcs, cols[|cols| - 1])
        case Err(code) => Err(code)
        case Ok(name) => Ok(names + {name})
  }

  predicate ColumnSensitive(cat: Catalog, srcs: seq<Source>, c: Expr)
    requires c.Col?
  {
    c.qualifier.Some? &&
    var s := FindSource(srcs, Lower(c.qualifier.value));
    s.Some? && SensitiveLookup(cat.columns, SchemaName(s.value), TableName(s.value), Lower(c.name))
  }

  /** An output is sensitive when any column it reads from is. */
  predicate ExprSensitive(cat: Catalog, srcs: seq<Source>, e: Expr) {
    exists c :: c in ExprColumns(e) && ColumnSensitive(cat, srcs, c)
  }

  function ExprFunctions(e: Expr): set<string> {
    match e
    case Call(fn, args) => {Lower(fn)} + set i, f | 0 <= i < |args| && f in ExprFunctions(args[i]) :: f
    case Bin(_, l, r) => ExprFunctions(l) + ExprFunctions(r)
    case _ => {}
  }

  predicate FunctionsAllowed(cfg: Config, es: seq<Expr>) {
    forall e :: e in es ==> ExprFunctions(e) <= cfg.allowedFunctions
  }

  // ---------------------------------------------------------------- limit

  predicate IsIntLiteral(e: Expr) { e.NumLit? && AllDigits(e.n) }

  function LimitLiteral(n: nat): Expr {
    NumLit(Decimal(n))
  }

  function RewriteLimit(cfg: Config, limit: Option<Expr>): (r: Ruling<nat>)
    ensures r.Ok? ==> 0 < r.value <= cfg.maxRows
    ensures r.Ok? <==> limit.None? || (IsIntLiteral(limit.value) && Value(limit.value.n) > 0)
    ensures r.Ok? && r.value < cfg.maxRows ==> limit.Some? && r.value == Value(limit.value.n)
    ensures r.Ok? && limit.Some? ==> r.value <= Value(limit.value.n)
  {
    match limit
    case None => Ok(cfg.maxRows)
    case Some(e) =>
      if !IsIntLiteral(e) then Err(DynamicLimitForbidden)
      else if Value(e.n) == 0 then Err(NonPositiveLimit)
      else Ok(if Value(e.n) <= cfg.maxRows then Value(e.n) else cfg.maxRows)
  }

  // ---------------------------------------------------------------- the whole pass

  datatype Checked = Checked(
    query: Query, tables: set<string>, columns: set<string>, sensitive: seq<bool>, rowLimit: nat)

  function JoinCount(q: Query): nat { if q.sources == [] then 0 else |q.sources| - 1 }

  function Sensitivity(cat: Catalog, q: Query): (r: seq<bool>)
    ensures |r| == |q.items|
    ensures forall i :: 0 <= i < |q.items| ==> r[i] == ExprSensitive(cat, q.sources, q.items[i].e)
  {
    seq(|q.items|, i requires 0 <= i < |q.items| => ExprSensitive(cat, q.sources, q.items[i].e))
  }

  function CheckQuery(cfg: Config, cat: Catalog, q: Query): Ruling<Checked> {
    if HasStar(q) then Err(SelectStarForbidden)
    else if JoinCount(q) > cfg.maxJoins then Err(TooManyJoins)
    else match CheckTables(cfg, cat, q.sources)
      case Err(c) => Err(c)
      case Ok(tables) =>
        match Qualify(cat, q)
        case None => Err(ColumnQualificationFailed)
        case Some(tree) => CheckQualified(cfg, cat, tree, tables)
  }

  function CheckQualified(cfg: Config, cat: Catalog, tree: Query, tables: set<string>): Ruling<Checked> {
    match CheckColumns(cat, tree.sources, ExprsColumns(QueryExprs(tree)))
    case Err(c) => Err(c)
    case Ok(columns) =>
      if !FunctionsAllowed(cfg, QueryExprs(tree)) then Err(FunctionNotAllowed)
      else match RewriteLimit(cfg, tree.limit)
        case Err(c) => Err(c)
        case Ok(n) =>
          Ok(Checked(tree.(limit := Some(LimitLiteral(n))), tables, columns, Sensitivity(cat, tree), n))
  }

  /** Text to tree, with the raw-text gates in front. */
  function ParseSql(sql: string): Ruling<Query> {
    if HasComment(sql) then Err(CommentsForbidden)
    else
      var body := Body(sql);
      if ';' in body then Err(MultipleStatements)
      else
        CleanPrefix(sql, body);
        match Lex(body)
        case None => Err(ParseError)
        case Some(ts) =>
          if ts == [] then Err(MultipleStatements)
          else if ts[0] != Key(SELECT) then Err(SelectOnly)
          else match ParseQuery(ts)
            case None => Err(ParseError)
            case Some(q) => Ok(q)
  }

  lemma CleanPrefix(sql: string, body: string)
    requires !HasComment(sql) && body <= sql && ';' !in body
    ensures Clean(body)
  {
    forall a, b | HasPair(body, a, b)
      ensures HasPair(sql, a, b)
    {
      var k :| 0 <= k < |body| - 1 && body[k] == a && body[k + 1] == b;
      assert sql[k] == a && sql[k + 1] == b;
    }
  }

  function Normalized(q: Query): string
    requires WellFormed(q)
  {
    Unlex(QueryTokens(q))
  }

  /** The preimage that is hashed; SHA-256 is taken to be injective. */
  function Fingerprint(cfg: Config, cat: Catalog, normalized: string): string {
    cfg.policyVersion + "\0" + Decimal(cat.version) + "\0" + normalized
  }

  function Validate(cfg: Config, cat: Catalog, sql: string): Ruling<Validated> {
    match ParseSql(sql)
    case Err(c) => Err(c)
    case Ok(q) =>
      match CheckQuery(cfg, cat, q)
      case Err(c) => Err(c)
      case Ok(ck) =>
        ParsedWellFormed(sql);
        CheckedWellFormed(cfg, cat, q);
        var text := Normalized(ck.query);
        var fingerprint := Fingerprint(cfg, cat, text);
        Ok(Validated(text, fingerprint, ck.tables, ck.columns, ck.sensitive, ck.rowLimit, cfg.policyVersion))
  }

  lemma ParsedWellFormed(sql: string)
    requires ParseSql(sql).Ok?
    ensures WellFormed(ParseSql(sql).value)
  {
  }

  lemma CheckedWellFormed(cfg: Config, cat: Catalog, q: Query)
    requires WellFormed(q) && CheckQuery(cfg, cat, q).Ok?
    ensures WellFormed(CheckQuery(cfg, cat, q).value.query)
  {
    CheckParts(cfg, cat, q);
    QualifiedWellFormed(cat, q);
  }

  lemma QualifiedWellFormed(cat: Catalog, q: Query)
    requires WellFormed(q) && Qualify(cat, q).Some?
    ensures WellFormed(Qualify(cat, q).value)
  {
    var tree := Qualify(cat, q).value;
    assert forall i :: 0 <= i < |q.sources| ==> Some(tree.sources[i]) == QualifySource(cat, q.sources, q.sources[i]);
  }

  // ---------------------------------------------------------------- fixpoint: qualification

  /** Two source lists that name the same tables under the same aliases. */
  predicate SameSources(a: seq<Source>, b: seq<Source>) {
    && |a| == |b|
    && forall i :: 0 <= i < |a| ==>
         AliasOf(a[i]) == AliasOf(b[i]) && SchemaName(a[i]) == SchemaName(b[i]) && TableName(a[i]) == TableName(b[i])
  }

  lemma QualifiedSame(cat: Catalog, srcs: seq<Source>, ss: seq<Source>)
    requires QualifySources(cat, srcs, ss).Some?
    ensures SameSources(ss, QualifySources(cat, srcs, ss).value)
  {
    var r := QualifySources(cat, srcs, ss).value;
    forall i | 0 <= i < |ss|
      ensures AliasOf(ss[i]) == AliasOf(r[i])
      ensures SchemaName(ss[i]) == SchemaName(r[i]) && TableName(ss[i]) == TableName(r[i])
    {
      assert Some(r[i]) == QualifySource(cat, srcs, ss[i]);
      LowerIdempotent(if ss[i].alias.Some? then ss[i].alias.value else ss[i].table);
      LowerIdempotent(ss[i].table);
      if ss[i].schema.Some? {
        LowerIdempotent(ss[i].schema.value);
      }
    }
  }

  lemma {:induction false} FindSame(a: seq<Source>, b: seq<Source>, alias: string)
    requires SameSources(a, b)
    ensures FindSource(a, alias).Some? <==> FindSource(b, alias).Some?
    ensures FindSource(a, alias).Some? ==>
      && SchemaName(FindSource(a, alias).value) == SchemaName(FindSource(b, alias).value)
      && TableName(FindSource(a, alias).value) == TableName(FindSource(b, alias).value)
  {
    if a != [] && AliasOf(a[0]) != alias {
      FindSame(a[1..], b[1..], alias);
    }
  }

  lemma {:induction false} CandidateFound(cat: Catalog, srcs: seq<Source>, column: string)
    requires DistinctAliases(srcs)
    ensures forall a :: a in Candidates(cat, srcs, column) ==>
      FindSource(srcs, a).Some? && column in Columns(cat, FindSource(srcs, a).value)
  {
    if srcs != [] {
      CandidateFound(cat, srcs[1..], column);
      forall a | a in Candidates(cat, srcs[1..], column)
        ensures AliasOf(srcs[0]) != a
      {
        var s := FindSource(srcs[1..], a).value;
        var j :| 0 <= j < |srcs[1..]| && srcs[1..][j] == s;
        assert srcs[j + 1] == s;
      }
    }
  }

  lemma CandidatesLower(cat: Catalog, srcs: seq<Source>, column: string)
    ensures forall a :: a in Candidates(cat, srcs, column) ==> Lower(a) == a
  {
    if srcs != [] {
      CandidatesLower(cat, srcs[1..], column);
      LowerIdempotent(if srcs[0].alias.Some? then srcs[0].alias.value else srcs[0].table);
    }
  }

  /** The columns an alias gives are the same in both lists. */
  lemma SameColumns(cat: Catalog, srcs: seq<Source>, srcs': seq<Source>, alias: string)
    requires SameSources(srcs, srcs') && FindSource(srcs, alias).Some?
    ensures FindSource(srcs', alias).Some?
    ensures Columns(cat, FindSource(srcs', alias).value) == Columns(cat, FindSource(srcs, alias).value)
  {
    FindSame(srcs, srcs', alias);
  }

  lemma ColumnQualifies(cat: Catalog, srcs: seq<Source>, a: Name, n: Name)
    requires FindSource(srcs, a).Some? && Lower(a) == a && Lower(n) == n && n in Columns(cat, FindSource(srcs, a).value)
    ensures QualifyExpr(cat, srcs, Col(Some(a), n)) == Some(Col(Some(a), n))
  {
  }

  lemma QualifiedColumnStable(cat: Catalog, srcs: seq<Source>, srcs': seq<Source>, a: Name, n: Name)
    requires SameSources(srcs, srcs') && QualifyExpr(cat, srcs, Col(Some(a), n)).Some?
    ensures var r := QualifyExpr(cat, srcs, Col(Some(a), n)); QualifyExpr(cat, srcs', r.value) == r
  {
    LowerIdempotent(a);
    LowerIdempotent(n);
    SameColumns(cat, srcs, srcs', Lower(a));
    ColumnQualifies(cat, srcs', LowerName(a), LowerName(n));
  }

  lemma BareColumnStable(cat: Catalog, srcs: seq<Source>, srcs': seq<Source>, n: Name)
    requires DistinctAliases(srcs) && SameSources(srcs, srcs') && QualifyExpr(cat, srcs, Col(None, n)).Some?
    ensures var r := QualifyExpr(cat, srcs, Col(None, n)); QualifyExpr(cat, srcs', r.value) == r
  {
    var a := Candidates(cat, srcs, Lower(n))[0];
    LowerIdempotent(n);
    CandidatesLower(cat, srcs, Lower(n));
    CandidateFound(cat, srcs, Lower(n));
    SameColumns(cat, srcs, srcs', a);
    ColumnQualifies(cat, srcs', a, LowerName(n));
  }

  lemma {:induction false} QualifyExprStable(cat: Catalog, srcs: seq<Source>, srcs': seq<Source>, e: Expr)
    requires DistinctAliases(srcs) && SameSources(srcs, srcs')
    requires QualifyExpr(cat, srcs, e).Some?
    ensures QualifyExpr(cat, srcs', QualifyExpr(cat, srcs, e).value) == QualifyExpr(cat, srcs, e)
  {
    match e
    case Col(Some(a), n) => QualifiedColumnStable(cat, srcs, srcs', a, n);
    case Col(None, n) => BareColumnStable(cat, srcs, srcs', n);
    case Call(fn, args) => QualifyExprsStable(cat, srcs, srcs', args);
    case Bin(op, l, r) =>
      QualifyExprStable(cat, srcs, srcs', l);
      QualifyExprStable(cat, srcs, srcs', r);
    case _ =>
  }

  lemma {:induction false} QualifyExprsStable(cat: Catalog, srcs: seq<Source>, srcs': seq<Source>, es: seq<Expr>)
    requires DistinctAliases(srcs) && SameSources(srcs, srcs')
    requires QualifyExprs(cat, srcs, es).Some?
    ensures QualifyExprs(cat, srcs', QualifyExprs(cat, srcs, es).value) == QualifyExprs(cat, srcs, es)
  {
    if es != [] {
      QualifyExprStable(cat, srcs, srcs', es[0]);
      QualifyExprsStable(cat, srcs, srcs', es[1..]);
      var r := QualifyExprs(cat, srcs, es).value;
      assert r[1..] == QualifyExprs(cat, srcs, es[1..]).value;
    }
  }

  lemma QualifyOptionStable(cat: Catalog, srcs: seq<Source>, srcs': seq<Source>, e: Option<Expr>)
    requires DistinctAliases(srcs) && SameSources(srcs, srcs')
    requires QualifyOption(cat, srcs, e).Some?
    ensures QualifyOption(cat, srcs', QualifyOption(cat, srcs, e).value) == QualifyOption(cat, srcs, e)
  {
    if e.Some? {
      QualifyExprStable(cat, srcs, srcs', e.value);
    }
  }

  lemma {:induction false} QualifyItemsStable(
      cat: Catalog, srcs: seq<Source>, srcs': seq<Source>, i: nat, items: seq<Item>)
    requires DistinctAliases(srcs) && SameSources(srcs, srcs')
    requires QualifyItems(cat, srcs, i, items).Some?
    ensures QualifyItems(cat, srcs', i, QualifyItems(cat, srcs, i, items).value) == QualifyItems(cat, srcs, i, items)
    decreases |items|
  {
    if items != [] {
      QualifyExprStable(cat, srcs, srcs', items[0].e);
      QualifyItemsStable(cat, srcs, srcs', i + 1, items[1..]);
      var r := QualifyItems(cat, srcs, i, items).value;
      assert r[1..] == QualifyItems(cat, srcs, i + 1, items[1..]).value;
      OutputAliasLower(cat, srcs, i, items[0]);
    }
  }

  lemma OutputAliasLower(cat: Catalog, srcs: seq<Source>, i: nat, item: Item)
    requires QualifyExpr(cat, srcs, item.e).Some?
    ensures var a := OutputAlias(i, QualifyExpr(cat, srcs, item.e).value, item.alias); Lower(a) == a
  {
    var e := QualifyExpr(cat, srcs, item.e).value;
    if item.alias.Some? {
      LowerIdempotent(item.alias.value);
    } else if e.Col? {
      QualifiedColumnLower(cat, srcs, item.e);
    } else {
      var a := GeneratedAlias(i);
      assert forall k :: 0 <= k < |a| ==> LowerChar(a[k]) == a[k];
    }
  }

  lemma QualifiedColumnLower(cat: Catalog, srcs: seq<Source>, e: Expr)
    requires QualifyExpr(cat, srcs, e).Some? && QualifyExpr(cat, srcs, e).value.Col?
    ensures Lower(QualifyExpr(cat, srcs, e).value.name) == QualifyExpr(cat, srcs, e).value.name
  {
    LowerIdempotent(e.name);
  }

  lemma {:induction false} QualifySourcesStable(cat: Catalog, srcs: seq<Source>, srcs': seq<Source>, ss: seq<Source>)
    requires DistinctAliases(srcs) && SameSources(srcs, srcs')
    requires QualifySources(cat, srcs, ss).Some?
    ensures QualifySources(cat, srcs', QualifySources(cat, srcs, ss).value) == QualifySources(cat, srcs, ss)
  {
    if ss != [] {
      var s := ss[0];
      QualifyOptionStable(cat, srcs, srcs', s.on);
      QualifySourcesStable(cat, srcs, srcs', ss[1..]);
      LowerIdempotent(s.table);
      LowerIdempotent(if s.alias.Some? then s.alias.value else s.table);
      if s.schema.Some? {
        LowerIdempotent(s.schema.value);
      }
      var r := QualifySources(cat, srcs, ss).value;
      assert r[1..] == QualifySources(cat, srcs, ss[1..]).value;
    }
  }

  /** What qualification yields, it yields again unchanged. */
  lemma QualifyStable(cat: Catalog, q: Query)
    requires Qualify(cat, q).Some?
    ensures Qualify(cat, Qualify(cat, q).value) == Qualify(cat, q)
  {
    var t := Qualify(cat, q).value;
    QualifiedSame(cat, q.sources, q.sources);
    QualifyItemsStable(cat, q.sources, t.sources, 0, q.items);
    QualifySourcesStable(cat, q.sources, t.sources, q.sources);
    QualifyOptionStable(cat, q.sources, t.sources, q.where);
  }

  // ---------------------------------------------------------------- fixpoint: the checks

  lemma {:induction false} QualifyExprStar(cat: Catalog, srcs: seq<Source>, e: Expr)
    requires QualifyExpr(cat, srcs, e).Some?
    ensures ExprStar(QualifyExpr(cat, srcs, e).value) == ExprStar(e)
  {
    match e
    case Call(fn, args) => QualifyExprsStar(cat, srcs, args);
    case Bin(op, l, r) =>
      QualifyExprStar(cat, srcs, l);
      QualifyExprStar(cat, srcs, r);
    case _ =>
  }

  lemma {:induction false} QualifyExprsStar(cat: Catalog, srcs: seq<Source>, es: seq<Expr>)
    requires QualifyExprs(cat, srcs, es).Some?
    ensures forall i :: 0 <= i < |es| ==> ExprStar(QualifyExprs(cat, srcs, es).value[i]) == ExprStar(es[i])
  {
    if es != [] {
      QualifyExprStar(cat, srcs, es[0]);
      QualifyExprsStar(cat, srcs, es[1..]);
      assert QualifyExprs(cat, srcs, es).value[1..] == QualifyExprs(cat, srcs, es[1..]).value;
      forall i | 0 <= i < |es|
        ensures ExprStar(QualifyExprs(cat, srcs, es).value[i]) == ExprStar(es[i])
      {
        if i > 0 {
          assert es[i] == es[1..][i - 1];
        }
      }
    }
  }

  /** The qualified item at position `i` is the qualified expression under its output alias. */
  lemma {:induction false} QualifyItemAt(cat: Catalog, srcs: seq<Source>, base: nat, items: seq<Item>, i: nat)
    requires QualifyItems(cat, srcs, base, items).Some? && i < |items|
    ensures QualifyExpr(cat, srcs, items[i].e) == Some(QualifyItems(cat, srcs, base, items).value[i].e)
    decreases |items|
  {
    if i > 0 {
      QualifyItemAt(cat, srcs, base + 1, items[1..], i - 1);
    }
  }

  lemma QualifyStar(cat: Catalog, q: Query)
    requires Qualify(cat, q).Some? && !HasStar(q)
    ensures !HasStar(Qualify(cat, q).value)
  {
    var t := Qualify(cat, q).value;
    forall i | 0 <= i < |t.items|
      ensures !ExprStar(t.items[i].e)
    {
      QualifyItemAt(cat, q.sources, 0, q.items, i);
      QualifyExprStar(cat, q.sources, q.items[i].e);
    }
    forall i | 0 <= i < |t.sources|
      ensures !OptionStar(t.sources[i].on)
    {
      assert Some(t.sources[i]) == QualifySource(cat, q.sources, q.sources[i]);
      if q.sources[i].on.Some? {
        QualifyExprStar(cat, q.sources, q.sources[i].on.value);
      }
    }
    if q.where.Some? {
      QualifyExprStar(cat, q.sources, q.where.value);
    }
  }

  lemma CheckTableSame(cfg: Config, cat: Catalog, s: Source, s': Source)
    requires SchemaName(s) == SchemaName(s') && TableName(s) == TableName(s')
    ensures CheckTable(cfg, cat, s) == CheckTable(cfg, cat, s')
  {
  }

  lemma ShorterSame(a: seq<Source>, b: seq<Source>)
    requires SameSources(a, b) && a != []
    ensures SameSources(a[..|a| - 1], b[..|b| - 1])
  {
  }

  lemma LastTableSame(cfg: Config, cat: Catalog, a: seq<Source>, b: seq<Source>)
    requires a != [] && b != [] && CheckTables(cfg, cat, a[..|a| - 1]) == CheckTables(cfg, cat, b[..|b| - 1])
    requires CheckTable(cfg, cat, a[|a| - 1]) == CheckTable(cfg, cat, b[|b| - 1])
    ensures CheckTables(cfg, cat, a) == CheckTables(cfg, cat, b)
  {
  }

  lemma {:induction false} CheckTablesSame(cfg: Config, cat: Catalog, a: seq<Source>, b: seq<Source>)
    requires SameSources(a, b)
    ensures CheckTables(cfg, cat, a) == CheckTables(cfg, cat, b)
  {
    if a != [] {
      CheckTableSame(cfg, cat, a[|a| - 1], b[|b| - 1]);
      ShorterSame(a, b);
      CheckTablesSame(cfg, cat, a[..|a| - 1], b[..|b| - 1]);
      LastTableSame(cfg, cat, a, b);
    }
  }

  lemma QualifyKeepsLimit(cat: Catalog, t: Query, limit: Option<Expr>)
    requires Qualify(cat, t) == Some(t)
    ensures Qualify(cat, t.(limit := limit)) == Some(t.(limit := limit))
  {
  }

  lemma CheckQualifiedStable(cfg: Config, cat: Catalog, tree: Query, tables: set<string>)
    requires CheckQualified(cfg, cat, tree, tables).Ok?
    ensures var ck := CheckQualified(cfg, cat, tree, tables).value;
            CheckQualified(cfg, cat, ck.query, tables) == Ok(ck)
  {
    var ck := CheckQualified(cfg, cat, tree, tables).value;
    ValueOfDecimal(ck.rowLimit);
    assert RewriteLimit(cfg, ck.query.limit) == Ok(ck.rowLimit);
    assert QueryExprs(ck.query) == QueryExprs(tree);
    assert Sensitivity(cat, ck.query) == Sensitivity(cat, tree);
  }

  lemma StarKeepsLimit(t: Query, n: nat)
    requires !HasStar(t)
    ensures !HasStar(t.(limit := Some(LimitLiteral(n))))
  {
    var u := t.(limit := Some(LimitLiteral(n)));
    assert u.items == t.items && u.sources == t.sources && u.where == t.where;
  }

  lemma CheckOfQualified(cfg: Config, cat: Catalog, t: Query, tables: set<string>)
    requires !HasStar(t) && JoinCount(t) <= cfg.maxJoins && CheckTables(cfg, cat, t.sources) == Ok(tables)
    requires Qualify(cat, t) == Some(t)
    ensures CheckQuery(cfg, cat, t) == CheckQualified(cfg, cat, t, tables)
  {
  }

  /** What acceptance of a tree records. */
  lemma CheckParts(cfg: Config, cat: Catalog, q: Query)
    requires CheckQuery(cfg, cat, q).Ok?
    ensures var ck := CheckQuery(cfg, cat, q).value;
            && !HasStar(q) && JoinCount(q) <= cfg.maxJoins && CheckTables(cfg, cat, q.sources) == Ok(ck.tables)
            && Qualify(cat, q).Some? && CheckQualified(cfg, cat, Qualify(cat, q).value, ck.tables) == Ok(ck)
            && ck.query == Qualify(cat, q).value.(limit := Some(LimitLiteral(ck.rowLimit)))
            && RewriteLimit(cfg, q.limit) == Ok(ck.rowLimit)
            && ck.sensitive == Sensitivity(cat, Qualify(cat, q).value)
  {
  }

  /** The tree-level pass is idempotent: checking its own output yields the same verdict. */
  lemma CheckQueryStable(cfg: Config, cat: Catalog, q: Query)
    requires CheckQuery(cfg, cat, q).Ok?
    ensures CheckQuery(cfg, cat, CheckQuery(cfg, cat, q).value.query) == CheckQuery(cfg, cat, q)
  {
    CheckParts(cfg, cat, q);
    CheckQueryStableFrom(cfg, cat, q, Qualify(cat, q).value, CheckQuery(cfg, cat, q).value);
  }

  lemma CheckQueryStableFrom(cfg: Config, cat: Catalog, q: Query, tree: Query, ck: Checked)
    requires !HasStar(q) && JoinCount(q) <= cfg.maxJoins && CheckTables(cfg, cat, q.sources) == Ok(ck.tables)
    requires Qualify(cat, q) == Some(tree) && CheckQualified(cfg, cat, tree, ck.tables) == Ok(ck)
    requires ck.query == tree.(limit := Some(LimitLiteral(ck.rowLimit)))
    ensures CheckQuery(cfg, cat, ck.query) == Ok(ck)
  {
    QualifyStable(cat, q);
    QualifyStar(cat, q);
    StarKeepsLimit(tree, ck.rowLimit);
    QualifiedSame(cat, q.sources, q.sources);
    CheckTablesSame(cfg, cat, q.sources, tree.sources);
    QualifyKeepsLimit(cat, tree, ck.query.limit);
    CheckOfQualified(cfg, cat, ck.query, ck.tables);
    CheckQualifiedStable(cfg, cat, tree, ck.tables);
  }

  /** Normalised text parses back to the tree it was printed from. */
  lemma NormalizedParses(q: Query)
    requires WellFormed(q)
    ensures ParseSql(Normalized(q)) == Ok(q)
  {
    var ts := QueryTokens(q);
    UnlexClean(ts);
    LexUnlex(ts);
    QueryRoundTrip(q);
  }

  /** Re-validation is a fixpoint: validating the normalised SQL of an accepted query
      under the same catalogue and config succeeds with the identical record, so text,
      fingerprint, tables, columns, sensitivity vector and row limit all agree. */
  lemma RevalidationIsFixpoint(cfg: Config, cat: Catalog, sql: string)
    requires Validate(cfg, cat, sql).Ok?
    ensures Validate(cfg, cat, Validate(cfg, cat, sql).value.sql) == Validate(cfg, cat, sql)
  {
    ParsedWellFormed(sql);
    var q := ParseSql(sql).value;
    CheckedWellFormed(cfg, cat, q);
    var ck := CheckQuery(cfg, cat, q).value;
    NormalizedParses(ck.query);
    CheckQueryStable(cfg, cat, q);
  }

  // ---------------------------------------------------------------- ordinary queries are accepted

  /** `SELECT column FROM schema.table`, the column left unqualified. */
  function ColumnQuery(schema: Name, table: Name, column: Name): Query {
    Query([Item(Col(None, column), None)], [Source(Inner, Some(schema), table, None, None)], None, None)
  }

  lemma OneCandidate(cat: Catalog, s: Source, column: string)
    requires column in Columns(cat, s)
    ensures Candidates(cat, [s], column) == [AliasOf(s)]
  {
    assert [s][1..] == [];
  }

  lemma OneItem(cat: Catalog, srcs: seq<Source>, item: Item)
    requires QualifyExpr(cat, srcs, item.e).Some?
    ensures QualifyItems(cat, srcs, 0, [item]).Some?
  {
    assert QualifyItems(cat, srcs, 1, [item][1..]) == Some([]);
  }

  lemma OneSource(cat: Catalog, srcs: seq<Source>, s: Source)
    requires s.on.None?
    ensures QualifySources(cat, srcs, [s]).Some?
  {
    assert QualifySources(cat, srcs, [s][1..]) == Some([]);
  }

  lemma ColumnQueryQualifies(cat: Catalog, schema: Name, table: Name, column: Name)
    requires Lower(column) in TableColumns(cat, Lower(schema), Lower(table))
    ensures Qualify(cat, ColumnQuery(schema, table, column)).Some?
  {
    var q := ColumnQuery(schema, table, column);
    OneCandidate(cat, q.sources[0], Lower(column));
    OneItem(cat, q.sources, q.items[0]);
    OneSource(cat, q.sources, q.sources[0]);
  }

  lemma ColumnQueryTables(cfg: Config, cat: Catalog, schema: Name, table: Name, column: Name)
    requires Lower(schema) in cfg.allowedSchemas && Lower(column) in TableColumns(cat, Lower(schema), Lower(table))
    ensures CheckTables(cfg, cat, ColumnQuery(schema, table, column).sources) ==
            Ok({Lower(schema) + "." + Lower(table)})
  {
    var srcs := ColumnQuery(schema, table, column).sources;
    var c :| c in cat.columns && Names(c, Lower(schema), Lower(table));
    assert TableListed(cat, Lower(schema), Lower(table));
    assert CheckTable(cfg, cat, srcs[0]) == Ok(Lower(schema) + "." + Lower(table));
    assert CheckTables(cfg, cat, srcs[..0]) == Ok({});
    assert {} + {Lower(schema) + "." + Lower(table)} == {Lower(schema) + "." + Lower(table)};
  }

  /** What a qualified single-column query still has to pass. */
  lemma ColumnQueryChecked(cfg: Config, cat: Catalog, t: Query, tables: set<string>)
    requires |t.items| == 1 && t.items[0].e.Col? && t.limit.None? && t.where.None?
    requires SourceExprs(t.sources) == []
    requires CheckColumns(cat, t.sources, ExprsColumns(QueryExprs(t))).Ok?
    ensures CheckQualified(cfg, cat, t, tables).Ok? && CheckQualified(cfg, cat, t, tables).value.rowLimit == cfg.maxRows
    ensures CheckQualified(cfg, cat, t, tables).value.tables == tables
  {
    assert QueryExprs(t) == [t.items[0].e];
  }

  /** The policy is not vacuous: in every allowed schema, selecting any listed column of
      any listed table is accepted, unqualified as generators write it, with max_rows as
      the limit. */
  lemma ListedColumnIsAccepted(cfg: Config, cat: Catalog, schema: Name, table: Name, column: Name)
    requires Lower(schema) in cfg.allowedSchemas && Lower(column) in TableColumns(cat, Lower(schema), Lower(table))
    ensures var r := Validate(cfg, cat, Normalized(ColumnQuery(schema, table, column)));
      r.Ok? && r.value.rowLimit == cfg.maxRows && r.value.tables == {Lower(schema) + "." + Lower(table)}
  {
    var q := ColumnQuery(schema, table, column);
    NormalizedParses(q);
    ColumnQueryVerdict(cfg, cat, schema, table, column);
    ValidateFromParts(cfg, cat, Normalized(q), q);
  }

  lemma ColumnQueryVerdict(cfg: Config, cat: Catalog, schema: Name, table: Name, column: Name)
    requires Lower(schema) in cfg.allowedSchemas && Lower(column) in TableColumns(cat, Lower(schema), Lower(table))
    ensures var r := CheckQuery(cfg, cat, ColumnQuery(schema, table, column));
      r.Ok? && r.value.rowLimit == cfg.maxRows && r.value.tables == {Lower(schema) + "." + Lower(table)}
  {
    var q, tables := ColumnQuery(schema, table, column), {Lower(schema) + "." + Lower(table)};
    ColumnQueryQualifies(cat, schema, table, column);
    ColumnQueryTables(cfg, cat, schema, table, column);
    QualifiedColumnsAllowed(cat, q);
    ColumnQueryShape(cat, schema, table, column);
    ColumnQueryChecked(cfg, cat, Qualify(cat, q).value, tables);
    ColumnQueryStar(schema, table, column);
    CheckFromParts(cfg, cat, q, tables);
  }

  lemma ColumnQueryStar(schema: Name, table: Name, column: Name)
    ensures !HasStar(ColumnQuery(schema, table, column)) && JoinCount(ColumnQuery(schema, table, column)) == 0
  {
  }

  lemma CheckFromParts(cfg: Config, cat: Catalog, q: Query, tables: set<string>)
    requires !HasStar(q) && JoinCount(q) <= cfg.maxJoins && CheckTables(cfg, cat, q.sources) == Ok(tables)
    requires Qualify(cat, q).Some?
    ensures CheckQuery(cfg, cat, q) == CheckQualified(cfg, cat, Qualify(cat, q).value, tables)
  {
  }

  lemma ValidateFromParts(cfg: Config, cat: Catalog, sql: string, q: Query)
    requires ParseSql(sql) == Ok(q) && CheckQuery(cfg, cat, q).Ok?
    ensures Validate(cfg, cat, sql).Ok?
    ensures Validate(cfg, cat, sql).value.rowLimit == CheckQuery(cfg, cat, q).value.rowLimit
    ensures Validate(cfg, cat, sql).value.tables == CheckQuery(cfg, cat, q).value.tables
  {
  }

  lemma ColumnQueryShape(cat: Catalog, schema: Name, table: Name, column: Name)
    requires Qualify(cat, ColumnQuery(schema, table, column)).Some?
    ensures var t := Qualify(cat, ColumnQuery(schema, table, column)).value;
      && |t.items| == 1 && t.items[0].e.Col? && t.limit.None? && t.where.None? && SourceExprs(t.sources) == []
  {
    var q := ColumnQuery(schema, table, column);
    var t := Qualify(cat, q).value;
    QualifyItemAt(cat, q.sources, 0, q.items, 0);
    assert Some(t.sources[0]) == QualifySource(cat, q.sources, q.sources[0]);
    assert t.sources[1..] == [];
  }

  // ---------------------------------------------------------------- the column check is a backstop

  lemma {:induction false} QualifiedColumnsCheck(cat: Catalog, srcs: seq<Source>, srcs': seq<Source>, e: Expr)
    requires DistinctAliases(srcs) && SameSources(srcs, srcs')
    requires QualifyExpr(cat, srcs, e).Some?
    ensures forall c :: c in ExprColumns(QualifyExpr(cat, srcs, e).value) ==> CheckColumn(cat, srcs', c).Ok?
  {
    match e
    case Col(_, n) =>
      QualifyExprStable(cat, srcs, srcs', e);
      var c := QualifyExpr(cat, srcs, e).value;
      assert ExprColumns(c) == [c];
    case Call(fn, args) => QualifiedArgsCheck(cat, srcs, srcs', args);
    case Bin(op, l, r) =>
      QualifiedColumnsCheck(cat, srcs, srcs', l);
      QualifiedColumnsCheck(cat, srcs, srcs', r);
    case _ =>
  }

  lemma {:induction false} QualifiedArgsCheck(cat: Catalog, srcs: seq<Source>, srcs': seq<Source>, es: seq<Expr>)
    requires DistinctAliases(srcs) && SameSources(srcs, srcs')
    requires QualifyExprs(cat, srcs, es).Some?
    ensures forall c :: c in ExprsColumns(QualifyExprs(cat, srcs, es).value) ==> CheckColumn(cat, srcs', c).Ok?
  {
    if es != [] {
      QualifiedColumnsCheck(cat, srcs, srcs', es[0]);
      QualifiedArgsCheck(cat, srcs, srcs', es[1..]);
      assert QualifyExprs(cat, srcs, es).value[1..] == QualifyExprs(cat, srcs, es[1..]).value;
    }
  }

  lemma {:induction false} CheckColumnsOk(cat: Catalog, srcs: seq<Source>, cols: seq<Expr>)
    requires forall c :: c in cols ==> c.Col? && CheckColumn(cat, srcs, c).Ok?
    ensures CheckColumns(cat, srcs, cols).Ok?
    ensures CheckColumns(cat, srcs, cols).value == set c | c in cols :: CheckColumn(cat, srcs, c).value
  {
    if cols != [] {
      CheckColumnsOk(cat, srcs, cols[..|cols| - 1]);
      var last := cols[|cols| - 1];
      assert CheckColumn(cat, srcs, last).Ok?;
      forall c | c in cols
        ensures c in cols[..|cols| - 1] || c == last
      {
      }
    }
  }

  lemma {:induction false} ExprsColumnsIn(es: seq<Expr>, c: Expr)
    requires c in ExprsColumns(es)
    ensures exists e :: e in es && c in ExprColumns(e)
  {
    if c !in ExprColumns(es[0]) {
      ExprsColumnsIn(es[1..], c);
    }
  }

  lemma {:induction false} SourceExprsIn(srcs: seq<Source>, e: Expr)
    requires e in SourceExprs(srcs)
    ensures exists s :: s in srcs && s.on == Some(e)
  {
    if srcs[0].on != Some(e) {
      SourceExprsIn(srcs[1..], e);
    }
  }

  lemma QualifiedSourceExpr(cat: Catalog, q: Query, e: Expr)
    requires Qualify(cat, q).Some? && e in SourceExprs(Qualify(cat, q).value.sources)
    ensures exists o :: QualifyExpr(cat, q.sources, o) == Some(e)
  {
    ResolvedSourceExpr(cat, q.sources, q.sources, Qualify(cat, q).value.sources, e);
  }

  lemma ResolvedSourceExpr(cat: Catalog, srcs: seq<Source>, ss: seq<Source>, ss': seq<Source>, e: Expr)
    requires QualifySources(cat, srcs, ss) == Some(ss') && e in SourceExprs(ss')
    ensures exists o :: QualifyExpr(cat, srcs, o) == Some(e)
  {
    SourceExprsIn(ss', e);
    var i :| 0 <= i < |ss'| && ss'[i].on == Some(e);
    ResolvedCondition(cat, srcs, ss[i], ss'[i]);
  }

  lemma ResolvedCondition(cat: Catalog, srcs: seq<Source>, s: Source, s': Source)
    requires QualifySource(cat, srcs, s) == Some(s') && s'.on.Some?
    ensures s.on.Some? && QualifyExpr(cat, srcs, s.on.value) == s'.on
  {
  }

  /** Every expression of a qualified tree is the qualification of one of the original's. */
  lemma QualifiedExprSource(cat: Catalog, q: Query, e: Expr)
    requires Qualify(cat, q).Some? && e in QueryExprs(Qualify(cat, q).value)
    ensures exists o :: QualifyExpr(cat, q.sources, o) == Some(e)
  {
    var t := Qualify(cat, q).value;
    if e in SourceExprs(t.sources) {
      QualifiedSourceExpr(cat, q, e);
    } else if e in ItemExprs(t.items) {
      var i :| 0 <= i < |t.items| && ItemExprs(t.items)[i] == e;
      QualifyItemAt(cat, q.sources, 0, q.items, i);
    } else {
      assert e in OptionExprs(t.where);
      assert QualifyExpr(cat, q.sources, q.where.value) == Some(e);
    }
  }

  /** After qualification the three column refusals are unreachable: every column that
      survives names a listed table and a listed column of it. */
  lemma QualifiedColumnsAllowed(cat: Catalog, q: Query)
    requires Qualify(cat, q).Some?
    ensures var t := Qualify(cat, q).value;
            CheckColumns(cat, t.sources, ExprsColumns(QueryExprs(t))).Ok?
  {
    var t := Qualify(cat, q).value;
    var cols := ExprsColumns(QueryExprs(t));
    QualifiedSame(cat, q.sources, q.sources);
    forall c | c in cols
      ensures CheckColumn(cat, t.sources, c).Ok?
    {
      ExprsColumnsIn(QueryExprs(t), c);
      var e :| e in QueryExprs(t) && c in ExprColumns(e);
      QualifiedExprSource(cat, q, e);
      var o :| QualifyExpr(cat, q.sources, o) == Some(e);
      QualifiedColumnsCheck(cat, q.sources, t.sources, o);
    }
    CheckColumnsOk(cat, t.sources, cols);
  }

  // ---------------------------------------------------------------- the pass as it runs

  type Nested = map<string, map<string, map<string, string>>>

  predicate InNested(m: Nested, s: string, t: string, c: string) {
    s in m && t in m[s] && c in m[s][t]
  }

  /** The type the last matching entry gives a column. */
  function LastType(cols: seq<CatalogColumn>, s: string, t: string, c: string): Option<string> {
    if cols == [] then None
    else
      var last := cols[|cols| - 1];
      if Names(last, s, t) && Lower(last.column) == c then Some(last.dataType)
      else LastType(cols[..|cols| - 1], s, t, c)
  }

  /** `setdefault` twice and one assignment, entry by entry. */
  method BuildQualifySchema(cols: seq<CatalogColumn>) returns (schema: Nested)
    ensures forall s, t, c :: InNested(schema, s, t, c) <==> LastType(cols, s, t, c).Some?
    ensures forall s, t, c :: InNested(schema, s, t, c) ==> LastType(cols, s, t, c) == Some(schema[s][t][c])
  {
    schema := map[];
    for k := 0 to |cols|
      invariant forall s, t, c :: InNested(schema, s, t, c) <==> LastType(cols[..k], s, t, c).Some?
      invariant forall s, t, c :: InNested(schema, s, t, c) ==> LastType(cols[..k], s, t, c) == Some(schema[s][t][c])
    {
      assert cols[..k + 1][..k] == cols[..k];
      var s, t, c := Lower(cols[k].schema), Lower(cols[k].table), Lower(cols[k].column);
      var tables := if s in schema then schema[s] else map[];
      var columns := if t in tables then tables[t] else map[];
      schema := schema[s := tables[t := columns[c := cols[k].dataType]]];
    }
    assert cols[..|cols|] == cols;
  }

  lemma {:induction false} LastTypeListed(cols: seq<CatalogColumn>, s: string, t: string, c: string)
    ensures LastType(cols, s, t, c).Some? <==> exists k :: k in cols && Names(k, s, t) && Lower(k.column) == c
  {
    if cols != [] {
      LastTypeListed(cols[..|cols| - 1], s, t, c);
      assert forall k :: k in cols <==> k in cols[..|cols| - 1] || k == cols[|cols| - 1];
    }
  }

  /** The schema handed to the qualifier holds exactly the catalogued columns of each table. */
  lemma QualifySchemaIsCatalog(cat: Catalog, schema: Nested, s: string, t: string, c: string)
    requires forall s, t, c :: InNested(schema, s, t, c) <==> LastType(cat.columns, s, t, c).Some?
    ensures InNested(schema, s, t, c) <==> c in TableColumns(cat, s, t)
  {
    LastTypeListed(cat.columns, s, t, c);
  }

  method CollectTables(cfg: Config, cat: Catalog, srcs: seq<Source>) returns (r: Ruling<set<string>>)
    ensures r == CheckTables(cfg, cat, srcs)
  {
    var names: set<string> := {};
    for k := 0 to |srcs|
      invariant CheckTables(cfg, cat, srcs[..k]) == Ok(names)
    {
      assert srcs[..k + 1][..k] == srcs[..k];
      match CheckTable(cfg, cat, srcs[k]) {
        case Err(c) =>
          CheckTablesFailsEarly(cfg, cat, srcs, k + 1);
          return Err(c);
        case Ok(name) => names := names + {name};
      }
    }
    assert srcs[..|srcs|] == srcs;
    return Ok(names);
  }

  lemma {:induction false} CheckTablesFailsEarly(cfg: Config, cat: Catalog, srcs: seq<Source>, k: nat)
    requires k <= |srcs| && CheckTables(cfg, cat, srcs[..k]).Err?
    ensures CheckTables(cfg, cat, srcs) == CheckTables(cfg, cat, srcs[..k])
  {
    if k < |srcs| {
      var most := srcs[..|srcs| - 1];
      assert most[..k] == srcs[..k];
      CheckTablesFailsEarly(cfg, cat, most, k);
    } else {
      assert srcs[..k] == srcs;
    }
  }

  method CollectColumns(cat: Catalog, srcs: seq<Source>, cols: seq<Expr>) returns (r: Ruling<set<string>>)
    requires forall c :: c in cols ==> c.Col?
    ensures r == CheckColumns(cat, srcs, cols)
  {
    var names: set<string> := {};
    for k := 0 to |cols|
      invariant CheckColumns(cat, srcs, cols[..k]) == Ok(names)
    {
      assert cols[..k + 1][..k] == cols[..k];
      match CheckColumn(cat, srcs, cols[k]) {
        case Err(c) =>
          CheckColumnsFailsEarly(cat, srcs, cols, k + 1);
          return Err(c);
        case Ok(name) => names := names + {name};
      }
    }
    assert cols[..|cols|] == cols;
    return Ok(names);
  }

  lemma {:induction false} CheckColumnsFailsEarly(cat: Catalog, srcs: seq<Source>, cols: seq<Expr>, k: nat)
    requires forall c :: c in cols ==> c.Col?
    requires k <= |cols| && CheckColumns(cat, srcs, cols[..k]).Err?
    ensures CheckColumns(cat, srcs, cols) == CheckColumns(cat, srcs, cols[..k])
  {
    if k < |cols| {
      var most := cols[..|cols| - 1];
      assert most[..k] == cols[..k];
      CheckColumnsFailsEarly(cat, srcs, most, k);
    } else {
      assert cols[..k] == cols;
    }
  }

  method ValidateAndRewrite(cfg: Config, cat: Catalog, sql: string) returns (r: Ruling<Validated>)
    ensures r == Validate(cfg, cat, sql)
  {
    var parsed := ParseSql(sql);
    if parsed.Err? { return Err(parsed.code); }
    var q := parsed.value;
    if HasStar(q) { return Err(SelectStarForbidden); }
    if JoinCount(q) > cfg.maxJoins { return Err(TooManyJoins); }
    var tables := CollectTables(cfg, cat, q.sources);
    if tables.Err? { return Err(tables.code); }
    var qualified := Qualify(cat, q);
    if qualified.None? { return Err(ColumnQualificationFailed); }
    var tree := qualified.value;
    var columns := CollectColumns(cat, tree.sources, ExprsColumns(QueryExprs(tree)));
    if columns.Err? { return Err(columns.code); }
    var sensitive := Sensitivity(cat, tree);
    if !FunctionsAllowed(cfg, QueryExprs(tree)) { return Err(FunctionNotAllowed); }
    var limit := RewriteLimit(cfg, tree.limit);
    if limit.Err? { return Err(limit.code); }
    tree := tree.(limit := Some(LimitLiteral(limit.value)));
    ParsedWellFormed(sql);
    CheckedWellFormed(cfg, cat, q);
    var text := Normalized(tree);
    var fingerprint := Fingerprint(cfg, cat, text);
    return Ok(Validated(
      text, fingerprint, tables.value, columns.value, sensitive, limit.value, cfg.policyVersion));
  }
}
