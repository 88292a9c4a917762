/** A left join on a sensitive column that gives nothing away: for left joins, conditions on
    public columns are enough to hide sensitive cells, but not always needed. */
module SqlLeftJoin {
  import opened Wrappers
  import Numerals
  import opened SqlText
  import opened SqlAst
  import opened SqlPolicy
  import opened SqlMeaning
  import opened SqlPrivacy
  import opened SqlExposure

  /** `SELECT a.x AS x FROM s.a AS a LEFT JOIN s.b AS b ON b.n = a.x LIMIT 1`. */
  function FirstRowQuery(s: Name, a: Name, b: Name, x: Name, n: Name): Query {
    Query([Item(Col(Some(a), x), Some(x))], [FirstSource(s, a), PaddedSource(s, a, b, x, n)], None,
          Some(LimitLiteral(1)))
  }

  function FirstSource(s: Name, a: Name): Source { Source(Inner, Some(s), a, Some(a), None) }

  function PaddedSource(s: Name, a: Name, b: Name, x: Name, n: Name): Source {
    Source(LeftOuter, Some(s), b, Some(b), Some(Bin(EqOp, Col(Some(b), n), Col(Some(a), x))))
  }

  /** Two listed tables of an allowed schema; `a.x` is public and `b.n` is sensitive. */
  predicate Setting(cfg: Config, cat: Catalog, s: Name, a: Name, b: Name, x: Name, n: Name) {
    && Lower(s) == s && Lower(a) == a && Lower(b) == b && Lower(x) == x && Lower(n) == n && a != b
    && s in cfg.allowedSchemas && cfg.maxJoins >= 1
    && x in TableColumns(cat, s, a) && n in TableColumns(cat, s, b)
    && !SensitiveLookup(cat.columns, s, a, x) && SensitiveLookup(cat.columns, s, b, n)
  }

  lemma FirstRowSources(cfg: Config, cat: Catalog, s: Name, a: Name, b: Name, x: Name, n: Name)
    requires Setting(cfg, cat, s, a, b, x, n)
    ensures var srcs := FirstRowQuery(s, a, b, x, n).sources;
      && FindSource(srcs, a) == Some(srcs[0]) && FindSource(srcs, b) == Some(srcs[1]) && DistinctAliases(srcs)
      && Columns(cat, srcs[0]) == TableColumns(cat, s, a) && Columns(cat, srcs[1]) == TableColumns(cat, s, b)
  {
    var srcs := FirstRowQuery(s, a, b, x, n).sources;
    assert srcs[1..] == [srcs[1]];
    assert FindSource(srcs[1..], b) == Some(srcs[1]);
  }

  lemma FirstRowQualifies(cfg: Config, cat: Catalog, s: Name, a: Name, b: Name, x: Name, n: Name)
    requires Setting(cfg, cat, s, a, b, x, n)
    ensures Qualify(cat, FirstRowQuery(s, a, b, x, n)) == Some(FirstRowQuery(s, a, b, x, n))
  {
    var q := FirstRowQuery(s, a, b, x, n);
    var srcs := q.sources;
    FirstRowSources(cfg, cat, s, a, b, x, n);
    assert QualifyExpr(cat, srcs, Col(Some(a), x)) == Some(Col(Some(a), x));
    assert QualifyExpr(cat, srcs, Col(Some(b), n)) == Some(Col(Some(b), n));
    assert QualifySource(cat, srcs, srcs[0]) == Some(srcs[0]);
    assert QualifySource(cat, srcs, srcs[1]) == Some(srcs[1]);
    TwoSources(cat, srcs);
    OneItemQualifies(cat, srcs, q.items[0]);
  }

  lemma TwoSources(cat: Catalog, srcs: seq<Source>)
    requires |srcs| == 2
    requires QualifySource(cat, srcs, srcs[0]) == Some(srcs[0]) && QualifySource(cat, srcs, srcs[1]) == Some(srcs[1])
    ensures QualifySources(cat, srcs, srcs) == Some(srcs)
  {
    var last := [srcs[1]];
    assert srcs[1..] == last && last[1..] == [] && last + [] == last && [srcs[0]] + last == srcs;
    assert QualifySources(cat, srcs, last[1..]) == Some([]);
    assert QualifySources(cat, srcs, last) == Some(last);
  }

  lemma OneItemQualifies(cat: Catalog, srcs: seq<Source>, item: Item)
    requires QualifyExpr(cat, srcs, item.e) == Some(item.e)
    requires item.alias.Some? && Lower(item.alias.value) == item.alias.value
    ensures QualifyItems(cat, srcs, 0, [item]) == Some([item])
  {
    assert [item][1..] == [] && [item] + [] == [item];
    assert QualifyItems(cat, srcs, 1, [item][1..]) == Some([]);
  }

  lemma FirstRowTables(cfg: Config, cat: Catalog, s: Name, a: Name, b: Name, x: Name, n: Name)
    requires Setting(cfg, cat, s, a, b, x, n)
    ensures CheckTables(cfg, cat, FirstRowQuery(s, a, b, x, n).sources).Ok?
  {
    var srcs := FirstRowQuery(s, a, b, x, n).sources;
    ColumnIsListed(cat, s, a, x);
    ColumnIsListed(cat, s, b, n);
    assert srcs[..1] == [srcs[0]] && srcs[..1][..0] == [];
    assert CheckTables(cfg, cat, srcs[..1][..0]) == Ok({});
    assert CheckTables(cfg, cat, srcs[..1]).Ok?;
  }

  lemma ColumnIsListed(cat: Catalog, s: string, t: string, c: string)
    requires c in TableColumns(cat, s, t)
    ensures TableListed(cat, s, t)
  {
  }

  /** The query is accepted and stored as it is. */
  lemma FirstRowIsStored(cfg: Config, cat: Catalog, s: Name, a: Name, b: Name, x: Name, n: Name)
    requires Setting(cfg, cat, s, a, b, x, n)
    ensures var q := FirstRowQuery(s, a, b, x, n);
      && WellFormed(q) && Validate(cfg, cat, Normalized(q)).Ok?
      && Validate(cfg, cat, Normalized(q)).value.sql == Normalized(q) && ParseSql(Normalized(q)) == Ok(q)
  {
    var q := FirstRowQuery(s, a, b, x, n);
    FirstRowQualifies(cfg, cat, s, a, b, x, n);
    FirstRowTables(cfg, cat, s, a, b, x, n);
    QualifiedColumnsAllowed(cat, q);
    FirstRowChecks(cfg, cat, s, a, b, x, n, CheckTables(cfg, cat, q.sources).value);
    NormalizedParses(q);
  }

  lemma FirstRowChecks(
      cfg: Config, cat: Catalog, s: Name, a: Name, b: Name, x: Name, n: Name, tables: set<string>)
    requires cfg.maxJoins >= 1
    requires var q := FirstRowQuery(s, a, b, x, n);
      && Qualify(cat, q) == Some(q) && CheckTables(cfg, cat, q.sources) == Ok(tables)
      && CheckColumns(cat, q.sources, ExprsColumns(QueryExprs(q))).Ok?
    ensures var q := FirstRowQuery(s, a, b, x, n);
      CheckQuery(cfg, cat, q).Ok? && CheckQuery(cfg, cat, q).value.query == q
  {
    var q := FirstRowQuery(s, a, b, x, n);
    FirstRowLimit(cfg);
    FirstRowCalls(cfg, s, a, b, x, n);
    FirstRowShape(s, a, b, x, n);
    CheckFromParts(cfg, cat, q, tables);
    QualifiedChecks(cfg, cat, q, tables, 1);
  }

  lemma QualifiedChecks(cfg: Config, cat: Catalog, q: Query, tables: set<string>, limit: nat)
    requires CheckColumns(cat, q.sources, ExprsColumns(QueryExprs(q))).Ok? && FunctionsAllowed(cfg, QueryExprs(q))
    requires RewriteLimit(cfg, q.limit) == Ok(limit) && q.limit == Some(LimitLiteral(limit))
    ensures CheckQualified(cfg, cat, q, tables).Ok? && CheckQualified(cfg, cat, q, tables).value.query == q
  {
  }

  lemma FirstRowLimit(cfg: Config)
    ensures RewriteLimit(cfg, Some(LimitLiteral(1))) == Ok(1)
  {
    Numerals.ValueOfDecimal(1);
  }

  lemma FirstRowShape(s: Name, a: Name, b: Name, x: Name, n: Name)
    ensures !HasStar(FirstRowQuery(s, a, b, x, n)) && JoinCount(FirstRowQuery(s, a, b, x, n)) == 1
  {
    var q := FirstRowQuery(s, a, b, x, n);
    var on := q.sources[1].on.value;
    assert !ExprStar(on.left) && !ExprStar(on.right) && !ExprStar(on) && !ExprStar(q.items[0].e);
    assert q.sources[1].on == Some(on) && q.sources[0].on == None && q.limit == Some(LimitLiteral(1));
  }

  lemma FirstRowCalls(cfg: Config, s: Name, a: Name, b: Name, x: Name, n: Name)
    ensures FunctionsAllowed(cfg, QueryExprs(FirstRowQuery(s, a, b, x, n)))
  {
    var q := FirstRowQuery(s, a, b, x, n);
    var last := [q.sources[1]];
    assert q.sources[1..] == last && last[1..] == [] && SourceExprs(last[1..]) == [];
    assert SourceExprs(last) == [q.sources[1].on.value];
    assert SourceExprs(q.sources) == [q.sources[1].on.value];
    assert ItemExprs(q.items) == [q.items[0].e];
    assert QueryExprs(q) == [q.items[0].e, q.sources[1].on.value];
    assert ExprFunctions(q.items[0].e) == {} && ExprFunctions(q.sources[1].on.value) == {};
  }

  // ---------------------------------------------------------------- what it answers

  lemma {:induction false} MatchingFirst(it: Interp, env: Env, s: Source, rows: seq<Row>)
    requires s.on.None? && rows != []
    ensures Matching(it, env, s, rows) != [] && Matching(it, env, s, rows)[0] == env + [Binding(AliasOf(s), rows[0])]
  {
  }

  lemma {:induction false} MatchingExtends(it: Interp, env: Env, s: Source, rows: seq<Row>)
    ensures forall e :: e in Matching(it, env, s, rows) ==> env <= e
  {
    if rows != [] { MatchingExtends(it, env, s, rows[1..]); }
  }

  /** A left join keeps every environment at least once, first things first. */
  lemma LeftJoinKeepsFirst(it: Interp, db: Database, envs: seq<Env>, s: Source)
    requires s.kind.LeftOuter? && envs != []
    ensures ExtendAll(it, db, envs, s) != [] && envs[0] <= ExtendAll(it, db, envs, s)[0]
  {
    MatchingExtends(it, envs[0], s, Lookup(db, s).rows);
    var first := Extend(it, db, envs[0], s);
    assert first != [] && first[0] in first;
  }

  lemma FirstEnv(it: Interp, db: Database, s0: Source, s1: Source)
    requires s0.on.None? && s0.kind.Inner? && s1.kind.LeftOuter?
    ensures var rows, envs := Lookup(db, s0).rows, Envs(it, db, [s0, s1]);
      && (rows == [] ==> envs == [])
      && (rows != [] ==> envs != [] && [Binding(AliasOf(s0), rows[0])] <= envs[0])
  {
    var srcs, rows := [s0, s1], Lookup(db, s0).rows;
    EnvsStep(it, db, srcs, 1);
    EnvsStep(it, db, srcs, 2);
    assert srcs[..0] == [] && srcs[..2] == srcs && Envs(it, db, srcs[..0]) == [[]];
    assert Envs(it, db, srcs[..1]) == Matching(it, [], s0, rows);
    if rows != [] {
      MatchingFirst(it, [], s0, rows);
      LeftJoinKeepsFirst(it, db, Envs(it, db, srcs[..1]), s1);
    }
  }

  /** The answer is the cell `a.x` of the first row of `a`, whatever the other table holds. */
  lemma FirstRowAnswer(
      cfg: Config, cat: Catalog, s: Name, a: Name, b: Name, x: Name, n: Name, it: Interp, db: Database)
    requires Setting(cfg, cat, s, a, b, x, n) && Conforms(db, cat)
    ensures IsIntLiteral(LimitLiteral(1)) && (s, a) in db
    ensures var rows := db[(s, a)].rows;
      && (rows != [] ==> x in rows[0])
      && Answer(it, db, FirstRowQuery(s, a, b, x, n)) == if rows == [] then [] else [[rows[0][x]]]
  {
    var q := FirstRowQuery(s, a, b, x, n);
    var rows, envs := Lookup(db, q.sources[0]).rows, Envs(it, db, q.sources);
    ColumnIsListed(cat, s, a, x);
    Numerals.ValueOfDecimal(1);
    FirstEnv(it, db, q.sources[0], q.sources[1]);
    if rows != [] {
      assert rows[0] in rows;
      FirstCell(it, envs[0], q.items, a, x, rows[0]);
      FirstSelected(it, envs, q);
    }
  }

  lemma FirstCell(it: Interp, env: Env, items: seq<Item>, a: Name, x: Name, row: Row)
    requires Lower(a) == a && Lower(x) == x && items == [Item(Col(Some(a), x), Some(x))] && x in row
    requires env != [] && env[0] == Binding(a, row)
    ensures Project(it, env, items) == [row[x]]
  {
    assert BoundRow(env, a) == Some(row);
  }

  lemma FirstSelected(it: Interp, envs: seq<Env>, q: Query)
    requires envs != [] && q.where.None?
    ensures Select(it, envs, q) != [] && Select(it, envs, q)[0] == Project(it, envs[0], q.items)
  {
  }

  /** For a left join the condition is sufficient only. This accepted query joins on a
      sensitive column, and still its answers never give a sensitive cell away. */
  lemma LeftJoinMayHide(
      cfg: Config, cat: Catalog, s: Name, a: Name, b: Name, x: Name, n: Name, mask: seq<bool>)
    requires Setting(cfg, cat, s, a, b, x, n)
    ensures var q := FirstRowQuery(s, a, b, x, n);
      && WellFormed(q) && Validate(cfg, cat, Normalized(q)).Ok?
      && Validate(cfg, cat, Normalized(q)).value.sql == Normalized(q) && ParseSql(Normalized(q)) == Ok(q)
      && IsIntLiteral(q.limit.value) && Hides(cat, mask, q) && !PublicConditions(cat, q)
  {
    var q := FirstRowQuery(s, a, b, x, n);
    FirstRowIsStored(cfg, cat, s, a, b, x, n);
    FirstRowIsSensitive(cfg, cat, s, a, b, x, n);
    Numerals.ValueOfDecimal(1);
    forall it, db: Database, db': Database | Alike(cat, db, db')
      ensures Answer(it, db, q) == Answer(it, db', q)
    {
      FirstRowAnswer(cfg, cat, s, a, b, x, n, it, db);
      FirstRowAnswer(cfg, cat, s, a, b, x, n, it, db');
      ColumnIsListed(cat, s, a, x);
      var key: (string, string) := (s, a);
      assert SameRows(cat, s, a, db[key].rows, db'[key].rows);
    }
  }

  lemma FirstRowIsSensitive(cfg: Config, cat: Catalog, s: Name, a: Name, b: Name, x: Name, n: Name)
    requires Setting(cfg, cat, s, a, b, x, n)
    ensures !PublicConditions(cat, FirstRowQuery(s, a, b, x, n))
  {
    var q := FirstRowQuery(s, a, b, x, n);
    var c := Col(Some(b), n);
    FirstRowSources(cfg, cat, s, a, b, x, n);
    assert q.sources[..2] == q.sources;
    assert c in ExprColumns(q.sources[1].on.value) && ColumnSensitive(cat, q.sources[..2], c);
    assert SensitiveOn(cat, q.sources, 1);
  }
}
