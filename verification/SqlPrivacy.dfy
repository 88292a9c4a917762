/** What masking hides of a whole database: not the single row, but the answer. */
module SqlPrivacy {
  import opened Wrappers
  import Numerals
  import opened SqlText
  import opened SqlAst
  import opened SqlPolicy
  import opened SqlMeaning

  // ---------------------------------------------------------------- databases that look alike

  predicate SameRow(cat: Catalog, s: string, t: string, a: Row, b: Row) {
    forall c :: c in a && c in b && !SensitiveLookup(cat.columns, s, t, c) ==> a[c] == b[c]
  }

  predicate SameRows(cat: Catalog, s: string, t: string, a: seq<Row>, b: seq<Row>) {
    |a| == |b| && forall i :: 0 <= i < |a| ==> SameRow(cat, s, t, a[i], b[i])
  }

  /** Row by row, the catalogued tables of the two differ in sensitive cells only. */
  ghost predicate SamePublic(cat: Catalog, db: Database, db': Database) {
    forall s, t :: TableListed(cat, s, t) && (s, t) in db && (s, t) in db' ==>
      SameRows(cat, s, t, db[(s, t)].rows, db'[(s, t)].rows)
  }

  predicate PublicCondition(cat: Catalog, srcs: seq<Source>, cond: Option<Expr>) {
    cond.Some? ==> forall c :: c in ExprColumns(cond.value) ==> c.qualifier.Some? && !ColumnSensitive(cat, srcs, c)
  }

  /** A condition reads a sensitive column of one of the first `k` sources. */
  predicate SensitiveAt(cat: Catalog, srcs: seq<Source>, k: nat, cond: Option<Expr>)
    requires k <= |srcs|
  {
    cond.Some? && ExprSensitive(cat, srcs[..k], cond.value)
  }

  predicate SensitiveOn(cat: Catalog, srcs: seq<Source>, i: nat)
    requires i < |srcs|
  {
    SensitiveAt(cat, srcs, i + 1, srcs[i].on)
  }

  predicate SensitiveWhere(cat: Catalog, q: Query) { SensitiveAt(cat, q.sources, |q.sources|, q.where) }

  /** Neither WHERE nor a join condition reads a sensitive column of a source joined by then. */
  predicate PublicConditions(cat: Catalog, q: Query) {
    !SensitiveWhere(cat, q) && forall i :: 0 <= i < |q.sources| ==> !SensitiveOn(cat, q.sources, i)
  }

  // ---------------------------------------------------------------- the joined rows look alike

  predicate AgreeAll(cat: Catalog, srcs: seq<Source>, k: nat, a: seq<Env>, b: seq<Env>) {
    |a| == |b| && forall i :: 0 <= i < |a| ==> |a[i]| == k && AgreeOnPublic(cat, srcs, a[i], b[i])
  }

  lemma BindBoth(cat: Catalog, srcs: seq<Source>, a: Env, b: Env, row: Row, row': Row)
    requires AgreeOnPublic(cat, srcs, a, b) && |a| < |srcs|
    requires row.Keys == row'.Keys == Columns(cat, srcs[|a|])
    requires SameRow(cat, SchemaName(srcs[|a|]), TableName(srcs[|a|]), row, row')
    ensures AgreeOnPublic(
      cat, srcs, a + [Binding(AliasOf(srcs[|a|]), row)], b + [Binding(AliasOf(srcs[|a|]), row')])
  {
    BindNext(cat, srcs, a, row);
    BindNext(cat, srcs, b, row');
    var next := a + [Binding(AliasOf(srcs[|a|]), row)];
    var next' := b + [Binding(AliasOf(srcs[|a|]), row')];
    forall i, c | 0 <= i < |next| && c in next[i].row && !CellSensitive(cat, srcs[i], c)
      ensures next[i].row[c] == next'[i].row[c]
    {
      CellAgrees(cat, srcs, a, b, row, row', i, c);
    }
  }

  lemma CellAgrees(
      cat: Catalog, srcs: seq<Source>, a: Env, b: Env, row: Row, row': Row, i: nat, c: string)
    requires AgreeOnPublic(cat, srcs, a, b) && i <= |a| < |srcs| && !CellSensitive(cat, srcs[i], c)
    requires row.Keys == row'.Keys && SameRow(cat, SchemaName(srcs[|a|]), TableName(srcs[|a|]), row, row')
    requires c in (if i < |a| then a[i].row else row)
    ensures c in (if i < |a| then b[i].row else row')
    ensures (if i < |a| then a[i].row else row)[c] == (if i < |a| then b[i].row else row')[c]
  {
    if i < |a| {
      assert Binds(cat, srcs[i], a[i]) && Binds(cat, srcs[i], b[i]);
    } else {
      assert c in row.Keys;
    }
  }

  lemma HoldsAgrees(it: Interp, cat: Catalog, srcs: seq<Source>, a: Env, b: Env, cond: Option<Expr>)
    requires AgreeOnPublic(cat, srcs, a, b) && PublicCondition(cat, srcs, cond)
    ensures Holds(it, a, cond) == Holds(it, b, cond)
  {
    if cond.Some? { PublicEvalAgrees(it, cat, srcs, a, b, cond.value); }
  }

  lemma AgreePrefix(cat: Catalog, srcs: seq<Source>, n: nat, a: Env, b: Env)
    requires AgreeOnPublic(cat, srcs, a, b) && |a| <= n <= |srcs|
    ensures AgreeOnPublic(cat, srcs[..n], a, b)
  {
    forall i | 0 <= i < |a|
      ensures Binds(cat, srcs[..n][i], a[i]) && Binds(cat, srcs[..n][i], b[i])
    {
      assert Binds(cat, srcs[i], a[i]) && Binds(cat, srcs[i], b[i]);
    }
  }

  lemma PairsConcat<T>(alike: (T, T) -> bool, a: seq<T>, b: seq<T>, a': seq<T>, b': seq<T>)
    requires |a| == |b| && forall i :: 0 <= i < |a| ==> alike(a[i], b[i])
    requires |a'| == |b'| && forall i :: 0 <= i < |a'| ==> alike(a'[i], b'[i])
    ensures forall i :: 0 <= i < |a + a'| ==> alike((a + a')[i], (b + b')[i])
  {
  }

  lemma AgreeConcat(
      cat: Catalog, srcs: seq<Source>, k: nat, a: seq<Env>, b: seq<Env>, a': seq<Env>, b': seq<Env>)
    requires AgreeAll(cat, srcs, k, a, b) && AgreeAll(cat, srcs, k, a', b')
    ensures AgreeAll(cat, srcs, k, a + a', b + b')
  {
    PairsConcat((x: Env, y: Env) => |x| == k && AgreeOnPublic(cat, srcs, x, y), a, b, a', b');
  }

  lemma SameRowsTail(cat: Catalog, s: string, t: string, a: seq<Row>, b: seq<Row>)
    requires SameRows(cat, s, t, a, b) && a != []
    ensures SameRow(cat, s, t, a[0], b[0]) && SameRows(cat, s, t, a[1..], b[1..])
  {
  }

  lemma {:induction false} MatchingAgrees(
      it: Interp, cat: Catalog, srcs: seq<Source>, k: nat, a: Env, b: Env, rows: seq<Row>, rows': seq<Row>)
    requires AgreeOnPublic(cat, srcs, a, b) && |a| == k < |srcs| && PublicCondition(cat, srcs[..k + 1], srcs[k].on)
    requires SameRows(cat, SchemaName(srcs[k]), TableName(srcs[k]), rows, rows')
    requires forall r :: r in rows ==> r.Keys == Columns(cat, srcs[k])
    requires forall r :: r in rows' ==> r.Keys == Columns(cat, srcs[k])
    ensures AgreeAll(cat, srcs, k + 1, Matching(it, a, srcs[k], rows), Matching(it, b, srcs[k], rows'))
  {
    if rows != [] {
      assert rows[0] in rows && rows'[0] in rows';
      BindBoth(cat, srcs, a, b, rows[0], rows'[0]);
      var next := a + [Binding(AliasOf(srcs[k]), rows[0])];
      var next' := b + [Binding(AliasOf(srcs[k]), rows'[0])];
      AgreePrefix(cat, srcs, k + 1, next, next');
      HoldsAgrees(it, cat, srcs[..k + 1], next, next', srcs[k].on);
      SameRowsTail(cat, SchemaName(srcs[k]), TableName(srcs[k]), rows, rows');
      MatchingAgrees(it, cat, srcs, k, a, b, rows[1..], rows'[1..]);
      if Holds(it, next, srcs[k].on) {
        AgreeConcat(
          cat, srcs, k + 1, [next], [next'], Matching(it, a, srcs[k], rows[1..]), Matching(it, b, srcs[k], rows'[1..]));
      }
    }
  }

  /** The two databases give a source rows of one shape that look alike. */
  predicate LookupsAgree(cat: Catalog, db: Database, db': Database, s: Source) {
    && Lookup(db, s).columns == Lookup(db', s).columns == Columns(cat, s)
    && SameRows(cat, SchemaName(s), TableName(s), Lookup(db, s).rows, Lookup(db', s).rows)
    && (forall r :: r in Lookup(db, s).rows ==> r.Keys == Columns(cat, s))
    && (forall r :: r in Lookup(db', s).rows ==> r.Keys == Columns(cat, s))
  }

  lemma ListedLookupsAgree(cat: Catalog, db: Database, db': Database, s: Source)
    requires Conforms(db, cat) && Conforms(db', cat) && SamePublic(cat, db, db') && SourceListed(cat, s)
    ensures LookupsAgree(cat, db, db', s)
  {
    LookupShape(cat, db, s);
    LookupShape(cat, db', s);
    assert TableListed(cat, SchemaName(s), TableName(s));
  }

  lemma ExtendAgrees(
      it: Interp, cat: Catalog, db: Database, db': Database, srcs: seq<Source>, k: nat, a: Env, b: Env)
    requires AgreeOnPublic(cat, srcs, a, b) && |a| == k < |srcs| && PublicCondition(cat, srcs[..k + 1], srcs[k].on)
    requires LookupsAgree(cat, db, db', srcs[k])
    ensures AgreeAll(cat, srcs, k + 1, Extend(it, db, a, srcs[k]), Extend(it, db', b, srcs[k]))
  {
    MatchingAgrees(it, cat, srcs, k, a, b, Lookup(db, srcs[k]).rows, Lookup(db', srcs[k]).rows);
    var nulls := NullRow(Columns(cat, srcs[k]));
    BindBoth(cat, srcs, a, b, nulls, nulls);
  }

  lemma {:induction false} ExtendAllAgrees(
      it: Interp, cat: Catalog, db: Database, db': Database, srcs: seq<Source>, k: nat, a: seq<Env>, b: seq<Env>)
    requires AgreeAll(cat, srcs, k, a, b) && k < |srcs| && PublicCondition(cat, srcs[..k + 1], srcs[k].on)
    requires LookupsAgree(cat, db, db', srcs[k])
    ensures AgreeAll(cat, srcs, k + 1, ExtendAll(it, db, a, srcs[k]), ExtendAll(it, db', b, srcs[k]))
  {
    if a != [] {
      assert AgreeAll(cat, srcs, k, a[1..], b[1..]);
      ExtendAgrees(it, cat, db, db', srcs, k, a[0], b[0]);
      ExtendAllAgrees(it, cat, db, db', srcs, k, a[1..], b[1..]);
      AgreeConcat(
        cat, srcs, k + 1, Extend(it, db, a[0], srcs[k]), Extend(it, db', b[0], srcs[k]),
        ExtendAll(it, db, a[1..], srcs[k]), ExtendAll(it, db', b[1..], srcs[k]));
    }
  }

  lemma {:induction false} EnvsAgree(
      it: Interp, cat: Catalog, db: Database, db': Database, srcs: seq<Source>, k: nat)
    requires Conforms(db, cat) && Conforms(db', cat) && SamePublic(cat, db, db') && Listed(cat, srcs)
    requires k <= |srcs| && forall i :: 0 <= i < |srcs| ==> PublicCondition(cat, srcs[..i + 1], srcs[i].on)
    ensures AgreeAll(cat, srcs, k, Envs(it, db, srcs[..k]), Envs(it, db', srcs[..k]))
  {
    if k == 0 {
      assert Envs(it, db, srcs[..0]) == [[]] && Envs(it, db', srcs[..0]) == [[]];
    } else {
      EnvsAgree(it, cat, db, db', srcs, k - 1);
      assert SourceListed(cat, srcs[k - 1]) && PublicCondition(cat, srcs[..k], srcs[k - 1].on);
      EnvsAgreeStep(it, cat, db, db', srcs, k);
    }
  }

  lemma EnvsAgreeStep(it: Interp, cat: Catalog, db: Database, db': Database, srcs: seq<Source>, k: nat)
    requires Conforms(db, cat) && Conforms(db', cat) && SamePublic(cat, db, db')
    requires 0 < k <= |srcs| && SourceListed(cat, srcs[k - 1]) && PublicCondition(cat, srcs[..k], srcs[k - 1].on)
    requires AgreeAll(cat, srcs, k - 1, Envs(it, db, srcs[..k - 1]), Envs(it, db', srcs[..k - 1]))
    ensures AgreeAll(cat, srcs, k, Envs(it, db, srcs[..k]), Envs(it, db', srcs[..k]))
  {
    EnvsStep(it, db, srcs, k);
    EnvsStep(it, db', srcs, k);
    ListedLookupsAgree(cat, db, db', srcs[k - 1]);
    ExtendAllAgrees(it, cat, db, db', srcs, k - 1, Envs(it, db, srcs[..k - 1]), Envs(it, db', srcs[..k - 1]));
  }

  // ---------------------------------------------------------------- the masked answers are equal

  /** Every row of a result, masked by the lineage vector. */
  function MaskAll(sensitive: seq<bool>, rows: seq<seq<Value>>): (r: seq<Option<seq<Value>>>)
    ensures |r| == |rows| && forall i :: 0 <= i < |rows| ==> r[i] == MaskRow(sensitive, rows[i])
  {
    seq(|rows|, i requires 0 <= i < |rows| => MaskRow(sensitive, rows[i]))
  }

  function ParsedQuery(sql: string): Query
    requires ParseSql(sql).Ok?
  {
    ParseSql(sql).value
  }

  /** Two environments give the same masked row, of the right width. */
  predicate MaskedAlike(it: Interp, mask: seq<bool>, q: Query, a: Env, b: Env) {
    && Holds(it, a, q.where) == Holds(it, b, q.where)
    && MaskRow(mask, Project(it, a, q.items)) == MaskRow(mask, Project(it, b, q.items)) != None
  }

  lemma {:induction false} SelectAgrees(it: Interp, mask: seq<bool>, q: Query, a: seq<Env>, b: seq<Env>)
    requires |a| == |b| && forall i :: 0 <= i < |a| ==> MaskedAlike(it, mask, q, a[i], b[i])
    ensures MaskAll(mask, Select(it, a, q)) == MaskAll(mask, Select(it, b, q))
    ensures None !in MaskAll(mask, Select(it, a, q))
  {
    if a != [] {
      assert MaskedAlike(it, mask, q, a[0], b[0]);
      forall i | 0 <= i < |a[1..]|
        ensures MaskedAlike(it, mask, q, a[1..][i], b[1..][i])
      {
        assert MaskedAlike(it, mask, q, a[i + 1], b[i + 1]);
      }
      SelectAgrees(it, mask, q, a[1..], b[1..]);
      if Holds(it, a[0], q.where) {
        MaskFirst(mask, Project(it, a[0], q.items), Select(it, a[1..], q));
        MaskFirst(mask, Project(it, b[0], q.items), Select(it, b[1..], q));
      }
    }
  }

  lemma MaskFirst(mask: seq<bool>, row: seq<Value>, rows: seq<seq<Value>>)
    ensures MaskAll(mask, [row] + rows) == [MaskRow(mask, row)] + MaskAll(mask, rows)
  {
  }

  /** The masked rows of two lists of environments that look alike, row by row. */
  lemma SelectedRowsAgree(cfg: Config, cat: Catalog, sql: string, it: Interp, a: seq<Env>, b: seq<Env>)
    requires Validate(cfg, cat, sql).Ok? && PublicCondition(cat, ParsedQuery(sql).sources, ParsedQuery(sql).where)
    requires AgreeAll(cat, ParsedQuery(sql).sources, |ParsedQuery(sql).sources|, a, b)
    ensures var q, mask := ParsedQuery(sql), Validate(cfg, cat, sql).value.projectionSensitive;
            && MaskAll(mask, Select(it, a, q)) == MaskAll(mask, Select(it, b, q))
            && None !in MaskAll(mask, Select(it, a, q))
  {
    var q, mask := ParsedQuery(sql), Validate(cfg, cat, sql).value.projectionSensitive;
    forall i | 0 <= i < |a|
      ensures MaskedAlike(it, mask, q, a[i], b[i])
    {
      HoldsAgrees(it, cat, q.sources, a[i], b[i], q.where);
      MaskingIsSound(cfg, cat, sql, it, a[i], b[i]);
    }
    SelectAgrees(it, mask, q, a, b);
  }

  /** A query over listed tables with distinct aliases, whose conditions are qualified. */
  predicate Resolved(cat: Catalog, q: Query) {
    && DistinctAliases(q.sources) && Listed(cat, q.sources) && IsQualified(cat, q.sources, q.where)
    && forall i :: 0 <= i < |q.sources| ==> IsQualified(cat, q.sources, q.sources[i].on)
  }

  predicate IsQualified(cat: Catalog, srcs: seq<Source>, cond: Option<Expr>) {
    QualifyOption(cat, srcs, cond) == Some(cond)
  }

  /** Every column of such a query is qualified, so its conditions are public when they read
      no sensitive column. */
  lemma ResolvedConditions(cat: Catalog, q: Query)
    requires Resolved(cat, q) && PublicConditions(cat, q)
    ensures PublicCondition(cat, q.sources, q.where)
    ensures forall i :: 0 <= i < |q.sources| ==> PublicCondition(cat, q.sources[..i + 1], q.sources[i].on)
  {
    ResolvedWhere(cat, q);
    forall i | 0 <= i < |q.sources|
      ensures PublicCondition(cat, q.sources[..i + 1], q.sources[i].on)
    {
      ResolvedOn(cat, q, i);
    }
  }

  lemma ResolvedWhere(cat: Catalog, q: Query)
    requires Resolved(cat, q) && !SensitiveWhere(cat, q)
    ensures PublicCondition(cat, q.sources, q.where)
  {
    WholePrefix(q.sources);
    ConditionIsPublic(cat, q.sources, |q.sources|, q.where);
  }

  lemma ResolvedOn(cat: Catalog, q: Query, i: nat)
    requires Resolved(cat, q) && i < |q.sources| && !SensitiveOn(cat, q.sources, i)
    ensures PublicCondition(cat, q.sources[..i + 1], q.sources[i].on)
  {
    assert IsQualified(cat, q.sources, q.sources[i].on);
    ConditionIsPublic(cat, q.sources, i + 1, q.sources[i].on);
  }

  /** The stored form of an accepted query is resolved. */
  lemma StoredIsResolved(cfg: Config, cat: Catalog, q: Query)
    requires CheckQuery(cfg, cat, q).Ok? && CheckQuery(cfg, cat, q).value.query == q
    ensures Resolved(cat, q)
  {
    CheckParts(cfg, cat, q);
    TablesListed(cfg, cat, q.sources);
    QualifyParts(cat, q);
    OnsQualify(cat, q.sources, Qualify(cat, q).value.sources);
  }

  lemma OnsQualify(cat: Catalog, srcs: seq<Source>, stored: seq<Source>)
    requires QualifySources(cat, srcs, srcs) == Some(stored) && stored == srcs
    ensures forall i :: 0 <= i < |srcs| ==> IsQualified(cat, srcs, srcs[i].on)
  {
    forall i | 0 <= i < |srcs|
      ensures IsQualified(cat, srcs, srcs[i].on)
    {
      assert Some(stored[i]) == QualifySource(cat, srcs, srcs[i]);
    }
  }

  lemma ConditionIsPublic(cat: Catalog, srcs: seq<Source>, k: nat, cond: Option<Expr>)
    requires k <= |srcs| && DistinctAliases(srcs) && IsQualified(cat, srcs, cond)
    requires !SensitiveAt(cat, srcs, k, cond)
    ensures PublicCondition(cat, srcs[..k], cond)
  {
    if cond.Some? {
      QualifiedColumnsCheck(cat, srcs, srcs, cond.value);
      forall c | c in ExprColumns(cond.value)
        ensures c.qualifier.Some? && !ColumnSensitive(cat, srcs[..k], c)
      {
        assert CheckColumn(cat, srcs, c).Ok?;
      }
    }
  }

  /** When the stored text of an accepted query reads no sensitive column in WHERE or ON, the
      masked answers on two databases that differ in sensitive cells only are the same, row
      by row. */
  lemma MaskedAnswersAgree(cfg: Config, cat: Catalog, sql: string, it: Interp, db: Database, db': Database)
    requires Validate(cfg, cat, sql).Ok? && ParseSql(Validate(cfg, cat, sql).value.sql).Ok?
    requires Conforms(db, cat) && Conforms(db', cat) && SamePublic(cat, db, db')
    requires PublicConditions(cat, ParsedQuery(Validate(cfg, cat, sql).value.sql))
    ensures var v := Validate(cfg, cat, sql).value;
            var stored := ParsedQuery(v.sql);
            && stored.limit.Some? && IsIntLiteral(stored.limit.value)
            && MaskAll(v.projectionSensitive, Answer(it, db, stored)) ==
               MaskAll(v.projectionSensitive, Answer(it, db', stored))
            && None !in MaskAll(v.projectionSensitive, Answer(it, db, stored))
  {
    var v := Validate(cfg, cat, sql).value;
    StoredIsChecked(cfg, cat, sql);
    RevalidationIsFixpoint(cfg, cat, sql);
    var stored := ParsedQuery(v.sql);
    StoredIsResolved(cfg, cat, stored);
    ResolvedConditions(cat, stored);
    EnvsAgree(it, cat, db, db', stored.sources, |stored.sources|);
    WholePrefix(stored.sources);
    SelectedRowsAgree(cfg, cat, v.sql, it, Envs(it, db, stored.sources), Envs(it, db', stored.sources));
    MaskTake(v.projectionSensitive, v.rowLimit, Unlimited(it, db, stored));
    MaskTake(v.projectionSensitive, v.rowLimit, Unlimited(it, db', stored));
  }

  /** The stored text is its own checked form, with its row limit as a literal. */
  lemma StoredIsChecked(cfg: Config, cat: Catalog, sql: string)
    requires Validate(cfg, cat, sql).Ok?
    ensures var v := Validate(cfg, cat, sql).value;
            && ParseSql(v.sql).Ok?
            && var stored := ParsedQuery(v.sql);
            && CheckQuery(cfg, cat, stored).Ok? && CheckQuery(cfg, cat, stored).value.query == stored
            && stored.limit == Some(LimitLiteral(v.rowLimit)) && IsIntLiteral(stored.limit.value)
            && Numerals.Value(stored.limit.value.n) == v.rowLimit
  {
    ParsedWellFormed(sql);
    var q := ParsedQuery(sql);
    CheckedWellFormed(cfg, cat, q);
    CheckParts(cfg, cat, q);
    CheckQueryStable(cfg, cat, q);
    NormalizedParses(CheckQuery(cfg, cat, q).value.query);
    Numerals.ValueOfDecimal(Validate(cfg, cat, sql).value.rowLimit);
  }

  lemma MaskTake(mask: seq<bool>, n: nat, rows: seq<seq<Value>>)
    ensures MaskAll(mask, Take(n, rows)) == Take(n, MaskAll(mask, rows))
  {
  }
}
