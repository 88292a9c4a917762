/** When masking is not enough: which filters and joins give a sensitive cell away, shown by
    databases that differ in nothing else and whose masked answers still differ. */
module SqlExposure {
  import opened Wrappers
  import Numerals
  import opened SqlText
  import opened SqlAst
  import opened SqlPolicy
  import opened SqlMeaning
  import opened SqlPrivacy

  // ---------------------------------------------------------------- the witness databases

  /** One column of one catalogued table. */
  datatype Cell = Cell(schema: string, table: string, column: string)

  function FullRow(columns: set<string>): Row { map c | c in columns :: Truth(true) }

  function NulledRow(columns: set<string>, column: string): Row {
    map c | c in columns :: if c == column then Null else Truth(true)
  }

  /** The one row of a table; in the table of `hit`, that column is Null. */
  function RowOf(cat: Catalog, s: string, t: string, hit: Option<Cell>): Row {
    if hit.Some? && hit.value.schema == s && hit.value.table == t
    then NulledRow(TableColumns(cat, s, t), hit.value.column) else FullRow(TableColumns(cat, s, t))
  }

  function TableOf(cat: Catalog, s: string, t: string, twice: Option<(string, string)>, hit: Option<Cell>): Table {
    var row := RowOf(cat, s, t, hit);
    Table(TableColumns(cat, s, t), if twice == Some((s, t)) then [row, row] else [row])
  }

  function TableKeys(cat: Catalog): set<(string, string)> {
    set c | c in cat.columns :: (Lower(c.schema), Lower(c.table))
  }

  /** Every catalogued table with one row, or with that row twice. */
  function Witness(cat: Catalog, twice: Option<(string, string)>, hit: Option<Cell>): Database {
    map k | k in TableKeys(cat) :: TableOf(cat, k.0, k.1, twice, hit)
  }

  lemma ListedIsKey(cat: Catalog, s: string, t: string)
    ensures TableListed(cat, s, t) <==> (s, t) in TableKeys(cat)
  {
    if TableListed(cat, s, t) {
      var c :| c in cat.columns && Names(c, s, t);
      assert (Lower(c.schema), Lower(c.table)) == (s, t);
    }
    if (s, t) in TableKeys(cat) {
      var c :| c in cat.columns && (Lower(c.schema), Lower(c.table)) == (s, t);
      assert Names(c, s, t);
    }
  }

  lemma WitnessConforms(cat: Catalog, twice: Option<(string, string)>, hit: Option<Cell>)
    ensures Conforms(Witness(cat, twice, hit), cat)
  {
    var db := Witness(cat, twice, hit);
    forall s, t | TableListed(cat, s, t)
      ensures (s, t) in db && db[(s, t)] == TableOf(cat, s, t, twice, hit)
      ensures forall row :: row in db[(s, t)].rows ==> row.Keys == TableColumns(cat, s, t)
    {
      ListedIsKey(cat, s, t);
      assert RowOf(cat, s, t, hit).Keys == TableColumns(cat, s, t);
    }
  }

  lemma RowsLookAlike(cat: Catalog, s: string, t: string, hit: Cell)
    requires SensitiveLookup(cat.columns, hit.schema, hit.table, hit.column)
    ensures SameRow(cat, s, t, RowOf(cat, s, t, None), RowOf(cat, s, t, Some(hit)))
  {
  }

  lemma TablesLookAlike(cat: Catalog, s: string, t: string, twice: Option<(string, string)>, hit: Cell)
    requires SensitiveLookup(cat.columns, hit.schema, hit.table, hit.column)
    ensures SameRows(cat, s, t, TableOf(cat, s, t, twice, None).rows, TableOf(cat, s, t, twice, Some(hit)).rows)
  {
    RowsLookAlike(cat, s, t, hit);
  }

  lemma WitnessAt(cat: Catalog, s: string, t: string, twice: Option<(string, string)>, hit: Option<Cell>)
    requires TableListed(cat, s, t)
    ensures (s, t) in Witness(cat, twice, hit) && Witness(cat, twice, hit)[(s, t)] == TableOf(cat, s, t, twice, hit)
  {
    ListedIsKey(cat, s, t);
  }

  lemma WitnessesLookAlike(cat: Catalog, twice: Option<(string, string)>, hit: Cell)
    requires SensitiveLookup(cat.columns, hit.schema, hit.table, hit.column)
    ensures SamePublic(cat, Witness(cat, twice, None), Witness(cat, twice, Some(hit)))
  {
    var db, db' := Witness(cat, twice, None), Witness(cat, twice, Some(hit));
    forall s, t | TableListed(cat, s, t)
      ensures (s, t) in db && (s, t) in db' && SameRows(cat, s, t, db[(s, t)].rows, db'[(s, t)].rows)
    {
      WitnessAt(cat, s, t, twice, None);
      WitnessAt(cat, s, t, twice, Some(hit));
      TablesLookAlike(cat, s, t, twice, hit);
    }
  }

  lemma WitnessLookup(cat: Catalog, twice: Option<(string, string)>, hit: Option<Cell>, s: Source)
    requires SourceListed(cat, s)
    ensures Lookup(Witness(cat, twice, hit), s) == TableOf(cat, SchemaName(s), TableName(s), twice, hit)
  {
    WitnessAt(cat, SchemaName(s), TableName(s), twice, hit);
  }

  // ---------------------------------------------------------------- conditions that are strict in Null

  /** Literals are not Null, an operation is Null exactly when an operand is, and a condition
      holds exactly when it is not Null. */
  function Strict(): Interp {
    Interp(n => Truth(true), q => Truth(true),
           (f, vs) => if Null in vs then Null else Truth(true),
           (op, x, y) => if x == Null || y == Null then Null else Truth(true),
           v => v != Null)
  }

  predicate FullCells(row: Row) { forall c :: c in row ==> row[c] != Null }

  predicate Full(env: Env) { forall i :: 0 <= i < |env| ==> FullCells(env[i].row) }

  lemma {:induction false} BoundIsFull(env: Env, alias: string)
    requires Full(env)
    ensures BoundRow(env, alias).Some? ==> FullCells(BoundRow(env, alias).value)
  {
    if env != [] && env[0].alias != alias { BoundIsFull(env[1..], alias); }
  }

  lemma {:induction false} HoldersAreFull(env: Env, column: string)
    requires Full(env)
    ensures forall row :: row in Holders(env, column) ==> FullCells(row)
  {
    if env != [] { HoldersAreFull(env[1..], column); }
  }

  /** On rows without Null nothing evaluates to Null. */
  lemma {:induction false} FullEval(env: Env, e: Expr)
    requires Full(env)
    ensures Eval(Strict(), env, e) != Null
  {
    match e
    case Col(Some(a), n) => BoundIsFull(env, Lower(a));
    case Col(None, n) => HoldersAreFull(env, Lower(n));
    case Call(fn, args) => FullEvalAll(env, args);
    case Bin(op, l, r) =>
      FullEval(env, l);
      FullEval(env, r);
    case _ =>
  }

  lemma {:induction false} FullEvalAll(env: Env, es: seq<Expr>)
    requires Full(env)
    ensures Null !in EvalAll(Strict(), env, es)
  {
    if es != [] {
      FullEval(env, es[0]);
      FullEvalAll(env, es[1..]);
    }
  }

  lemma FullHolds(env: Env, cond: Option<Expr>)
    requires Full(env)
    ensures Holds(Strict(), env, cond)
  {
    if cond.Some? { FullEval(env, cond.value); }
  }

  /** A Null column makes every expression that reads it Null. */
  lemma {:induction false} NullSpreads(env: Env, e: Expr, c: Expr)
    requires c in ExprColumns(e) && Eval(Strict(), env, c) == Null
    ensures Eval(Strict(), env, e) == Null
  {
    match e
    case Call(fn, args) => NullSpreadsAll(env, args, c);
    case Bin(op, l, r) =>
      if c in ExprColumns(l) { NullSpreads(env, l, c); } else { NullSpreads(env, r, c); }
    case _ =>
  }

  lemma {:induction false} NullSpreadsAll(env: Env, es: seq<Expr>, c: Expr)
    requires c in ExprsColumns(es) && Eval(Strict(), env, c) == Null
    ensures Null in EvalAll(Strict(), env, es)
  {
    if c in ExprColumns(es[0]) { NullSpreads(env, es[0], c); } else { NullSpreadsAll(env, es[1..], c); }
  }

  // ---------------------------------------------------------------- nothing is Null: every row is kept

  predicate AllFull(envs: seq<Env>) { forall e :: e in envs ==> Full(e) }

  lemma {:induction false} MatchingKeeps(env: Env, s: Source, rows: seq<Row>)
    requires Full(env) && forall row :: row in rows ==> FullCells(row)
    ensures |Matching(Strict(), env, s, rows)| == |rows| && AllFull(Matching(Strict(), env, s, rows))
  {
    if rows != [] {
      assert rows[0] in rows;
      FullHolds(env + [Binding(AliasOf(s), rows[0])], s.on);
      MatchingKeeps(env, s, rows[1..]);
    }
  }

  /** A join keeps every environment, once for each row of the joined table. */
  lemma {:induction false} ExtendAllKeeps(db: Database, envs: seq<Env>, s: Source)
    requires AllFull(envs) && Lookup(db, s).rows != []
    requires forall row :: row in Lookup(db, s).rows ==> FullCells(row)
    ensures AllFull(ExtendAll(Strict(), db, envs, s)) && |ExtendAll(Strict(), db, envs, s)| >= |envs|
    ensures envs != [] ==> |ExtendAll(Strict(), db, envs, s)| >= |Lookup(db, s).rows|
  {
    if envs != [] {
      assert envs[0] in envs;
      MatchingKeeps(envs[0], s, Lookup(db, s).rows);
      ExtendAllKeeps(db, envs[1..], s);
    }
  }

  predicate Joins(srcs: seq<Source>, k: nat, table: (string, string))
    requires k <= |srcs|
  {
    exists i :: 0 <= i < k && (SchemaName(srcs[i]), TableName(srcs[i])) == table
  }

  lemma {:induction false} EnvsKeep(cat: Catalog, srcs: seq<Source>, k: nat, twice: Option<(string, string)>)
    requires k <= |srcs| && Listed(cat, srcs)
    ensures var envs := Envs(Strict(), Witness(cat, twice, None), srcs[..k]);
      && AllFull(envs) && |envs| >= 1 && (twice.Some? && Joins(srcs, k, twice.value) ==> |envs| >= 2)
  {
    var db := Witness(cat, twice, None);
    if k == 0 {
      assert Envs(Strict(), db, srcs[..0]) == [[]];
    } else {
      EnvsKeep(cat, srcs, k - 1, twice);
      EnvsStep(Strict(), db, srcs, k);
      JoinKeeps(cat, Envs(Strict(), db, srcs[..k - 1]), srcs[k - 1], twice);
      if twice.Some? && Joins(srcs, k, twice.value) { LastJoin(srcs, k, twice); }
    }
  }

  lemma JoinKeeps(cat: Catalog, envs: seq<Env>, s: Source, twice: Option<(string, string)>)
    requires AllFull(envs) && |envs| >= 1 && SourceListed(cat, s)
    ensures var more := ExtendAll(Strict(), Witness(cat, twice, None), envs, s);
      && AllFull(more) && |more| >= |envs| && (twice == Some((SchemaName(s), TableName(s))) ==> |more| >= 2)
  {
    WitnessLookup(cat, twice, None, s);
    ExtendAllKeeps(Witness(cat, twice, None), envs, s);
  }

  lemma LastJoin(srcs: seq<Source>, k: nat, twice: Option<(string, string)>)
    requires 0 < k <= |srcs| && twice.Some? && Joins(srcs, k, twice.value)
    ensures Joins(srcs, k - 1, twice.value) || twice == Some((SchemaName(srcs[k - 1]), TableName(srcs[k - 1])))
  {
  }

  lemma {:induction false} SelectKeeps(envs: seq<Env>, q: Query)
    requires AllFull(envs)
    ensures |Select(Strict(), envs, q)| == |envs|
  {
    if envs != [] {
      assert envs[0] in envs;
      FullHolds(envs[0], q.where);
      SelectKeeps(envs[1..], q);
    }
  }

  lemma FullAnswers(cat: Catalog, q: Query, twice: Option<(string, string)>)
    requires Listed(cat, q.sources)
    ensures var rows := Unlimited(Strict(), Witness(cat, twice, None), q);
      |rows| >= 1 && (twice.Some? && Joins(q.sources, |q.sources|, twice.value) ==> |rows| >= 2)
  {
    EnvsKeep(cat, q.sources, |q.sources|, twice);
    WholePrefix(q.sources);
    SelectKeeps(Envs(Strict(), Witness(cat, twice, None), q.sources), q);
  }

  // ---------------------------------------------------------------- one column is Null

  predicate IsTableOf(s: Source, hit: Cell) { SchemaName(s) == hit.schema && TableName(s) == hit.table }

  predicate NulledAt(s: Source, b: Binding, hit: Cell) {
    b.alias == AliasOf(s) && (IsTableOf(s, hit) ==> hit.column in b.row && b.row[hit.column] == Null)
  }

  /** The environment binds the first sources, and wherever it binds the table of the cell,
      the cell is Null. */
  predicate Nulled(srcs: seq<Source>, env: Env, hit: Cell) {
    |env| <= |srcs| && forall i :: 0 <= i < |env| ==> NulledAt(srcs[i], env[i], hit)
  }

  predicate AllNulled(srcs: seq<Source>, k: nat, envs: seq<Env>, hit: Cell) {
    forall e :: e in envs ==> Nulled(srcs, e, hit) && |e| == k
  }

  /** The expression reads the cell through one of the sources. */
  predicate Reads(srcs: seq<Source>, c: Expr, hit: Cell)
    requires c.Col?
  {
    && c.qualifier.Some? && FindSource(srcs, Lower(c.qualifier.value)).Some?
    && IsTableOf(FindSource(srcs, Lower(c.qualifier.value)).value, hit) && Lower(c.name) == hit.column
  }

  lemma {:induction false} NulledBound(srcs: seq<Source>, env: Env, alias: string, hit: Cell)
    requires Nulled(srcs, env, hit) && |env| == |srcs|
    requires FindSource(srcs, alias).Some? && IsTableOf(FindSource(srcs, alias).value, hit)
    ensures BoundRow(env, alias).Some?
    ensures hit.column in BoundRow(env, alias).value && BoundRow(env, alias).value[hit.column] == Null
  {
    assert NulledAt(srcs[0], env[0], hit);
    if AliasOf(srcs[0]) != alias {
      forall i | 0 <= i < |env[1..]|
        ensures NulledAt(srcs[1..][i], env[1..][i], hit)
      {
        assert NulledAt(srcs[i + 1], env[i + 1], hit);
      }
      NulledBound(srcs[1..], env[1..], alias, hit);
    }
  }

  /** A condition that reads the cell does not hold. */
  lemma NulledFails(srcs: seq<Source>, env: Env, cond: Expr, c: Expr, hit: Cell)
    requires Nulled(srcs, env, hit) && |env| == |srcs| && c in ExprColumns(cond) && Reads(srcs, c, hit)
    ensures !Holds(Strict(), env, Some(cond))
  {
    NulledBound(srcs, env, Lower(c.qualifier.value), hit);
    NullSpreads(env, cond, c);
  }

  lemma NulledNext(srcs: seq<Source>, env: Env, row: Row, hit: Cell)
    requires Nulled(srcs, env, hit) && |env| < |srcs| && NulledAt(srcs[|env|], Binding(AliasOf(srcs[|env|]), row), hit)
    ensures Nulled(srcs, env + [Binding(AliasOf(srcs[|env|]), row)], hit)
  {
    NulledAppend(srcs, env, Binding(AliasOf(srcs[|env|]), row), hit);
  }

  lemma NulledAppend(srcs: seq<Source>, env: Env, b: Binding, hit: Cell)
    requires Nulled(srcs, env, hit) && |env| < |srcs| && NulledAt(srcs[|env|], b, hit)
    ensures Nulled(srcs, env + [b], hit)
  {
    forall i | 0 <= i < |env + [b]|
      ensures NulledAt(srcs[i], (env + [b])[i], hit)
    {
      if i < |env| {
        assert (env + [b])[i] == env[i];
        assert NulledAt(srcs[i], env[i], hit);
      }
    }
  }

  lemma {:induction false} MatchingNulled(srcs: seq<Source>, env: Env, rows: seq<Row>, hit: Cell)
    requires Nulled(srcs, env, hit) && |env| < |srcs|
    requires forall row :: row in rows ==> NulledAt(srcs[|env|], Binding(AliasOf(srcs[|env|]), row), hit)
    ensures AllNulled(srcs, |env| + 1, Matching(Strict(), env, srcs[|env|], rows), hit)
    ensures |Matching(Strict(), env, srcs[|env|], rows)| <= |rows|
  {
    if rows != [] {
      assert rows[0] in rows;
      NulledNext(srcs, env, rows[0], hit);
      MatchingNulled(srcs, env, rows[1..], hit);
    }
  }

  /** What the hidden cell's database gives a source. */
  lemma NulledRows(cat: Catalog, twice: Option<(string, string)>, hit: Cell, s: Source)
    requires SourceListed(cat, s) && hit.column in TableColumns(cat, hit.schema, hit.table)
    ensures var found := Lookup(Witness(cat, twice, Some(hit)), s);
      && (forall row :: row in found.rows ==> NulledAt(s, Binding(AliasOf(s), row), hit))
      && NulledAt(s, Binding(AliasOf(s), NullRow(found.columns)), hit)
      && |found.rows| == if twice == Some((SchemaName(s), TableName(s))) then 2 else 1
  {
    WitnessLookup(cat, twice, Some(hit), s);
  }

  lemma ExtendNulled(cat: Catalog, srcs: seq<Source>, env: Env, twice: Option<(string, string)>, hit: Cell)
    requires Nulled(srcs, env, hit) && |env| < |srcs| && Listed(cat, srcs)
    requires hit.column in TableColumns(cat, hit.schema, hit.table)
    ensures var s, more := srcs[|env|], Extend(Strict(), Witness(cat, twice, Some(hit)), env, srcs[|env|]);
      && AllNulled(srcs, |env| + 1, more, hit)
      && (twice != Some((SchemaName(s), TableName(s))) ==> |more| <= 1)
  {
    var s := srcs[|env|];
    var found := Lookup(Witness(cat, twice, Some(hit)), s);
    NulledRows(cat, twice, hit, s);
    MatchingNulled(srcs, env, found.rows, hit);
    NulledNext(srcs, env, NullRow(found.columns), hit);
  }

  lemma AllNulledTail(srcs: seq<Source>, k: nat, envs: seq<Env>, hit: Cell)
    requires AllNulled(srcs, k, envs, hit) && envs != []
    ensures AllNulled(srcs, k, envs[1..], hit)
  {
  }

  lemma {:induction false} ExtendAllNulled(
      cat: Catalog, srcs: seq<Source>, k: nat, envs: seq<Env>, twice: Option<(string, string)>, hit: Cell)
    requires AllNulled(srcs, k, envs, hit) && k < |srcs| && Listed(cat, srcs)
    requires hit.column in TableColumns(cat, hit.schema, hit.table)
    ensures var more := ExtendAll(Strict(), Witness(cat, twice, Some(hit)), envs, srcs[k]);
      && AllNulled(srcs, k + 1, more, hit)
      && (twice != Some((SchemaName(srcs[k]), TableName(srcs[k]))) ==> |more| <= |envs|)
  {
    if envs != [] {
      assert envs[0] in envs;
      ExtendNulled(cat, srcs, envs[0], twice, hit);
      AllNulledTail(srcs, k, envs, hit);
      ExtendAllNulled(cat, srcs, k, envs[1..], twice, hit);
    }
  }

  lemma {:induction false} EnvsNulled(
      cat: Catalog, srcs: seq<Source>, k: nat, twice: Option<(string, string)>, hit: Cell)
    requires k <= |srcs| && Listed(cat, srcs) && hit.column in TableColumns(cat, hit.schema, hit.table)
    ensures AllNulled(srcs, k, Envs(Strict(), Witness(cat, twice, Some(hit)), srcs[..k]), hit)
  {
    var db := Witness(cat, twice, Some(hit));
    if k == 0 {
      assert Envs(Strict(), db, srcs[..0]) == [[]];
    } else {
      EnvsNulled(cat, srcs, k - 1, twice, hit);
      EnvsStep(Strict(), db, srcs, k);
      ExtendAllNulled(cat, srcs, k - 1, Envs(Strict(), db, srcs[..k - 1]), twice, hit);
    }
  }

  // ---------------------------------------------------------------- a sensitive WHERE drops every row

  lemma {:induction false} SelectDrops(envs: seq<Env>, q: Query, c: Expr, hit: Cell)
    requires AllNulled(q.sources, |q.sources|, envs, hit)
    requires q.where.Some? && c in ExprColumns(q.where.value) && Reads(q.sources, c, hit)
    ensures Select(Strict(), envs, q) == []
  {
    if envs != [] {
      assert envs[0] in envs;
      NulledFails(q.sources, envs[0], q.where.value, c, hit);
      SelectDrops(envs[1..], q, c, hit);
    }
  }

  lemma WhereDrops(cat: Catalog, q: Query, c: Expr, hit: Cell)
    requires Listed(cat, q.sources) && hit.column in TableColumns(cat, hit.schema, hit.table)
    requires q.where.Some? && c in ExprColumns(q.where.value) && Reads(q.sources, c, hit)
    ensures Unlimited(Strict(), Witness(cat, None, Some(hit)), q) == []
  {
    EnvsNulled(cat, q.sources, |q.sources|, None, hit);
    WholePrefix(q.sources);
    SelectDrops(Envs(Strict(), Witness(cat, None, Some(hit)), q.sources), q, c, hit);
  }

  // ---------------------------------------------------------------- a sensitive ON matches nothing

  lemma {:induction false} MatchesNothing(srcs: seq<Source>, env: Env, rows: seq<Row>, c: Expr, hit: Cell)
    requires Nulled(srcs, env, hit) && |env| < |srcs|
    requires forall row :: row in rows ==> NulledAt(srcs[|env|], Binding(AliasOf(srcs[|env|]), row), hit)
    requires srcs[|env|].on.Some? && c in ExprColumns(srcs[|env|].on.value) && Reads(srcs[..|env| + 1], c, hit)
    ensures Matching(Strict(), env, srcs[|env|], rows) == []
  {
    if rows != [] {
      assert rows[0] in rows;
      var next := env + [Binding(AliasOf(srcs[|env|]), rows[0])];
      NulledNext(srcs, env, rows[0], hit);
      NulledPrefix(srcs, next, hit);
      NulledFails(srcs[..|env| + 1], next, srcs[|env|].on.value, c, hit);
      MatchesNothing(srcs, env, rows[1..], c, hit);
    }
  }

  lemma NulledPrefix(srcs: seq<Source>, env: Env, hit: Cell)
    requires Nulled(srcs, env, hit)
    ensures Nulled(srcs[..|env|], env, hit)
  {
  }

  lemma ExtendMisses(
      cat: Catalog, srcs: seq<Source>, k: nat, env: Env, twice: Option<(string, string)>, c: Expr, hit: Cell)
    requires Nulled(srcs, env, hit) && |env| == k < |srcs| && SourceListed(cat, srcs[k])
    requires hit.column in TableColumns(cat, hit.schema, hit.table)
    requires srcs[k].on.Some? && c in ExprColumns(srcs[k].on.value) && Reads(srcs[..k + 1], c, hit)
    ensures |Extend(Strict(), Witness(cat, twice, Some(hit)), env, srcs[k])| ==
            if srcs[k].kind.LeftOuter? then 1 else 0
  {
    NulledRows(cat, twice, hit, srcs[k]);
    MatchesNothing(srcs, env, Lookup(Witness(cat, twice, Some(hit)), srcs[k]).rows, c, hit);
  }

  lemma {:induction false} ExtendAllCount(it: Interp, db: Database, envs: seq<Env>, s: Source, pads: bool)
    requires forall e :: e in envs ==> |Extend(it, db, e, s)| == if pads then 1 else 0
    ensures |ExtendAll(it, db, envs, s)| == if pads then |envs| else 0
  {
    if envs != [] {
      assert envs[0] in envs;
      ExtendAllCount(it, db, envs[1..], s, pads);
    }
  }

  /** The join with source `k` finds no row: it yields nothing if it is inner, and pads every
      environment if it is left. */
  ghost predicate Misses(cat: Catalog, srcs: seq<Source>, k: nat, twice: Option<(string, string)>, hit: Cell)
    requires k < |srcs|
  {
    forall e :: Nulled(srcs, e, hit) && |e| == k ==>
      |Extend(Strict(), Witness(cat, twice, Some(hit)), e, srcs[k])| == if srcs[k].kind.LeftOuter? then 1 else 0
  }

  lemma ConditionMisses(
      cat: Catalog, srcs: seq<Source>, k: nat, twice: Option<(string, string)>, c: Expr, hit: Cell)
    requires k < |srcs| && SourceListed(cat, srcs[k]) && hit.column in TableColumns(cat, hit.schema, hit.table)
    requires srcs[k].on.Some? && c in ExprColumns(srcs[k].on.value) && Reads(srcs[..k + 1], c, hit)
    ensures Misses(cat, srcs, k, twice, hit)
  {
    forall e | Nulled(srcs, e, hit) && |e| == k
      ensures |Extend(Strict(), Witness(cat, twice, Some(hit)), e, srcs[k])| ==
              if srcs[k].kind.LeftOuter? then 1 else 0
    {
      ExtendMisses(cat, srcs, k, e, twice, c, hit);
    }
  }

  /** The number of joined rows of the first `n` sources when the cell is Null. */
  function NulledCount(cat: Catalog, srcs: seq<Source>, n: nat, twice: Option<(string, string)>, hit: Cell): nat
    requires n <= |srcs|
  {
    |Envs(Strict(), Witness(cat, twice, Some(hit)), srcs[..n])|
  }

  lemma JoinMisses(cat: Catalog, srcs: seq<Source>, k: nat, twice: Option<(string, string)>, hit: Cell)
    requires k < |srcs| && Listed(cat, srcs) && hit.column in TableColumns(cat, hit.schema, hit.table)
    requires Misses(cat, srcs, k, twice, hit)
    ensures NulledCount(cat, srcs, k + 1, twice, hit) ==
            if srcs[k].kind.LeftOuter? then NulledCount(cat, srcs, k, twice, hit) else 0
  {
    var db := Witness(cat, twice, Some(hit));
    EnvsNulled(cat, srcs, k, twice, hit);
    EnvsStep(Strict(), db, srcs, k + 1);
    ExtendAllCount(Strict(), db, Envs(Strict(), db, srcs[..k]), srcs[k], srcs[k].kind.LeftOuter?);
  }

  lemma {:induction false} NothingStays(
      cat: Catalog, srcs: seq<Source>, k: nat, n: nat, twice: Option<(string, string)>, hit: Cell)
    requires k <= n <= |srcs| && NulledCount(cat, srcs, k, twice, hit) == 0
    ensures NulledCount(cat, srcs, n, twice, hit) == 0
  {
    if k < n {
      NothingStays(cat, srcs, k, n - 1, twice, hit);
      NothingJoins(cat, srcs, n, twice, hit);
    }
  }

  lemma NothingJoins(cat: Catalog, srcs: seq<Source>, n: nat, twice: Option<(string, string)>, hit: Cell)
    requires 0 < n <= |srcs| && NulledCount(cat, srcs, n - 1, twice, hit) == 0
    ensures NulledCount(cat, srcs, n, twice, hit) == 0
  {
    EnvsStep(Strict(), Witness(cat, twice, Some(hit)), srcs, n);
  }

  lemma InnerJoinDrops(cat: Catalog, q: Query, k: nat, c: Expr, hit: Cell)
    requires k < |q.sources| && Listed(cat, q.sources) && hit.column in TableColumns(cat, hit.schema, hit.table)
    requires q.sources[k].on.Some? && c in ExprColumns(q.sources[k].on.value) && Reads(q.sources[..k + 1], c, hit)
    requires q.sources[k].kind.Inner?
    ensures Unlimited(Strict(), Witness(cat, None, Some(hit)), q) == []
  {
    ConditionMisses(cat, q.sources, k, None, c, hit);
    JoinMisses(cat, q.sources, k, None, hit);
    NothingStays(cat, q.sources, k + 1, |q.sources|, None, hit);
    WholePrefix(q.sources);
  }

  /** The table of source `k` is joined under no other alias. */
  predicate Once(srcs: seq<Source>, k: nat)
    requires k < |srcs|
  {
    forall i :: 0 <= i < |srcs| && i != k ==>
      SchemaName(srcs[i]) != SchemaName(srcs[k]) || TableName(srcs[i]) != TableName(srcs[k])
  }

  /** Joining source `i` adds no row when the cell is Null. */
  predicate Shrinks(cat: Catalog, srcs: seq<Source>, i: nat, twice: Option<(string, string)>, hit: Cell)
    requires i < |srcs|
  {
    NulledCount(cat, srcs, i + 1, twice, hit) <= NulledCount(cat, srcs, i, twice, hit)
  }

  lemma {:induction false} NeverGrows(
      cat: Catalog, srcs: seq<Source>, n: nat, twice: Option<(string, string)>, hit: Cell)
    requires n <= |srcs| && forall i :: 0 <= i < |srcs| ==> Shrinks(cat, srcs, i, twice, hit)
    ensures NulledCount(cat, srcs, n, twice, hit) <= 1
  {
    if n == 0 {
      NoSources(Strict(), Witness(cat, twice, Some(hit)), srcs);
    } else {
      NeverGrows(cat, srcs, n - 1, twice, hit);
      assert Shrinks(cat, srcs, n - 1, twice, hit);
    }
  }

  /** With only the left-joined table doubled, no join adds a row. */
  lemma LeftJoinPads(cat: Catalog, srcs: seq<Source>, k: nat, twice: Option<(string, string)>, hit: Cell)
    requires k < |srcs| && Listed(cat, srcs) && hit.column in TableColumns(cat, hit.schema, hit.table)
    requires twice == Some((SchemaName(srcs[k]), TableName(srcs[k]))) && Once(srcs, k)
    requires Shrinks(cat, srcs, k, twice, hit)
    ensures NulledCount(cat, srcs, |srcs|, twice, hit) <= 1
  {
    forall i | 0 <= i < |srcs|
      ensures Shrinks(cat, srcs, i, twice, hit)
    {
      if i != k {
        OtherTable(srcs, k, i);
        OtherJoinsPad(cat, srcs, i, twice, hit);
      }
    }
    NeverGrows(cat, srcs, |srcs|, twice, hit);
  }

  lemma NoSources(it: Interp, db: Database, srcs: seq<Source>)
    ensures |Envs(it, db, srcs[..0])| == 1
  {
    assert Envs(it, db, srcs[..0]) == [[]];
  }

  lemma OtherTable(srcs: seq<Source>, k: nat, i: nat)
    requires k < |srcs| && Once(srcs, k) && i < |srcs| && i != k
    ensures Some((SchemaName(srcs[k]), TableName(srcs[k]))) != Some((SchemaName(srcs[i]), TableName(srcs[i])))
  {
  }

  lemma OtherJoinsPad(cat: Catalog, srcs: seq<Source>, i: nat, twice: Option<(string, string)>, hit: Cell)
    requires i < |srcs| && Listed(cat, srcs) && hit.column in TableColumns(cat, hit.schema, hit.table)
    requires twice != Some((SchemaName(srcs[i]), TableName(srcs[i])))
    ensures Shrinks(cat, srcs, i, twice, hit)
  {
    var db := Witness(cat, twice, Some(hit));
    EnvsNulled(cat, srcs, i, twice, hit);
    EnvsStep(Strict(), db, srcs, i + 1);
    ExtendAllNulled(cat, srcs, i, Envs(Strict(), db, srcs[..i]), twice, hit);
  }

  lemma {:induction false} SelectShrinks(it: Interp, envs: seq<Env>, q: Query)
    ensures |Select(it, envs, q)| <= |envs|
  {
    if envs != [] { SelectShrinks(it, envs[1..], q); }
  }

  lemma LeftJoinShrinks(cat: Catalog, q: Query, k: nat, c: Expr, hit: Cell)
    requires k < |q.sources| && Listed(cat, q.sources) && hit.column in TableColumns(cat, hit.schema, hit.table)
    requires q.sources[k].on.Some? && c in ExprColumns(q.sources[k].on.value) && Reads(q.sources[..k + 1], c, hit)
    requires q.sources[k].kind.LeftOuter? && Once(q.sources, k)
    ensures var twice := Some((SchemaName(q.sources[k]), TableName(q.sources[k])));
      && |Unlimited(Strict(), Witness(cat, twice, Some(hit)), q)| <= 1
      && |Unlimited(Strict(), Witness(cat, twice, None), q)| >= 2
  {
    var twice := Some((SchemaName(q.sources[k]), TableName(q.sources[k])));
    var db := Witness(cat, twice, Some(hit));
    ConditionMisses(cat, q.sources, k, twice, c, hit);
    JoinMisses(cat, q.sources, k, twice, hit);
    LeftJoinPads(cat, q.sources, k, twice, hit);
    WholePrefix(q.sources);
    SelectShrinks(Strict(), Envs(Strict(), db, q.sources), q);
    assert Joins(q.sources, |q.sources|, twice.value);
    FullAnswers(cat, q, twice);
  }

  // ---------------------------------------------------------------- the cell behind a sensitive condition

  lemma TailOfConcat(a: seq<Source>, b: seq<Source>)
    requires a != []
    ensures (a + b)[1..] == a[1..] + b && (a + b)[0] == a[0]
  {
  }

  lemma {:induction false} FindInFirst(a: seq<Source>, b: seq<Source>, alias: string)
    requires FindSource(a, alias).Some?
    ensures FindSource(a + b, alias) == FindSource(a, alias)
  {
    TailOfConcat(a, b);
    if AliasOf(a[0]) == alias {
      FoundFirst(a, alias);
      FoundFirst(a + b, alias);
    } else {
      FindInRest(a, alias);
      FindInFirst(a[1..], b, alias);
      FindInRest(a + b, alias);
    }
  }

  lemma FoundFirst(srcs: seq<Source>, alias: string)
    requires srcs != [] && AliasOf(srcs[0]) == alias
    ensures FindSource(srcs, alias) == Some(srcs[0])
  {
  }

  lemma FindInRest(srcs: seq<Source>, alias: string)
    requires srcs != [] && AliasOf(srcs[0]) != alias
    ensures FindSource(srcs, alias) == FindSource(srcs[1..], alias)
  {
  }

  lemma SplitAt(srcs: seq<Source>, k: nat)
    requires k <= |srcs|
    ensures srcs[..k] + srcs[k..] == srcs
  {
  }

  lemma FindInPrefix(srcs: seq<Source>, k: nat, alias: string)
    requires k <= |srcs| && FindSource(srcs[..k], alias).Some?
    ensures FindSource(srcs, alias) == FindSource(srcs[..k], alias)
  {
    SplitAt(srcs, k);
    FindInFirst(srcs[..k], srcs[k..], alias);
  }

  /** A qualified condition that is sensitive reads a catalogued sensitive cell. */
  lemma SensitiveReads(cat: Catalog, srcs: seq<Source>, k: nat, cond: Option<Expr>) returns (c: Expr, hit: Cell)
    requires k <= |srcs| && DistinctAliases(srcs) && IsQualified(cat, srcs, cond)
    requires SensitiveAt(cat, srcs, k, cond)
    ensures c in ExprColumns(cond.value) && Reads(srcs[..k], c, hit)
    ensures SensitiveLookup(cat.columns, hit.schema, hit.table, hit.column)
    ensures hit.column in TableColumns(cat, hit.schema, hit.table)
  {
    c :| c in ExprColumns(cond.value) && ColumnSensitive(cat, srcs[..k], c);
    hit := SensitiveCell(cat, srcs, k, c);
    QualifiedColumnsCheck(cat, srcs, srcs, cond.value);
    CheckedColumnListed(cat, srcs, c, FindSource(srcs, Lower(c.qualifier.value)).value);
  }

  lemma SensitiveCell(cat: Catalog, srcs: seq<Source>, k: nat, c: Expr) returns (hit: Cell)
    requires k <= |srcs| && c.Col? && ColumnSensitive(cat, srcs[..k], c)
    ensures Reads(srcs[..k], c, hit) && Reads(srcs, c, hit)
    ensures SensitiveLookup(cat.columns, hit.schema, hit.table, hit.column)
  {
    var alias := Lower(c.qualifier.value);
    var s := FindSource(srcs[..k], alias).value;
    hit := Cell(SchemaName(s), TableName(s), Lower(c.name));
    FindInPrefix(srcs, k, alias);
  }

  lemma CheckedColumnListed(cat: Catalog, srcs: seq<Source>, c: Expr, s: Source)
    requires c.Col? && CheckColumn(cat, srcs, c).Ok? && FindSource(srcs, Lower(c.qualifier.value)) == Some(s)
    ensures Lower(c.name) in Columns(cat, s)
  {
  }

  // ---------------------------------------------------------------- exactly when masking hides

  /** Two databases that differ in sensitive cells only. */
  ghost predicate Alike(cat: Catalog, db: Database, db': Database) {
    Conforms(db, cat) && Conforms(db', cat) && SamePublic(cat, db, db')
  }

  /** Under every meaning of functions, operators and conditions, the masked answers on any
      two such databases are equal. */
  ghost predicate Hides(cat: Catalog, mask: seq<bool>, q: Query)
    requires q.limit.Some? ==> IsIntLiteral(q.limit.value)
  {
    forall it, db, db' :: Alike(cat, db, db') ==>
      MaskAll(mask, Answer(it, db, q)) == MaskAll(mask, Answer(it, db', q))
  }

  /** Two such databases are told apart by the number of rows alone. */
  ghost predicate CountsDiffer(cat: Catalog, q: Query)
    requires q.limit.Some? ==> IsIntLiteral(q.limit.value)
  {
    exists it, db, db' :: Alike(cat, db, db') && |Answer(it, db, q)| != |Answer(it, db', q)|
  }

  /** Masking keeps the number of rows. */
  lemma CountsAreSeen(cat: Catalog, mask: seq<bool>, q: Query)
    requires (q.limit.Some? ==> IsIntLiteral(q.limit.value)) && CountsDiffer(cat, q)
    ensures !Hides(cat, mask, q)
  {
    var it, db, db' :| Alike(cat, db, db') && |Answer(it, db, q)| != |Answer(it, db', q)|;
    assert |MaskAll(mask, Answer(it, db, q))| != |MaskAll(mask, Answer(it, db', q))|;
  }

  /** One database gives `m` rows and the other fewer. */
  lemma MoreRowsTellApart(cat: Catalog, q: Query, n: nat, m: nat, twice: Option<(string, string)>, hit: Cell)
    requires LimitedTo(q, n)
    requires SensitiveLookup(cat.columns, hit.schema, hit.table, hit.column)
    requires |Unlimited(Strict(), Witness(cat, twice, Some(hit)), q)| < m <= n
    requires m <= |Unlimited(Strict(), Witness(cat, twice, None), q)|
    ensures CountsDiffer(cat, q)
  {
    var db, db' := Witness(cat, twice, None), Witness(cat, twice, Some(hit));
    WitnessConforms(cat, twice, None);
    WitnessConforms(cat, twice, Some(hit));
    WitnessesLookAlike(cat, twice, hit);
    assert Alike(cat, db, db') && |Answer(Strict(), db, q)| != |Answer(Strict(), db', q)|;
  }

  /** The row limit is the literal `n`. */
  predicate LimitedTo(q: Query, n: nat) {
    && q.limit == Some(LimitLiteral(n)) && IsIntLiteral(q.limit.value) && Numerals.Value(q.limit.value.n) == n
  }

  /** The condition of source `k` and its cell, once it is known to be sensitive. */
  lemma SensitiveOnReads(cat: Catalog, q: Query, k: nat) returns (c: Expr, hit: Cell)
    requires Resolved(cat, q) && k < |q.sources| && SensitiveOn(cat, q.sources, k)
    ensures q.sources[k].on.Some? && c in ExprColumns(q.sources[k].on.value) && Reads(q.sources[..k + 1], c, hit)
    ensures SensitiveLookup(cat.columns, hit.schema, hit.table, hit.column)
    ensures hit.column in TableColumns(cat, hit.schema, hit.table)
  {
    assert IsQualified(cat, q.sources, q.sources[k].on);
    c, hit := SensitiveReads(cat, q.sources, k + 1, q.sources[k].on);
  }

  lemma SensitiveWhereReads(cat: Catalog, q: Query) returns (c: Expr, hit: Cell)
    requires Resolved(cat, q) && SensitiveWhere(cat, q)
    ensures q.where.Some? && c in ExprColumns(q.where.value) && Reads(q.sources, c, hit)
    ensures SensitiveLookup(cat.columns, hit.schema, hit.table, hit.column)
    ensures hit.column in TableColumns(cat, hit.schema, hit.table)
  {
    WholePrefix(q.sources);
    c, hit := SensitiveReads(cat, q.sources, |q.sources|, q.where);
  }

  /** A WHERE that reads a sensitive column gives it away. */
  lemma SensitiveWhereLeaks(cat: Catalog, q: Query, n: nat)
    requires Resolved(cat, q) && LimitedTo(q, n) && n >= 1 && SensitiveWhere(cat, q)
    ensures CountsDiffer(cat, q)
  {
    var c, hit := SensitiveWhereReads(cat, q);
    WhereDrops(cat, q, c, hit);
    FullAnswers(cat, q, None);
    MoreRowsTellApart(cat, q, n, 1, None, hit);
  }

  /** So does the condition of an inner join. */
  lemma SensitiveInnerJoinLeaks(cat: Catalog, q: Query, n: nat, k: nat)
    requires Resolved(cat, q) && LimitedTo(q, n) && n >= 1
    requires k < |q.sources| && q.sources[k].kind.Inner? && SensitiveOn(cat, q.sources, k)
    ensures CountsDiffer(cat, q)
  {
    var c, hit := SensitiveOnReads(cat, q, k);
    InnerJoinDrops(cat, q, k, c, hit);
    FullAnswers(cat, q, None);
    MoreRowsTellApart(cat, q, n, 1, None, hit);
  }

  /** So does the condition of a left join, when its table is joined once and more than one
      row may be answered. */
  lemma SensitiveLeftJoinLeaks(cat: Catalog, q: Query, n: nat, k: nat)
    requires Resolved(cat, q) && LimitedTo(q, n) && n >= 2
    requires k < |q.sources| && q.sources[k].kind.LeftOuter? && SensitiveOn(cat, q.sources, k) && Once(q.sources, k)
    ensures CountsDiffer(cat, q)
  {
    var c, hit := SensitiveOnReads(cat, q, k);
    LeftJoinShrinks(cat, q, k, c, hit);
    MoreRowsTellApart(cat, q, n, 2, Some((SchemaName(q.sources[k]), TableName(q.sources[k]))), hit);
  }

  /** Every left join on a sensitive column is of a table joined once, with room for two rows. */
  predicate LeftJoinsDecide(cat: Catalog, q: Query, n: nat) {
    forall k :: 0 <= k < |q.sources| && q.sources[k].kind.LeftOuter? && SensitiveOn(cat, q.sources, k) ==>
      n >= 2 && Once(q.sources, k)
  }

  /** Masking hides the sensitive cells of a whole database, from the answer to the stored text
      of an accepted query, if and only if neither WHERE nor a join condition of that text
      reads a sensitive column. */
  lemma MaskingIsExact(cfg: Config, cat: Catalog, sql: string)
    requires Validate(cfg, cat, sql).Ok? && ParseSql(Validate(cfg, cat, sql).value.sql).Ok?
    requires var v := Validate(cfg, cat, sql).value;
             LeftJoinsDecide(cat, ParsedQuery(v.sql), v.rowLimit)
    ensures var v := Validate(cfg, cat, sql).value;
            var stored := ParsedQuery(v.sql);
            && stored.limit.Some? && IsIntLiteral(stored.limit.value)
            && (Hides(cat, v.projectionSensitive, stored) <==> PublicConditions(cat, stored))
  {
    var v := Validate(cfg, cat, sql).value;
    var stored := ParsedQuery(v.sql);
    StoredIsChecked(cfg, cat, sql);
    if PublicConditions(cat, stored) {
      forall it, db, db' | Alike(cat, db, db')
        ensures MaskAll(v.projectionSensitive, Answer(it, db, stored)) ==
                MaskAll(v.projectionSensitive, Answer(it, db', stored))
      {
        MaskedAnswersAgree(cfg, cat, sql, it, db, db');
      }
    } else {
      LimitIsPositive(cfg, cat, sql);
      StoredIsResolved(cfg, cat, stored);
      OpenConditionLeaks(cat, stored, v.rowLimit);
      CountsAreSeen(cat, v.projectionSensitive, stored);
    }
  }

  lemma LimitIsPositive(cfg: Config, cat: Catalog, sql: string)
    requires Validate(cfg, cat, sql).Ok?
    ensures Validate(cfg, cat, sql).value.rowLimit >= 1
  {
    CheckParts(cfg, cat, ParsedQuery(sql));
  }

  lemma OpenConditionLeaks(cat: Catalog, q: Query, n: nat)
    requires Resolved(cat, q) && LimitedTo(q, n) && n >= 1 && LeftJoinsDecide(cat, q, n) && !PublicConditions(cat, q)
    ensures CountsDiffer(cat, q)
  {
    if SensitiveWhere(cat, q) {
      SensitiveWhereLeaks(cat, q, n);
    } else {
      var k :| 0 <= k < |q.sources| && SensitiveOn(cat, q.sources, k);
      SensitiveJoinLeaks(cat, q, n, k);
    }
  }

  lemma SensitiveJoinLeaks(cat: Catalog, q: Query, n: nat, k: nat)
    requires Resolved(cat, q) && LimitedTo(q, n) && n >= 1 && LeftJoinsDecide(cat, q, n)
    requires k < |q.sources| && SensitiveOn(cat, q.sources, k)
    ensures CountsDiffer(cat, q)
  {
    if q.sources[k].kind.Inner? {
      SensitiveInnerJoinLeaks(cat, q, n, k);
    } else {
      SensitiveLeftJoinLeaks(cat, q, n, k);
    }
  }
}
