/** What an accepted query means: rows of joined environments, and the two results that
    lean on it. The rewrite keeps the meaning, and masking hides every sensitive cell. */
module SqlMeaning {
  import opened Wrappers
  import opened Numerals
  import opened SqlText
  import opened SqlAst
  import opened SqlPolicy

  datatype Value = Null | Unresolved | Masked | Text(s: string) | Number(n: int) | Truth(b: bool)

  /** Arbitrary meanings of literals, functions, operators and of holding a condition. */
  datatype Interp = Interp(
    num: string -> Value, str: string -> Value, call: (string, seq<Value>) -> Value,
    bin: (BinOp, Value, Value) -> Value, holds: Value -> bool)

  type Row = map<string, Value>

  datatype Table = Table(columns: set<string>, rows: seq<Row>)

  type Database = map<(string, string), Table>

  datatype Binding = Binding(alias: string, row: Row)

  type Env = seq<Binding>

  // ---------------------------------------------------------------- expressions

  function BoundRow(env: Env, alias: string): Option<Row> {
    if env == [] then None
    else if env[0].alias == alias then Some(env[0].row)
    else BoundRow(env[1..], alias)
  }

  /** The bound rows that have the column. */
  function Holders(env: Env, column: string): (r: seq<Row>)
    ensures forall row :: row in r ==> column in row
  {
    if env == [] then []
    else (if column in env[0].row then [env[0].row] else []) + Holders(env[1..], column)
  }

  function Eval(it: Interp, env: Env, e: Expr): Value {
    match e
    case NumLit(n) => it.num(n)
    case StrLit(q) => it.str(q)
    case StarExpr => Unresolved
    case Col(Some(a), n) =>
      var row := BoundRow(env, Lower(a));
      if row.Some? && Lower(n) in row.value then row.value[Lower(n)] else Unresolved
    case Col(None, n) =>
      var rows := Holders(env, Lower(n));
      if |rows| == 1 then rows[0][Lower(n)] else Unresolved
    case Call(fn, args) => it.call(fn, EvalAll(it, env, args))
    case Bin(op, l, r) => it.bin(op, Eval(it, env, l), Eval(it, env, r))
  }

  function EvalAll(it: Interp, env: Env, es: seq<Expr>): seq<Value> {
    if es == [] then [] else [Eval(it, env, es[0])] + EvalAll(it, env, es[1..])
  }

  predicate Holds(it: Interp, env: Env, cond: Option<Expr>) {
    cond.None? || it.holds(Eval(it, env, cond.value))
  }

  // ---------------------------------------------------------------- joins and rows

  function Lookup(db: Database, s: Source): Table {
    var key := (SchemaName(s), TableName(s));
    if key in db then db[key] else Table({}, [])
  }

  function Matching(it: Interp, env: Env, s: Source, rows: seq<Row>): seq<Env> {
    if rows == [] then []
    else
      var next := env + [Binding(AliasOf(s), rows[0])];
      (if Holds(it, next, s.on) then [next] else []) + Matching(it, env, s, rows[1..])
  }

  function NullRow(columns: set<string>): Row { map c | c in columns :: Null }

  function Extend(it: Interp, db: Database, env: Env, s: Source): seq<Env> {
    var found := Matching(it, env, s, Lookup(db, s).rows);
    if found == [] && s.kind.LeftOuter? then [env + [Binding(AliasOf(s), NullRow(Lookup(db, s).columns))]] else found
  }

  function ExtendAll(it: Interp, db: Database, envs: seq<Env>, s: Source): seq<Env> {
    if envs == [] then [] else Extend(it, db, envs[0], s) + ExtendAll(it, db, envs[1..], s)
  }

  /** Left-to-right join of the sources; no source at all is one empty environment. */
  function Envs(it: Interp, db: Database, srcs: seq<Source>): seq<Env> {
    if srcs == [] then [[]]
    else ExtendAll(it, db, Envs(it, db, srcs[..|srcs| - 1]), srcs[|srcs| - 1])
  }

  function Project(it: Interp, env: Env, items: seq<Item>): (r: seq<Value>)
    ensures |r| == |items|
    ensures forall i :: 0 <= i < |items| ==> r[i] == Eval(it, env, items[i].e)
  {
    seq(|items|, i requires 0 <= i < |items| => Eval(it, env, items[i].e))
  }

  function Select(it: Interp, envs: seq<Env>, q: Query): seq<seq<Value>> {
    if envs == [] then []
    else (if Holds(it, envs[0], q.where) then [Project(it, envs[0], q.items)] else []) + Select(it, envs[1..], q)
  }

  function Unlimited(it: Interp, db: Database, q: Query): seq<seq<Value>> {
    Select(it, Envs(it, db, q.sources), q)
  }

  /** The answer of a query whose limit, if any, is an integer literal. */
  function Answer(it: Interp, db: Database, q: Query): seq<seq<Value>>
    requires q.limit.Some? ==> IsIntLiteral(q.limit.value)
  {
    if q.limit.None? then Unlimited(it, db, q) else Take(Numerals.Value(q.limit.value.n), Unlimited(it, db, q))
  }

  // ---------------------------------------------------------------- meaning preservation

  /** Every catalogued table exists with exactly its catalogued columns. */
  ghost predicate Conforms(db: Database, cat: Catalog) {
    forall s, t :: TableListed(cat, s, t) ==>
      && (s, t) in db
      && db[(s, t)].columns == TableColumns(cat, s, t)
      && forall row :: row in db[(s, t)].rows ==> row.Keys == TableColumns(cat, s, t)
  }

  predicate Binds(cat: Catalog, s: Source, b: Binding) { b.alias == AliasOf(s) && b.row.Keys == Columns(cat, s) }

  /** The environment binds a prefix of the sources to rows of the catalogued shape. */
  predicate EnvFor(cat: Catalog, srcs: seq<Source>, env: Env) {
    |env| <= |srcs| && forall i :: 0 <= i < |env| ==> Binds(cat, srcs[i], env[i])
  }

  predicate SourceListed(cat: Catalog, s: Source) { TableListed(cat, SchemaName(s), TableName(s)) }

  predicate Listed(cat: Catalog, srcs: seq<Source>) {
    forall i :: 0 <= i < |srcs| ==> SourceListed(cat, srcs[i])
  }

  lemma {:induction false} NoHolder(cat: Catalog, srcs: seq<Source>, env: Env, column: string)
    requires EnvFor(cat, srcs, env) && Candidates(cat, srcs, column) == []
    ensures Holders(env, column) == []
  {
    if env != [] {
      assert Binds(cat, srcs[0], env[0]);
      NoHolder(cat, srcs[1..], env[1..], column);
    }
  }

  lemma {:induction false} CandidateIsAlias(cat: Catalog, srcs: seq<Source>, column: string, a: Name)
    requires a in Candidates(cat, srcs, column)
    ensures exists i :: 0 <= i < |srcs| && AliasOf(srcs[i]) == a
  {
    if column in Columns(cat, srcs[0]) && AliasOf(srcs[0]) == a {
    } else {
      CandidateIsAlias(cat, srcs[1..], column, a);
      var i :| 0 <= i < |srcs[1..]| && AliasOf(srcs[1..][i]) == a;
      assert AliasOf(srcs[i + 1]) == a;
    }
  }

  lemma FirstAliasDiffers(cat: Catalog, srcs: seq<Source>, column: string)
    requires srcs != [] && DistinctAliases(srcs) && column !in Columns(cat, srcs[0])
    ensures forall a :: a in Candidates(cat, srcs, column) ==> a != AliasOf(srcs[0])
  {
    forall a | a in Candidates(cat, srcs[1..], column)
      ensures a != AliasOf(srcs[0])
    {
      CandidateIsAlias(cat, srcs[1..], column, a);
      var i :| 0 <= i < |srcs[1..]| && AliasOf(srcs[1..][i]) == a;
      assert AliasOf(srcs[0]) != AliasOf(srcs[i + 1]);
    }
  }

  /** What a bound row of the only candidate means for the rows that have the column. */
  predicate HeldBy(env: Env, alias: string, column: string) {
    var row := BoundRow(env, alias);
    if row.None? then Holders(env, column) == [] else column in row.value && Holders(env, column) == [row.value]
  }

  lemma FirstCandidate(cat: Catalog, srcs: seq<Source>, column: string)
    requires srcs != [] && column in Columns(cat, srcs[0]) && |Candidates(cat, srcs, column)| == 1
    ensures Candidates(cat, srcs[1..], column) == [] && Candidates(cat, srcs, column) == [AliasOf(srcs[0])]
  {
    assert Candidates(cat, srcs, column) == [AliasOf(srcs[0])] + Candidates(cat, srcs[1..], column);
  }

  lemma HeldByFirst(cat: Catalog, srcs: seq<Source>, env: Env, column: string)
    requires env != [] && EnvFor(cat, srcs, env) && column in Columns(cat, srcs[0])
    requires |Candidates(cat, srcs, column)| == 1
    ensures HeldBy(env, Candidates(cat, srcs, column)[0], column)
  {
    FirstCandidate(cat, srcs, column);
    EnvTail(cat, srcs, env);
    NoHolder(cat, srcs[1..], env[1..], column);
    HeldOnlyFirst(env, AliasOf(srcs[0]), column);
  }

  lemma EnvTail(cat: Catalog, srcs: seq<Source>, env: Env)
    requires EnvFor(cat, srcs, env) && env != []
    ensures EnvFor(cat, srcs[1..], env[1..]) && Binds(cat, srcs[0], env[0])
  {
  }

  lemma HeldOnlyFirst(env: Env, alias: string, column: string)
    requires env != [] && env[0].alias == alias && column in env[0].row && Holders(env[1..], column) == []
    ensures HeldBy(env, alias, column)
  {
  }

  lemma HeldByLater(env: Env, alias: string, column: string)
    requires env != [] && env[0].alias != alias && column !in env[0].row && HeldBy(env[1..], alias, column)
    ensures HeldBy(env, alias, column)
  {
  }

  lemma TailSetting(cat: Catalog, srcs: seq<Source>, env: Env)
    requires EnvFor(cat, srcs, env) && DistinctAliases(srcs) && env != []
    ensures EnvFor(cat, srcs[1..], env[1..]) && DistinctAliases(srcs[1..])
    ensures Binds(cat, srcs[0], env[0])
  {
    EnvTail(cat, srcs, env);
  }

  /** A name only one source can supply is supplied by that source's row, once it is bound. */
  lemma {:induction false} UniqueHolder(cat: Catalog, srcs: seq<Source>, env: Env, column: string)
    requires EnvFor(cat, srcs, env) && DistinctAliases(srcs) && |Candidates(cat, srcs, column)| == 1
    ensures HeldBy(env, Candidates(cat, srcs, column)[0], column)
  {
    if env != [] {
      if column in Columns(cat, srcs[0]) {
        HeldByFirst(cat, srcs, env, column);
      } else {
        var a := Candidates(cat, srcs, column)[0];
        assert Candidates(cat, srcs, column) == Candidates(cat, srcs[1..], column);
        FirstAliasDiffers(cat, srcs, column);
        assert a in Candidates(cat, srcs, column);
        TailSetting(cat, srcs, env);
        UniqueHolder(cat, srcs[1..], env[1..], column);
        HeldByLater(env, a, column);
      }
    }
  }

  /** Qualification keeps the value of an expression in every environment of the query. */
  lemma {:induction false} EvalQualified(it: Interp, cat: Catalog, srcs: seq<Source>, env: Env, e: Expr)
    requires EnvFor(cat, srcs, env) && DistinctAliases(srcs) && QualifyExpr(cat, srcs, e).Some?
    ensures Eval(it, env, QualifyExpr(cat, srcs, e).value) == Eval(it, env, e)
  {
    match e
    case Col(Some(a), n) => LowerIdempotent(a); LowerIdempotent(n);
    case Col(None, n) =>
      LowerIdempotent(n);
      CandidatesLower(cat, srcs, Lower(n));
      UniqueHolder(cat, srcs, env, Lower(n));
    case Call(fn, args) => EvalAllQualified(it, cat, srcs, env, args);
    case Bin(op, l, r) =>
      EvalQualified(it, cat, srcs, env, l);
      EvalQualified(it, cat, srcs, env, r);
    case _ =>
  }

  lemma {:induction false} EvalAllQualified(it: Interp, cat: Catalog, srcs: seq<Source>, env: Env, es: seq<Expr>)
    requires EnvFor(cat, srcs, env) && DistinctAliases(srcs) && QualifyExprs(cat, srcs, es).Some?
    ensures EvalAll(it, env, QualifyExprs(cat, srcs, es).value) == EvalAll(it, env, es)
  {
    if es != [] {
      EvalQualified(it, cat, srcs, env, es[0]);
      EvalAllQualified(it, cat, srcs, env, es[1..]);
      assert QualifyExprs(cat, srcs, es).value[1..] == QualifyExprs(cat, srcs, es[1..]).value;
    }
  }

  lemma HoldsQualified(it: Interp, cat: Catalog, srcs: seq<Source>, env: Env, cond: Option<Expr>)
    requires EnvFor(cat, srcs, env) && DistinctAliases(srcs) && QualifyOption(cat, srcs, cond).Some?
    ensures Holds(it, env, QualifyOption(cat, srcs, cond).value) == Holds(it, env, cond)
  {
    if cond.Some? {
      EvalQualified(it, cat, srcs, env, cond.value);
    }
  }

  /** `s'` is `s` with its names resolved and its condition qualified. */
  predicate Resolves(cat: Catalog, srcs: seq<Source>, s: Source, s': Source) {
    && QualifyOption(cat, srcs, s.on) == Some(s'.on)
    && s'.kind == s.kind && AliasOf(s') == AliasOf(s)
    && SchemaName(s') == SchemaName(s) && TableName(s') == TableName(s)
  }

  predicate AllResolve(cat: Catalog, srcs: seq<Source>, srcs': seq<Source>) {
    |srcs| == |srcs'| && forall i :: 0 <= i < |srcs| ==> Resolves(cat, srcs, srcs[i], srcs'[i])
  }

  lemma {:induction false} MatchingQualified(
      it: Interp, cat: Catalog, srcs: seq<Source>, k: nat, s': Source, env: Env, rows: seq<Row>)
    requires k < |srcs| && DistinctAliases(srcs) && Resolves(cat, srcs, srcs[k], s')
    requires EnvFor(cat, srcs, env) && |env| == k
    requires forall row :: row in rows ==> row.Keys == Columns(cat, srcs[k])
    ensures Matching(it, env, s', rows) == Matching(it, env, srcs[k], rows)
    ensures forall e :: e in Matching(it, env, srcs[k], rows) ==> EnvFor(cat, srcs, e) && |e| == k + 1
  {
    if rows != [] {
      assert rows[0] in rows;
      BindNext(cat, srcs, env, rows[0]);
      HoldsQualified(it, cat, srcs, env + [Binding(AliasOf(srcs[k]), rows[0])], srcs[k].on);
      MatchingQualified(it, cat, srcs, k, s', env, rows[1..]);
    }
  }

  lemma LookupShape(cat: Catalog, db: Database, s: Source)
    requires Conforms(db, cat) && SourceListed(cat, s)
    ensures Lookup(db, s).columns == Columns(cat, s)
    ensures forall row :: row in Lookup(db, s).rows ==> row.Keys == Columns(cat, s)
  {
  }

  lemma BindNext(cat: Catalog, srcs: seq<Source>, env: Env, row: Row)
    requires EnvFor(cat, srcs, env) && |env| < |srcs| && row.Keys == Columns(cat, srcs[|env|])
    ensures EnvFor(cat, srcs, env + [Binding(AliasOf(srcs[|env|]), row)])
  {
    var next := env + [Binding(AliasOf(srcs[|env|]), row)];
    forall i | 0 <= i < |next|
      ensures Binds(cat, srcs[i], next[i])
    {
      if i < |env| { assert Binds(cat, srcs[i], env[i]); }
    }
  }

  lemma ExtendQualified(it: Interp, cat: Catalog, db: Database, srcs: seq<Source>, k: nat, s': Source, env: Env)
    requires Conforms(db, cat) && Listed(cat, srcs)
    requires k < |srcs| && DistinctAliases(srcs) && Resolves(cat, srcs, srcs[k], s')
    requires EnvFor(cat, srcs, env) && |env| == k
    ensures Extend(it, db, env, s') == Extend(it, db, env, srcs[k])
    ensures forall e :: e in Extend(it, db, env, srcs[k]) ==> EnvFor(cat, srcs, e) && |e| == k + 1
  {
    LookupShape(cat, db, srcs[k]);
    MatchingQualified(it, cat, srcs, k, s', env, Lookup(db, srcs[k]).rows);
    BindNext(cat, srcs, env, NullRow(Columns(cat, srcs[k])));
  }

  /** Every environment binds exactly the first `k` sources. */
  predicate AllBind(cat: Catalog, srcs: seq<Source>, k: nat, envs: seq<Env>) {
    forall e :: e in envs ==> EnvFor(cat, srcs, e) && |e| == k
  }

  lemma {:induction false} ExtendAllQualified(
      it: Interp, cat: Catalog, db: Database, srcs: seq<Source>, k: nat, s': Source, envs: seq<Env>)
    requires Conforms(db, cat) && Listed(cat, srcs)
    requires k < |srcs| && DistinctAliases(srcs) && Resolves(cat, srcs, srcs[k], s')
    requires AllBind(cat, srcs, k, envs)
    ensures ExtendAll(it, db, envs, s') == ExtendAll(it, db, envs, srcs[k])
    ensures AllBind(cat, srcs, k + 1, ExtendAll(it, db, envs, srcs[k]))
  {
    if envs != [] {
      assert envs[0] in envs;
      ExtendQualified(it, cat, db, srcs, k, s', envs[0]);
      ExtendAllQualified(it, cat, db, srcs, k, s', envs[1..]);
    }
  }

  lemma EnvsStep(it: Interp, db: Database, srcs: seq<Source>, k: nat)
    requires 0 < k <= |srcs|
    ensures Envs(it, db, srcs[..k]) == ExtendAll(it, db, Envs(it, db, srcs[..k - 1]), srcs[k - 1])
  {
    assert srcs[..k][..k - 1] == srcs[..k - 1];
  }

  lemma EnvsStepQualified(it: Interp, cat: Catalog, db: Database, srcs: seq<Source>, srcs': seq<Source>, k: nat)
    requires Conforms(db, cat) && Listed(cat, srcs) && DistinctAliases(srcs)
    requires 0 < k <= |srcs| == |srcs'| && Resolves(cat, srcs, srcs[k - 1], srcs'[k - 1])
    requires Envs(it, db, srcs'[..k - 1]) == Envs(it, db, srcs[..k - 1])
    requires AllBind(cat, srcs, k - 1, Envs(it, db, srcs[..k - 1]))
    ensures Envs(it, db, srcs'[..k]) == Envs(it, db, srcs[..k])
    ensures AllBind(cat, srcs, k, Envs(it, db, srcs[..k]))
  {
    var prev := Envs(it, db, srcs[..k - 1]);
    EnvsStep(it, db, srcs, k);
    EnvsStep(it, db, srcs', k);
    ExtendAllQualified(it, cat, db, srcs, k - 1, srcs'[k - 1], prev);
  }

  /** The qualified sources join to the same environments as the original ones. */
  lemma {:induction false} EnvsQualified(
      it: Interp, cat: Catalog, db: Database, srcs: seq<Source>, srcs': seq<Source>, k: nat)
    requires Conforms(db, cat) && Listed(cat, srcs) && DistinctAliases(srcs)
    requires k <= |srcs| && AllResolve(cat, srcs, srcs')
    ensures Envs(it, db, srcs'[..k]) == Envs(it, db, srcs[..k])
    ensures AllBind(cat, srcs, k, Envs(it, db, srcs[..k]))
  {
    if k > 0 {
      EnvsQualified(it, cat, db, srcs, srcs', k - 1);
      EnvsStepQualified(it, cat, db, srcs, srcs', k);
    } else {
      assert srcs[..0] == [] && srcs'[..0] == [];
      assert Envs(it, db, srcs[..0]) == [[]];
    }
  }

  lemma ProjectQualified(it: Interp, cat: Catalog, srcs: seq<Source>, env: Env, items: seq<Item>)
    requires EnvFor(cat, srcs, env) && DistinctAliases(srcs) && QualifyItems(cat, srcs, 0, items).Some?
    ensures Project(it, env, QualifyItems(cat, srcs, 0, items).value) == Project(it, env, items)
  {
    forall i | 0 <= i < |items|
      ensures Eval(it, env, QualifyItems(cat, srcs, 0, items).value[i].e) == Eval(it, env, items[i].e)
    {
      QualifyItemAt(cat, srcs, 0, items, i);
      EvalQualified(it, cat, srcs, env, items[i].e);
    }
  }

  lemma {:induction false} SelectQualified(it: Interp, cat: Catalog, envs: seq<Env>, q: Query, t: Query)
    requires DistinctAliases(q.sources)
    requires QualifyItems(cat, q.sources, 0, q.items) == Some(t.items)
    requires QualifyOption(cat, q.sources, q.where) == Some(t.where)
    requires AllBind(cat, q.sources, |q.sources|, envs)
    ensures Select(it, envs, t) == Select(it, envs, q)
  {
    if envs != [] {
      assert envs[0] in envs;
      HoldsQualified(it, cat, q.sources, envs[0], q.where);
      ProjectQualified(it, cat, q.sources, envs[0], q.items);
      SelectQualified(it, cat, envs[1..], q, t);
    }
  }

  lemma {:induction false} TablesListed(cfg: Config, cat: Catalog, srcs: seq<Source>)
    requires CheckTables(cfg, cat, srcs).Ok?
    ensures Listed(cat, srcs)
  {
    if srcs != [] {
      var most, last := srcs[..|srcs| - 1], srcs[|srcs| - 1];
      LastTableListed(cfg, cat, srcs);
      TablesListed(cfg, cat, most);
      forall i | 0 <= i < |srcs|
        ensures SourceListed(cat, srcs[i])
      {
        if i < |most| {
          assert SourceListed(cat, most[i]);
        } else {
          assert i == |srcs| - 1;
        }
      }
    }
  }

  lemma LastTableListed(cfg: Config, cat: Catalog, srcs: seq<Source>)
    requires srcs != [] && CheckTables(cfg, cat, srcs).Ok?
    ensures CheckTables(cfg, cat, srcs[..|srcs| - 1]).Ok?
    ensures SourceListed(cat, srcs[|srcs| - 1])
  {
  }

  lemma SourcesResolve(cat: Catalog, srcs: seq<Source>)
    requires QualifySources(cat, srcs, srcs).Some?
    ensures AllResolve(cat, srcs, QualifySources(cat, srcs, srcs).value)
  {
    QualifiedSame(cat, srcs, srcs);
    var r := QualifySources(cat, srcs, srcs).value;
    forall i | 0 <= i < |srcs|
      ensures Resolves(cat, srcs, srcs[i], r[i])
    {
      assert Some(r[i]) == QualifySource(cat, srcs, srcs[i]);
    }
  }

  lemma QualifyParts(cat: Catalog, q: Query)
    requires Qualify(cat, q).Some?
    ensures var t := Qualify(cat, q).value;
            && DistinctAliases(q.sources)
            && QualifyItems(cat, q.sources, 0, q.items) == Some(t.items)
            && QualifySources(cat, q.sources, q.sources) == Some(t.sources)
            && QualifyOption(cat, q.sources, q.where) == Some(t.where)
  {
  }

  lemma AllEnvsQualified(it: Interp, cat: Catalog, db: Database, srcs: seq<Source>, srcs': seq<Source>)
    requires Conforms(db, cat) && Listed(cat, srcs) && DistinctAliases(srcs)
    requires AllResolve(cat, srcs, srcs')
    ensures Envs(it, db, srcs') == Envs(it, db, srcs) && AllBind(cat, srcs, |srcs|, Envs(it, db, srcs))
  {
    EnvsQualified(it, cat, db, srcs, srcs', |srcs|);
    WholePrefix(srcs);
    WholePrefix(srcs');
  }

  lemma QualifyKeepsRows(it: Interp, cat: Catalog, db: Database, q: Query)
    requires Conforms(db, cat) && Listed(cat, q.sources) && Qualify(cat, q).Some?
    ensures Unlimited(it, db, Qualify(cat, q).value) == Unlimited(it, db, q)
  {
    var t := Qualify(cat, q).value;
    QualifyParts(cat, q);
    SourcesResolve(cat, q.sources);
    AllEnvsQualified(it, cat, db, q.sources, t.sources);
    SelectQualified(it, cat, Envs(it, db, q.sources), q, t);
  }

  /** The number of rows the author asked for; no LIMIT asks for everything. */
  function Requested(q: Query): Option<nat>
    requires q.limit.Some? ==> IsIntLiteral(q.limit.value)
  {
    if q.limit.None? then None else Some(Numerals.Value(q.limit.value.n))
  }

  /** The rewrite preserves meaning. On every database that has the catalogued columns,
      and under every meaning of literals, functions and operators, the normalised SQL of
      an accepted query answers with the first min(requested, max_rows) rows of the
      original's un-limited answer. */
  lemma RewritePreservesMeaning(cfg: Config, cat: Catalog, sql: string, db: Database, it: Interp)
    requires Validate(cfg, cat, sql).Ok? && Conforms(db, cat)
    ensures var v := Validate(cfg, cat, sql).value;
            && ParseSql(sql).Ok? && ParseSql(v.sql).Ok?
            && var q, q' := ParseSql(sql).value, ParseSql(v.sql).value;
            && (q.limit.Some? ==> IsIntLiteral(q.limit.value)) && q'.limit.Some? && IsIntLiteral(q'.limit.value)
            && Answer(it, db, q') == Take(v.rowLimit, Unlimited(it, db, q))
            && v.rowLimit == (match Requested(q)
                              case None => cfg.maxRows
                              case Some(n) => if n <= cfg.maxRows then n else cfg.maxRows)
  {
    ParsedWellFormed(sql);
    var q := ParseSql(sql).value;
    CheckedWellFormed(cfg, cat, q);
    NormalizedParses(CheckQuery(cfg, cat, q).value.query);
    CheckedMeansOriginal(cfg, cat, db, it, q);
  }

  /** The same statement on trees. */
  lemma CheckedMeansOriginal(cfg: Config, cat: Catalog, db: Database, it: Interp, q: Query)
    requires CheckQuery(cfg, cat, q).Ok? && Conforms(db, cat)
    ensures var ck := CheckQuery(cfg, cat, q).value;
            && (q.limit.Some? ==> IsIntLiteral(q.limit.value)) && ck.query.limit == Some(LimitLiteral(ck.rowLimit))
            && Answer(it, db, ck.query) == Take(ck.rowLimit, Unlimited(it, db, q))
            && ck.rowLimit == (match Requested(q)
                               case None => cfg.maxRows
                               case Some(n) => if n <= cfg.maxRows then n else cfg.maxRows)
  {
    CheckParts(cfg, cat, q);
    var ck := CheckQuery(cfg, cat, q).value;
    TablesListed(cfg, cat, q.sources);
    QualifyKeepsRows(it, cat, db, q);
    UnlimitedIgnoresLimit(it, db, Qualify(cat, q).value, ck.query.limit);
    ValueOfDecimal(ck.rowLimit);
  }

  lemma UnlimitedIgnoresLimit(it: Interp, db: Database, q: Query, limit: Option<Expr>)
    ensures Unlimited(it, db, q.(limit := limit)) == Unlimited(it, db, q)
  {
    SelectIgnoresLimit(it, Envs(it, db, q.sources), q, limit);
  }

  lemma {:induction false} SelectIgnoresLimit(it: Interp, envs: seq<Env>, q: Query, limit: Option<Expr>)
    ensures Select(it, envs, q.(limit := limit)) == Select(it, envs, q)
  {
    if envs != [] {
      SelectIgnoresLimit(it, envs[1..], q, limit);
    }
  }

  // ---------------------------------------------------------------- masking

  /** `zip(strict=True)` refuses a row whose width differs from the lineage vector. */
  function MaskRow(sensitive: seq<bool>, row: seq<Value>): (r: Option<seq<Value>>)
    ensures r.Some? <==> |row| == |sensitive|
    ensures r.Some? ==> |r.value| == |row|
    ensures r.Some? ==> forall i :: 0 <= i < |row| ==> r.value[i] == if sensitive[i] then Masked else row[i]
  {
    if |row| != |sensitive| then None
    else Some(seq(|row|, i requires 0 <= i < |row| => if sensitive[i] then Masked else row[i]))
  }

  predicate CellSensitive(cat: Catalog, s: Source, c: string) {
    SensitiveLookup(cat.columns, SchemaName(s), TableName(s), c)
  }

  /** The two environments bind the same sources and differ in sensitive cells only. */
  predicate AgreeOnPublic(cat: Catalog, srcs: seq<Source>, a: Env, b: Env) {
    && EnvFor(cat, srcs, a) && EnvFor(cat, srcs, b) && |a| == |b|
    && forall i, c :: (0 <= i < |a| && c in a[i].row && !CellSensitive(cat, srcs[i], c)) ==> a[i].row[c] == b[i].row[c]
  }

  /** The row bound to an alias is a row of the source the policy looked up for it. */
  lemma {:induction false} BoundAgrees(cat: Catalog, srcs: seq<Source>, a: Env, b: Env, alias: string, c: string)
    requires AgreeOnPublic(cat, srcs, a, b)
    ensures BoundRow(a, alias).Some? <==> BoundRow(b, alias).Some?
    ensures BoundRow(a, alias).Some? ==>
      && FindSource(srcs, alias).Some?
      && BoundRow(a, alias).value.Keys == BoundRow(b, alias).value.Keys
      && ((c in BoundRow(a, alias).value && !CellSensitive(cat, FindSource(srcs, alias).value, c)) ==>
          BoundRow(a, alias).value[c] == BoundRow(b, alias).value[c])
  {
    if a != [] && a[0].alias != alias {
      forall i, k | 0 <= i < |a[1..]| && k in a[1..][i].row && !CellSensitive(cat, srcs[1..][i], k)
        ensures a[1..][i].row[k] == b[1..][i].row[k]
      {
        assert a[1..][i] == a[i + 1] && b[1..][i] == b[i + 1] && srcs[1..][i] == srcs[i + 1];
      }
      BoundAgrees(cat, srcs[1..], a[1..], b[1..], alias, c);
    }
  }

  /** An expression without sensitive columns cannot tell two such environments apart. */
  lemma {:induction false} PublicEvalAgrees(it: Interp, cat: Catalog, srcs: seq<Source>, a: Env, b: Env, e: Expr)
    requires AgreeOnPublic(cat, srcs, a, b)
    requires forall c :: c in ExprColumns(e) ==> c.qualifier.Some? && !ColumnSensitive(cat, srcs, c)
    ensures Eval(it, a, e) == Eval(it, b, e)
  {
    match e
    case Col(q, n) =>
      assert e in ExprColumns(e);
      BoundAgrees(cat, srcs, a, b, Lower(q.value), Lower(n));
    case Call(fn, args) => PublicEvalAllAgrees(it, cat, srcs, a, b, args);
    case Bin(op, l, r) =>
      PublicEvalAgrees(it, cat, srcs, a, b, l);
      PublicEvalAgrees(it, cat, srcs, a, b, r);
    case _ =>
  }

  lemma {:induction false} PublicEvalAllAgrees(
      it: Interp, cat: Catalog, srcs: seq<Source>, a: Env, b: Env, es: seq<Expr>)
    requires AgreeOnPublic(cat, srcs, a, b)
    requires forall c :: c in ExprsColumns(es) ==> c.qualifier.Some? && !ColumnSensitive(cat, srcs, c)
    ensures EvalAll(it, a, es) == EvalAll(it, b, es)
  {
    if es != [] {
      PublicEvalAgrees(it, cat, srcs, a, b, es[0]);
      PublicEvalAllAgrees(it, cat, srcs, a, b, es[1..]);
    }
  }

  lemma AgreeSame(cat: Catalog, srcs: seq<Source>, srcs': seq<Source>, a: Env, b: Env)
    requires SameSources(srcs, srcs') && AgreeOnPublic(cat, srcs, a, b)
    ensures AgreeOnPublic(cat, srcs', a, b)
  {
  }

  lemma PublicItemAgrees(it: Interp, cat: Catalog, q: Query, i: nat, a: Env, b: Env)
    requires Qualify(cat, q).Some? && i < |q.items| && AgreeOnPublic(cat, q.sources, a, b)
    requires !Sensitivity(cat, Qualify(cat, q).value)[i]
    ensures Eval(it, a, q.items[i].e) == Eval(it, b, q.items[i].e)
  {
    var t := Qualify(cat, q).value;
    var e, e' := q.items[i].e, t.items[i].e;
    QualifyItemAt(cat, q.sources, 0, q.items, i);
    QualifiedSame(cat, q.sources, q.sources);
    QualifiedColumnsCheck(cat, q.sources, t.sources, e);
    forall c | c in ExprColumns(e')
      ensures c.qualifier.Some? && !ColumnSensitive(cat, t.sources, c)
    {
      assert CheckColumn(cat, t.sources, c).Ok?;
      assert !ExprSensitive(cat, t.sources, e');
    }
    AgreeSame(cat, q.sources, t.sources, a, b);
    PublicEvalAgrees(it, cat, t.sources, a, b, e');
    EvalQualified(it, cat, q.sources, a, e);
    EvalQualified(it, cat, q.sources, b, e);
  }

  /** Masking is sound: whatever the aliases and the nesting, two row environments that
      agree on all non-sensitive columns give the identical masked output row. */
  lemma MaskingIsSound(cfg: Config, cat: Catalog, sql: string, it: Interp, a: Env, b: Env)
    requires Validate(cfg, cat, sql).Ok?
    requires AgreeOnPublic(cat, ParseSql(sql).value.sources, a, b)
    ensures var v, q := Validate(cfg, cat, sql).value, ParseSql(sql).value;
            && MaskRow(v.projectionSensitive, Project(it, a, q.items)).Some?
            && MaskRow(v.projectionSensitive, Project(it, a, q.items)) ==
               MaskRow(v.projectionSensitive, Project(it, b, q.items))
  {
    var v, q := Validate(cfg, cat, sql).value, ParseSql(sql).value;
    CheckParts(cfg, cat, q);
    var ra, rb := Project(it, a, q.items), Project(it, b, q.items);
    var ma, mb := MaskRow(v.projectionSensitive, ra).value, MaskRow(v.projectionSensitive, rb).value;
    forall i | 0 <= i < |q.items|
      ensures ma[i] == mb[i]
    {
      if !v.projectionSensitive[i] {
        PublicItemAgrees(it, cat, q, i, a, b);
      }
    }
    assert ma == mb;
  }
}
