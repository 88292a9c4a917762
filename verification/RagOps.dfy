/** The RAG operations config row, its audit log, and the runtime snapshot built from it. */
module RagOps {
  import opened Wrappers

  /** The fields an update may touch, in the order the diff visits them. */
  datatype Field =
    | RerankingEnabled | RerankerBackend | RerankerRollout | SemanticCacheEnabled | SemanticCacheThreshold
    | HydeEnabled | HydeRollout | CragEnabled | CragRollout | CragWebEnabled | CragShadowEnabled
    | ReflectiveEnabled | ReflectiveRollout | ReflectiveShadowEnabled | ReflectiveRetrievalEnabled
    | SqlEnabled | SqlRollout | GuardrailMode | GuardrailPolicyVersion

  datatype Value = Flag(on: bool) | Number(n: int) | Fraction(r: real) | Text(s: string)

  type Fields = map<Field, Value>

  const DIFF_FIELDS: seq<Field> := [
    RerankingEnabled, RerankerBackend, RerankerRollout, SemanticCacheEnabled, SemanticCacheThreshold,
    HydeEnabled, HydeRollout, CragEnabled, CragRollout, CragWebEnabled, CragShadowEnabled,
    ReflectiveEnabled, ReflectiveRollout, ReflectiveShadowEnabled, ReflectiveRetrievalEnabled,
    SqlEnabled, SqlRollout, GuardrailMode, GuardrailPolicyVersion]

  predicate IsPercent(v: Value) { v.Number? && 0 <= v.n <= 100 }

  /** The bounds of the request schema and of the table's own checks. */
  predicate InBounds(f: Field, v: Value) {
    match f
    case RerankerRollout => IsPercent(v)
    case HydeRollout => IsPercent(v)
    case CragRollout => IsPercent(v)
    case ReflectiveRollout => IsPercent(v)
    case SqlRollout => IsPercent(v)
    case SemanticCacheThreshold => v.Fraction? && 0.0 <= v.r <= 1.0
    case RerankerBackend => v == Text("local") || v == Text("voyage")
    case GuardrailMode => v == Text("enforce") || v == Text("monitor")
    case GuardrailPolicyVersion => v.Text? && 1 <= |v.s| <= 64
    case _ => v.Flag?
  }

  predicate Bounded(fields: Fields) { forall f :: f in fields ==> InBounds(f, fields[f]) }

  predicate Total(fields: Fields) { forall i :: 0 <= i < |DIFF_FIELDS| ==> DIFF_FIELDS[i] in fields }

  predicate On(fields: Fields, f: Field) { f in fields && fields[f] == Flag(true) }

  /** A sub-flag is on only under its own feature. */
  predicate Dependent(fields: Fields) {
    && (On(fields, CragWebEnabled) ==> On(fields, CragEnabled))
    && (On(fields, CragShadowEnabled) ==> On(fields, CragEnabled))
    && (On(fields, ReflectiveShadowEnabled) ==> On(fields, ReflectiveEnabled))
    && (On(fields, ReflectiveRetrievalEnabled) ==> On(fields, ReflectiveEnabled))
  }

  /** A partial update: an absent field is left as it is. */
  function Merge(fields: Fields, patch: Fields): Fields { fields + patch }

  datatype Row = Row(
    fields: Fields, emergency: bool, lockdown: bool, corpus: int, sqlProposalOnly: bool,
    updatedBy: string, cacheInvalidatedAt: Option<int>)

  // ---------------------------------------------------------------- the audit log

  type Diff = map<Field, (Value, Value)>

  datatype Changes =
    | Updated(diff: Diff)
    | Emergency(on: bool)
    | Lockdown(on: bool)
    | Bumped(source: string, version: int)

  datatype Entry = Entry(actor: string, changes: Changes, reason: Option<string>)

  function DiffOf(before: Fields, after: Fields): Diff {
    map f | f in before && f in after && before[f] != after[f] :: (before[f], after[f])
  }

  lemma {:induction false} FieldListed(f: Field)
    ensures f in DIFF_FIELDS
  {
    assert DIFF_FIELDS[0] == RerankingEnabled && DIFF_FIELDS[1] == RerankerBackend && DIFF_FIELDS[2] == RerankerRollout;
    assert DIFF_FIELDS[3] == SemanticCacheEnabled && DIFF_FIELDS[4] == SemanticCacheThreshold;
    assert DIFF_FIELDS[5] == HydeEnabled;
    assert DIFF_FIELDS[6] == HydeRollout && DIFF_FIELDS[7] == CragEnabled && DIFF_FIELDS[8] == CragRollout;
    assert DIFF_FIELDS[9] == CragWebEnabled && DIFF_FIELDS[10] == CragShadowEnabled;
    assert DIFF_FIELDS[11] == ReflectiveEnabled;
    assert DIFF_FIELDS[12] == ReflectiveRollout && DIFF_FIELDS[13] == ReflectiveShadowEnabled;
    assert DIFF_FIELDS[14] == ReflectiveRetrievalEnabled && DIFF_FIELDS[15] == SqlEnabled;
    assert DIFF_FIELDS[16] == SqlRollout;
    assert DIFF_FIELDS[17] == GuardrailMode && DIFF_FIELDS[18] == GuardrailPolicyVersion;
  }

  lemma AllListed(fields: Fields)
    requires Total(fields)
    ensures forall f :: f in fields
  {
    forall f ensures f in fields {
      FieldListed(f);
      var i :| 0 <= i < |DIFF_FIELDS| && DIFF_FIELDS[i] == f;
    }
  }

  /** The loop over the listed fields records every changed field and no other. */
  method ComputeDiff(before: Fields, after: Fields) returns (changes: Diff)
    requires Total(before) && Total(after)
    ensures changes == DiffOf(before, after)
  {
    changes := map[];
    var i := 0;
    while i < |DIFF_FIELDS|
      invariant 0 <= i <= |DIFF_FIELDS|
      invariant forall f :: f in changes <==> f in DIFF_FIELDS[..i] && f in DiffOf(before, after)
      invariant forall f :: f in changes ==> changes[f] == (before[f], after[f])
    {
      var f := DIFF_FIELDS[i];
      assert forall g :: g in DIFF_FIELDS[..i + 1] <==> g in DIFF_FIELDS[..i] || g == f;
      if before[f] != after[f] { changes := changes[f := (before[f], after[f])]; }
      i := i + 1;
    }
    assert DIFF_FIELDS[..i] == DIFF_FIELDS;
    forall f ensures f in DIFF_FIELDS { FieldListed(f); }
  }

  // ---------------------------------------------------------------- the transactions, as functions

  datatype Error = WebNeedsCrag | ShadowNeedsCrag | ShadowNeedsReflective | RetrievalNeedsReflective | NoVoyage | NoWeb

  /** The dependent-flag checks, in the order the repository makes them. */
  function CheckFlags(fields: Fields): Option<Error> {
    if On(fields, CragWebEnabled) && !On(fields, CragEnabled) then Some(WebNeedsCrag)
    else if On(fields, CragShadowEnabled) && !On(fields, CragEnabled) then Some(ShadowNeedsCrag)
    else if On(fields, ReflectiveShadowEnabled) && !On(fields, ReflectiveEnabled) then Some(ShadowNeedsReflective)
    else if On(fields, ReflectiveRetrievalEnabled) && !On(fields, ReflectiveEnabled) then Some(RetrievalNeedsReflective)
    else None
  }

  lemma FlagsChecked(fields: Fields)
    ensures CheckFlags(fields) == None <==> Dependent(fields)
  {
  }

  datatype State = State(row: Row, audit: seq<Entry>)

  function UpdateState(s: State, patch: Fields, actor: string, reason: Option<string>): State {
    var merged := Merge(s.row.fields, patch);
    if CheckFlags(merged).Some? then s
    else
      var diff := DiffOf(s.row.fields, merged);
      State(s.row.(fields := merged, updatedBy := actor),
            if diff == map[] then s.audit else s.audit + [Entry(actor, Updated(diff), reason)])
  }

  function EmergencyState(s: State, on: bool, actor: string, reason: Option<string>): State {
    State(s.row.(emergency := on, updatedBy := actor), s.audit + [Entry(actor, Emergency(on), reason)])
  }

  function LockdownState(s: State, on: bool, actor: string, reason: Option<string>): State {
    State(s.row.(lockdown := on, updatedBy := actor), s.audit + [Entry(actor, Lockdown(on), reason)])
  }

  function BumpState(s: State, actor: string, source: string): State {
    State(s.row.(corpus := s.row.corpus + 1, updatedBy := actor),
          s.audit + [Entry(actor, Bumped(source, s.row.corpus + 1), None)])
  }

  /** Deliberately unaudited. */
  function InvalidateState(s: State, clock: int): State { s.(row := s.row.(cacheInvalidatedAt := Some(clock))) }

  class RagOpsRepository {
    var row: Row
    var audit: seq<Entry>

    ghost function Now(): State
      reads this
    {
      State(row, audit)
    }

    constructor (row: Row)
      ensures Now() == State(row, [])
    {
      this.row, audit := row, [];
    }

    method UpdateConfig(patch: Fields, actor: string, reason: Option<string>) returns (r: Result<Row, Error>)
      requires Total(row.fields)
      modifies this
      ensures Now() == UpdateState(old(Now()), patch, actor, reason)
      ensures r == match CheckFlags(Merge(old(row.fields), patch))
                   case Some(e) => Failure(e)
                   case None => Success(row)
    {
      var before := row.fields;
      var merged := before + patch;
      var nextCrag, nextWeb := On(merged, CragEnabled), On(merged, CragWebEnabled);
      var nextShadow := On(merged, CragShadowEnabled);
      if nextWeb && !nextCrag { return Failure(WebNeedsCrag); }
      if nextShadow && !nextCrag { return Failure(ShadowNeedsCrag); }
      var nextReflective := On(merged, ReflectiveEnabled);
      if On(merged, ReflectiveShadowEnabled) && !nextReflective { return Failure(ShadowNeedsReflective); }
      if On(merged, ReflectiveRetrievalEnabled) && !nextReflective { return Failure(RetrievalNeedsReflective); }
      row := row.(fields := merged, updatedBy := actor);
      var changes := ComputeDiff(before, merged);
      if changes != map[] { audit := audit + [Entry(actor, Updated(changes), reason)]; }
      return Success(row);
    }

    method SetEmergencyDisabled(on: bool, actor: string, reason: Option<string>)
      modifies this
      ensures Now() == EmergencyState(old(Now()), on, actor, reason)
    {
      row := row.(emergency := on, updatedBy := actor);
      audit := audit + [Entry(actor, Emergency(on), reason)];
    }

    method SetSafetyLockdown(on: bool, actor: string, reason: Option<string>)
      modifies this
      ensures Now() == LockdownState(old(Now()), on, actor, reason)
    {
      row := row.(lockdown := on, updatedBy := actor);
      audit := audit + [Entry(actor, Lockdown(on), reason)];
    }

    method BumpCorpusVersion(actor: string, source: string)
      modifies this
      ensures Now() == BumpState(old(Now()), actor, source)
    {
      row := row.(corpus := row.corpus + 1, updatedBy := actor);
      audit := audit + [Entry(actor, Bumped(source, row.corpus), None)];
    }

    method RecordCacheInvalidation(clock: int)
      modifies this
      ensures Now() == InvalidateState(old(Now()), clock)
    {
      row := row.(cacheInvalidatedAt := Some(clock));
    }
  }

  // ---------------------------------------------------------------- the log replays to the row

  /** What an audit entry says changed, as an update of the audited part of the row. */
  function News(diff: Diff): Fields { map f | f in diff :: diff[f].1 }

  function Replayed(row: Row, e: Entry): Row {
    match e.changes
    case Updated(diff) => row.(fields := row.fields + News(diff))
    case Emergency(on) => row.(emergency := on)
    case Lockdown(on) => row.(lockdown := on)
    case Bumped(_, version) => row.(corpus := version)
  }

  function Replay(row: Row, audit: seq<Entry>): Row {
    if audit == [] then row else Replayed(Replay(row, audit[..|audit| - 1]), audit[|audit| - 1])
  }

  predicate SameAudited(a: Row, b: Row) {
    a.fields == b.fields && a.emergency == b.emergency && a.lockdown == b.lockdown && a.corpus == b.corpus
  }

  /** One admin action; an update is first checked by the controller against a snapshot
      that other workers may have made stale. */
  datatype Step =
    | Update(patch: Fields, snapshot: Row, hasVoyage: bool, webAvailable: bool, actor: string, reason: Option<string>)
    | SetEmergency(on: bool, actor: string, reason: Option<string>)
    | SetLockdown(on: bool, actor: string, reason: Option<string>)
    | Bump(actor: string, source: string)
    | Invalidate(clock: int)

  /** The controller's own checks, on the merge of the patch with what it last read. */
  function ControllerCheck(patch: Fields, snapshot: Row, hasVoyage: bool, webAvailable: bool): Option<Error> {
    if RerankerBackend in patch && patch[RerankerBackend] == Text("voyage") && !hasVoyage then Some(NoVoyage)
    else
      var effective := Merge(snapshot.fields, patch);
      if (On(effective, CragWebEnabled) || On(effective, CragShadowEnabled)) && !On(effective, CragEnabled)
      then Some(WebNeedsCrag)
      else if On(effective, CragWebEnabled) && !webAvailable then Some(NoWeb)
      else if && (On(effective, ReflectiveShadowEnabled) || On(effective, ReflectiveRetrievalEnabled))
              && !On(effective, ReflectiveEnabled)
      then Some(ShadowNeedsReflective)
      else None
  }

  function Next(s: State, step: Step): State {
    match step
    case Update(patch, snapshot, hasVoyage, webAvailable, actor, reason) =>
      if !Bounded(patch) || ControllerCheck(patch, snapshot, hasVoyage, webAvailable).Some? then s
      else UpdateState(s, patch, actor, reason)
    case SetEmergency(on, actor, reason) => EmergencyState(s, on, actor, reason)
    case SetLockdown(on, actor, reason) => LockdownState(s, on, actor, reason)
    case Bump(actor, source) => BumpState(s, actor, source)
    case Invalidate(clock) => InvalidateState(s, clock)
  }

  function Run(row: Row, steps: seq<Step>): State {
    if steps == [] then State(row, []) else Next(Run(row, steps[..|steps| - 1]), steps[|steps| - 1])
  }

  lemma ReplayGrows(row: Row, audit: seq<Entry>, e: Entry)
    ensures Replay(row, audit + [e]) == Replayed(Replay(row, audit), e)
  {
    assert (audit + [e])[..|audit|] == audit;
  }

  lemma DiffRebuilds(before: Fields, after: Fields)
    requires before.Keys == after.Keys
    ensures before + News(DiffOf(before, after)) == after
  {
  }

  lemma TotalMergeKeys(fields: Fields, patch: Fields)
    requires Total(fields)
    ensures Merge(fields, patch).Keys == fields.Keys && Total(Merge(fields, patch))
  {
    AllListed(fields);
  }

  lemma ReplayedSame(a: Row, b: Row, e: Entry)
    requires SameAudited(a, b)
    ensures SameAudited(Replayed(a, e), Replayed(b, e))
  {
  }

  /** Appending an entry that says what happened to the row keeps the log complete. */
  lemma EntryReplays(init: Row, s: State, e: Entry, row: Row)
    requires SameAudited(Replay(init, s.audit), s.row) && SameAudited(Replayed(s.row, e), row)
    ensures SameAudited(Replay(init, s.audit + [e]), row)
  {
    ReplayGrows(init, s.audit, e);
    ReplayedSame(Replay(init, s.audit), s.row, e);
  }

  lemma NothingChanged(before: Fields, after: Fields)
    requires before.Keys == after.Keys && DiffOf(before, after) == map[]
    ensures before == after
  {
    DiffRebuilds(before, after);
    assert before + News(map[]) == before;
  }

  lemma UpdateReplays(init: Row, s: State, patch: Fields, actor: string, reason: Option<string>)
    requires Total(s.row.fields) && SameAudited(Replay(init, s.audit), s.row)
    ensures var s' := UpdateState(s, patch, actor, reason);
            SameAudited(Replay(init, s'.audit), s'.row) && Total(s'.row.fields)
  {
    var merged := Merge(s.row.fields, patch);
    TotalMergeKeys(s.row.fields, patch);
    if CheckFlags(merged).None? {
      var diff, row := DiffOf(s.row.fields, merged), s.row.(fields := merged, updatedBy := actor);
      if diff == map[] {
        NothingChanged(s.row.fields, merged);
      } else {
        DiffRebuilds(s.row.fields, merged);
        EntryReplays(init, s, Entry(actor, Updated(diff), reason), row);
      }
    }
  }

  lemma StepReplays(init: Row, s: State, step: Step)
    requires Total(s.row.fields) && SameAudited(Replay(init, s.audit), s.row)
    ensures var s' := Next(s, step); SameAudited(Replay(init, s'.audit), s'.row) && Total(s'.row.fields)
  {
    match step
    case Update(patch, _, _, _, actor, reason) => UpdateReplays(init, s, patch, actor, reason);
    case SetEmergency(on, actor, reason) =>
      EntryReplays(init, s, Entry(actor, Emergency(on), reason), Next(s, step).row);
    case SetLockdown(on, actor, reason) => EntryReplays(init, s, Entry(actor, Lockdown(on), reason), Next(s, step).row);
    case Bump(actor, source) =>
      EntryReplays(init, s, Entry(actor, Bumped(source, s.row.corpus + 1), None), Next(s, step).row);
    case Invalidate(_) =>
  }

  /** The audit log is complete: from any initial row, folding the recorded new values in
      commit order rebuilds every updatable field, both kill switches and the corpus
      version, whatever the interleaving of updates made from stale snapshots. */
  lemma {:induction false} AuditReplaysToRow(init: Row, steps: seq<Step>)
    requires Total(init.fields)
    ensures Total(Run(init, steps).row.fields)
    ensures SameAudited(Replay(init, Run(init, steps).audit), Run(init, steps).row)
  {
    if steps != [] {
      AuditReplaysToRow(init, steps[..|steps| - 1]);
      StepReplays(init, Run(init, steps[..|steps| - 1]), steps[|steps| - 1]);
    }
  }

  /** The old values chain: what an update entry calls old is what the log up to it says,
      and an entry is written only for a real change. */
  predicate Chained(init: Row, audit: seq<Entry>, i: nat)
    requires i < |audit|
  {
    match audit[i].changes
    case Updated(diff) =>
      && diff != map[]
      && forall f :: f in diff ==>
           && f in Replay(init, audit[..i]).fields && diff[f].0 == Replay(init, audit[..i]).fields[f]
           && diff[f].0 != diff[f].1
    case Bumped(_, version) => version == Replay(init, audit[..i]).corpus + 1
    case _ => true
  }

  lemma {:induction false} OldValuesChain(init: Row, steps: seq<Step>, i: nat)
    requires Total(init.fields) && i < |Run(init, steps).audit|
    ensures Chained(init, Run(init, steps).audit, i)
  {
    var s, step := Run(init, steps[..|steps| - 1]), steps[|steps| - 1];
    var s' := Next(s, step);
    AuditReplaysToRow(init, steps[..|steps| - 1]);
    if i < |s.audit| {
      OldValuesChain(init, steps[..|steps| - 1], i);
      assert s'.audit[..i] == s.audit[..i] && s'.audit[i] == s.audit[i];
    } else {
      assert s'.audit[..i] == s.audit;
    }
  }

  // ---------------------------------------------------------------- reachable rows and the snapshot

  predicate RowOk(row: Row) {
    Total(row.fields) && Bounded(row.fields) && Dependent(row.fields) && row.corpus >= 1 && row.sqlProposalOnly
  }

  lemma UpdateKeepsOk(s: State, patch: Fields, actor: string, reason: Option<string>)
    requires RowOk(s.row) && Bounded(patch)
    ensures RowOk(UpdateState(s, patch, actor, reason).row)
  {
    TotalMergeKeys(s.row.fields, patch);
    FlagsChecked(Merge(s.row.fields, patch));
  }

  /** The bounds and the dependent flags hold in every reachable row, even when each update
      was judged against a stale snapshot, because the repository checks the locked row. */
  lemma {:induction false} ReachableRowsAreOk(init: Row, steps: seq<Step>)
    requires RowOk(init)
    ensures RowOk(Run(init, steps).row)
  {
    if steps != [] {
      ReachableRowsAreOk(init, steps[..|steps| - 1]);
      var s, step := Run(init, steps[..|steps| - 1]), steps[|steps| - 1];
      if step.Update? && Bounded(step.patch) { UpdateKeepsOk(s, step.patch, step.actor, step.reason); }
    }
  }

  datatype Runtime = Runtime(
    fields: Fields, reranking: bool, semanticCache: bool, emergency: bool, lockdown: bool, corpus: int,
    sqlProposalOnly: bool)

  /** The first of the snapshot's own checks that fails. */
  function PostInit(c: Runtime): Option<string>
    requires Total(c.fields)
  {
    AllListed(c.fields);
    if !IsPercent(c.fields[RerankerRollout]) then Some("reranker_rollout_percentage")
    else if !IsPercent(c.fields[HydeRollout]) then Some("hyde_rollout_percentage")
    else if !InBounds(SemanticCacheThreshold, c.fields[SemanticCacheThreshold]) then Some("semantic_cache_threshold")
    else if c.corpus < 1 then Some("corpus_version")
    else if !IsPercent(c.fields[CragRollout]) then Some("crag_rollout_percentage")
    else if On(c.fields, CragWebEnabled) && !On(c.fields, CragEnabled) then Some("crag_web_enabled")
    else if On(c.fields, CragShadowEnabled) && !On(c.fields, CragEnabled) then Some("crag_shadow_enabled")
    else if !IsPercent(c.fields[ReflectiveRollout]) then Some("self_reflective_rollout_percentage")
    else if On(c.fields, ReflectiveShadowEnabled) && !On(c.fields, ReflectiveEnabled)
    then Some("self_reflective_shadow_enabled")
    else if On(c.fields, ReflectiveRetrievalEnabled) && !On(c.fields, ReflectiveEnabled)
    then Some("self_reflective_retrieval_enabled")
    else if !IsPercent(c.fields[SqlRollout]) then Some("sql_rollout_percentage")
    else if !c.sqlProposalOnly then Some("sql_proposal_only")
    else if !InBounds(GuardrailMode, c.fields[GuardrailMode]) then Some("guardrail_mode")
    else None
  }

  /** The snapshot pushed to request paths: the emergency switch is folded into reranking
      and the semantic cache, and left beside every other flag. */
  function Snapshot(row: Row): Runtime {
    Runtime(row.fields,
            On(row.fields, RerankingEnabled) && !row.emergency, On(row.fields, SemanticCacheEnabled) && !row.emergency,
            row.emergency, row.lockdown, row.corpus, row.sqlProposalOnly)
  }

  lemma PercentsInBounds(fields: Fields)
    requires Total(fields) && Bounded(fields)
    ensures forall f :: f in fields
    ensures IsPercent(fields[RerankerRollout]) && IsPercent(fields[HydeRollout]) && IsPercent(fields[CragRollout])
    ensures IsPercent(fields[ReflectiveRollout]) && IsPercent(fields[SqlRollout])
  {
    AllListed(fields);
    assert InBounds(RerankerRollout, fields[RerankerRollout]) && InBounds(HydeRollout, fields[HydeRollout]);
    assert InBounds(CragRollout, fields[CragRollout]) && InBounds(ReflectiveRollout, fields[ReflectiveRollout]);
    assert InBounds(SqlRollout, fields[SqlRollout]);
  }

  /** Building the runtime snapshot never raises, in any reachable state. */
  lemma SnapshotNeverRaises(init: Row, steps: seq<Step>)
    requires RowOk(init)
    ensures Total(Run(init, steps).row.fields) && PostInit(Snapshot(Run(init, steps).row)) == None
  {
    ReachableRowsAreOk(init, steps);
    OkRowSnapshot(Run(init, steps).row);
  }

  lemma OkRowSnapshot(row: Row)
    requires RowOk(row)
    ensures PostInit(Snapshot(row)) == None
  {
    PercentsInBounds(row.fields);
    assert InBounds(GuardrailMode, row.fields[GuardrailMode]);
    assert InBounds(SemanticCacheThreshold, row.fields[SemanticCacheThreshold]);
  }

  // ---------------------------------------------------------------- the controller

  class RagRuntimeConfigStore {
    var current: Runtime

    constructor (initial: Runtime)
      ensures current == initial
    {
      current := initial;
    }

    method Replace(next: Runtime)
      modifies this
      ensures current == next
    {
      current := next;
    }
  }

  class RagOpsController {
    const repository: RagOpsRepository
    const store: RagRuntimeConfigStore
    const hasVoyage: bool
    const webAvailable: bool

    constructor (repository: RagOpsRepository, store: RagRuntimeConfigStore, hasVoyage: bool, webAvailable: bool)
      ensures this.repository == repository && this.store == store
      ensures this.hasVoyage == hasVoyage && this.webAvailable == webAvailable
    {
      this.repository, this.store, this.hasVoyage, this.webAvailable := repository, store, hasVoyage, webAvailable;
    }

    /** The update is the transaction above; it is pushed to the request paths exactly when
        it is accepted, and a refused one changes neither the row nor the snapshot. */
    method UpdateConfig(patch: Fields, snapshot: Row, actor: string, reason: Option<string>)
        returns (error: Option<Error>)
      requires RowOk(repository.row) && Bounded(patch)
      modifies repository, store
      ensures repository.Now() ==
        Next(old(repository.Now()), Update(patch, snapshot, hasVoyage, webAvailable, actor, reason))
      ensures RowOk(repository.row)
      ensures error.None? ==> store.current == Snapshot(repository.row) && PostInit(store.current) == None
      ensures error.Some? ==> repository.Now() == old(repository.Now()) && store.current == old(store.current)
    {
      error := ControllerCheck(patch, snapshot, hasVoyage, webAvailable);
      if error.Some? { return; }
      ghost var before := repository.Now();
      UpdateKeepsOk(before, patch, actor, reason);
      var r := repository.UpdateConfig(patch, actor, reason);
      if r.Failure? { return Some(r.error); }
      store.Replace(Snapshot(r.value));
      OkRowSnapshot(repository.row);
    }
  }
}
