/** The proposal table, the approval path over it, and the protocol that many workers,
    owners and the background reclaimer run against it. */
module SqlProposals {
  import opened Wrappers
  import opened Numerals
  import opened Separators
  import opened SqlText
  import opened SqlPolicy

  type Id = nat

  datatype Status = Proposed | Executing | Executed | Rejected | Expired | Failed

  /** What is recorded of a finished execution: when, how many rows, how long it took. */
  datatype Execution = Execution(at: int, rowCount: nat, executionMs: real)

  datatype Row = Row(
    username: string, sql: string, fingerprint: string, catalogVersion: nat, status: Status, expiresAt: int,
    approvedAt: Option<int>, errorCode: Option<string>, execution: Option<Execution>)

  type Table = map<Id, Row>

  datatype Refusal = NotFound | AlreadyConsumed | ProposalExpired | NotPending | DuplicateId

  datatype Locking = Granted(row: Row) | Refused(why: Refusal)

  // ---------------------------------------------------------------- the transactions, as functions

  function LockRow(p: Row, user: string, now: int): Locking {
    if p.username != user then Refused(NotFound)
    else if p.status != Proposed then Refused(AlreadyConsumed)
    else if p.expiresAt <= now then Refused(ProposalExpired)
    else Granted(p.(status := Executing))
  }

  function AfterLock(p: Row, user: string, now: int, clock: int): Row {
    match LockRow(p, user, now)
    case Granted(_) => p.(status := Executing, approvedAt := Some(clock))
    case Refused(ProposalExpired) => p.(status := Expired)
    case Refused(_) => p
  }

  function LockResult(rows: Table, id: Id, user: string, now: int): Locking {
    if id in rows then LockRow(rows[id], user, now) else Refused(NotFound)
  }

  function LockRows(rows: Table, id: Id, user: string, now: int, clock: int): Table {
    if id in rows then rows[id := AfterLock(rows[id], user, now, clock)] else rows
  }

  /** The two terminal updates carry no status guard: they overwrite whatever is there. */
  function ExecutedRow(p: Row, e: Execution): Row { p.(status := Executed, execution := Some(e)) }

  function ExecutedRows(rows: Table, id: Id, e: Execution): Table {
    if id in rows then rows[id := ExecutedRow(rows[id], e)] else rows
  }

  function FailedRow(p: Row, code: string): Row { p.(status := Failed, errorCode := Some(code)) }

  function FailedRows(rows: Table, id: Id, code: string): Table {
    if id in rows then rows[id := FailedRow(rows[id], code)] else rows
  }

  predicate Pending(p: Row, user: string) { p.username == user && p.status == Proposed }

  function RejectedRows(rows: Table, id: Id, user: string): Table {
    if id in rows && Pending(rows[id], user) then rows[id := rows[id].(status := Rejected)] else rows
  }

  predicate Stale(p: Row, age: int, clock: int) {
    p.status == Executing && p.approvedAt.Some? && p.approvedAt.value < clock - age
  }

  function ReclaimedRow(p: Row, age: int, clock: int): Row {
    if Stale(p, age, clock) then FailedRow(p, "stale_execution_reclaimed") else p
  }

  function ReclaimedRows(rows: Table, age: int, clock: int): Table {
    map id | id in rows :: ReclaimedRow(rows[id], age, clock)
  }

  // ---------------------------------------------------------------- the repository

  class ProposalRepository {
    var rows: Table

    constructor ()
      ensures rows == map[]
    {
      rows := map[];
    }

    method Create(id: Id, row: Row) returns (ok: bool)
      modifies this
      ensures ok <==> id !in old(rows)
      ensures rows == if ok then old(rows)[id := row] else old(rows)
    {
      ok := id !in rows;
      if ok { rows := rows[id := row]; }
    }

    method LockForExecution(id: Id, user: string, now: int, clock: int) returns (r: Locking)
      modifies this
      ensures r == LockResult(old(rows), id, user, now)
      ensures rows == LockRows(old(rows), id, user, now, clock)
    {
      if id !in rows || rows[id].username != user { return Refused(NotFound); }
      var proposal := rows[id];
      if proposal.status != Proposed { return Refused(AlreadyConsumed); }
      if proposal.expiresAt <= now {
        rows := rows[id := proposal.(status := Expired)];
        return Refused(ProposalExpired);
      }
      rows := rows[id := proposal.(status := Executing, approvedAt := Some(clock))];
      return Granted(proposal.(status := Executing));
    }

    method MarkExecuted(id: Id, clock: int, rowCount: nat, executionMs: real)
      modifies this
      ensures rows == ExecutedRows(old(rows), id, Execution(clock, rowCount, executionMs))
    {
      if id in rows {
        var done := Execution(clock, rowCount, executionMs);
        rows := rows[id := rows[id].(status := Executed, execution := Some(done))];
      }
    }

    method MarkFailed(id: Id, code: string)
      modifies this
      ensures rows == FailedRows(old(rows), id, code)
    {
      if id in rows { rows := rows[id := rows[id].(status := Failed, errorCode := Some(code))]; }
    }

    method Reject(id: Id, user: string) returns (r: Option<Refusal>)
      modifies this
      ensures r == if id in old(rows) && Pending(old(rows)[id], user) then None else Some(NotPending)
      ensures rows == RejectedRows(old(rows), id, user)
    {
      var updated := 0;
      if id in rows && rows[id].username == user && rows[id].status == Proposed {
        rows := rows[id := rows[id].(status := Rejected)];
        updated := 1;
      }
      return if updated == 0 then Some(NotPending) else None;
    }

    method ReclaimStaleExecuting(age: int, clock: int) returns (reclaimed: nat)
      modifies this
      ensures rows == ReclaimedRows(old(rows), age, clock)
      ensures reclaimed == |set id | id in old(rows) && Stale(old(rows)[id], age, clock)|
    {
      var stale := set id | id in rows && Stale(rows[id], age, clock);
      rows := map id | id in rows ::
        if id in stale then rows[id].(status := Failed, errorCode := Some("stale_execution_reclaimed")) else rows[id];
      reclaimed := |stale|;
    }
  }

  // ---------------------------------------------------------------- proposing

  /** One generation attempt: the policy pass, then the planner's cost gate. */
  datatype AttemptError = Policy(code: Code) | Planner(reason: string)

  datatype Attempt = Accepted(v: Validated) | Refuse(why: AttemptError)

  function TryText(cfg: Config, cat: Catalog, explain: Validated -> Option<string>, sql: string): Attempt {
    match Validate(cfg, cat, sql)
    case Err(c) => Refuse(Policy(c))
    case Ok(v) =>
      match explain(v)
      case Some(code) => Refuse(Planner(code))
      case None => Accepted(v)
  }

  function LastError(attempts: seq<Attempt>): Option<AttemptError> {
    if attempts != [] && attempts[|attempts| - 1].Refuse? then Some(attempts[|attempts| - 1].why) else None
  }

  /** The first `n` attempts, each told why the one before it failed. */
  function Attempts(attempt: string -> Attempt, gen: (nat, Option<AttemptError>) -> string, n: nat): (r: seq<Attempt>)
    ensures |r| == n
  {
    if n == 0 then []
    else
      var earlier := Attempts(attempt, gen, n - 1);
      earlier + [attempt(gen(n - 1, LastError(earlier)))]
  }

  /** The correction loop returns the first attempt that passes policy and planner, or,
      after exactly `maxAttempts` refusals, the last refusal. */
  method Propose(attempt: string -> Attempt, gen: (nat, Option<AttemptError>) -> string, maxAttempts: nat)
      returns (r: Option<Validated>, calls: nat, last: Option<AttemptError>)
    ensures calls <= maxAttempts
    ensures r.Some? ==> calls > 0 && Attempts(attempt, gen, calls)[calls - 1] == Accepted(r.value)
    ensures forall i :: 0 <= i < (if r.Some? then calls - 1 else calls) ==> Attempts(attempt, gen, calls)[i].Refuse?
    ensures r.None? ==> calls == maxAttempts && last == LastError(Attempts(attempt, gen, maxAttempts))
  {
    r, calls, last := None, 0, None;
    while calls < maxAttempts
      invariant calls <= maxAttempts && r.None?
      invariant last == LastError(Attempts(attempt, gen, calls))
      invariant forall i :: 0 <= i < calls ==> Attempts(attempt, gen, calls)[i].Refuse?
    {
      var outcome := attempt(gen(calls, last));
      calls := calls + 1;
      match outcome {
        case Accepted(v) => r := Some(v); return;
        case Refuse(why) => last := Some(why);
      }
    }
  }

  // ---------------------------------------------------------------- approval checks

  datatype Verdict = Cleared(v: Validated) | Denied(code: string)

  /** The checks between taking the row and touching the analytics database. */
  function Decide(cfg: Config, cat: Catalog, p: Row): Verdict {
    if cat.version != p.catalogVersion then Denied("catalog_changed")
    else match Validate(cfg, cat, p.sql)
      case Err(_) => Denied("policy_violation")
      case Ok(v) => if v.fingerprint != p.fingerprint then Denied("fingerprint_mismatch") else Cleared(v)
  }

  function ProposalRow(user: string, v: Validated, cat: Catalog, expiresAt: int): Row {
    Row(user, v.sql, v.fingerprint, cat.version, Proposed, expiresAt, None, None, None)
  }

  /** An approval under the catalogue and config the proposal was made with never denies
      it, and clears exactly the stored record. */
  lemma UnchangedApprovalClears(
      cfg: Config, cat: Catalog, explain: Validated -> Option<string>, sql: string, user: string, expiresAt: int)
    requires TryText(cfg, cat, explain, sql).Accepted?
    ensures var v := TryText(cfg, cat, explain, sql).v;
            Decide(cfg, cat, ProposalRow(user, v, cat, expiresAt)) == Cleared(v)
  {
    RevalidationIsFixpoint(cfg, cat, sql);
  }

  lemma ValidatedFingerprint(cfg: Config, cat: Catalog, sql: string)
    requires Validate(cfg, cat, sql).Ok?
    ensures Validate(cfg, cat, sql).value.fingerprint == Fingerprint(cfg, cat, Validate(cfg, cat, sql).value.sql)
  {
  }

  lemma FingerprintBinds(cfg: Config, cat: Catalog, text: string, cfg': Config, cat': Catalog, text': string)
    requires NulFree(cfg.policyVersion) && NulFree(cfg'.policyVersion)
    requires Fingerprint(cfg, cat, text) == Fingerprint(cfg', cat', text')
    ensures cfg.policyVersion == cfg'.policyVersion && cat.version == cat'.version && text == text'
  {
    var x, y := Decimal(cat.version) + "\0" + text, Decimal(cat'.version) + "\0" + text';
    assert Fingerprint(cfg, cat, text) == cfg.policyVersion + "\0" + x;
    assert Fingerprint(cfg', cat', text') == cfg'.policyVersion + "\0" + y;
    HeadUnique('\0', cfg.policyVersion, x, cfg'.policyVersion, y);
    DecimalNulFree(cat.version);
    DecimalNulFree(cat'.version);
    HeadUnique('\0', Decimal(cat.version), text, Decimal(cat'.version), text');
    DecimalInjective(cat.version, cat'.version);
  }

  lemma DecimalNulFree(n: nat)
    ensures NulFree(Decimal(n))
  {
    assert AllDigits(Decimal(n));
  }

  /** The fingerprint binds the text: whatever changed in between, a row that is cleared
      runs the very text it stores. */
  lemma ClearedRunsStoredText(cfg0: Config, cat0: Catalog, cfg: Config, cat: Catalog, p: Row)
    requires NulFree(cfg0.policyVersion) && NulFree(cfg.policyVersion)
    requires p.fingerprint == Fingerprint(cfg0, cat0, p.sql)
    requires Decide(cfg, cat, p).Cleared?
    ensures Decide(cfg, cat, p).v.sql == p.sql
  {
    ValidatedFingerprint(cfg, cat, p.sql);
    FingerprintBinds(cfg0, cat0, p.sql, cfg, cat, Decide(cfg, cat, p).v.sql);
  }

  // ---------------------------------------------------------------- one approval, start to end

  /** What the analytics database and the answerer do with a cleared query. */
  datatype Backend =
    | PlanRejected(code: string)
    | ExecutionFailed(code: string)
    | PostFailed
    | Completed(done: Execution)

  /** What may raise outside every handler of an approval: reading the catalogue after the
      lock, and the update that closes the row. */
  datatype Surroundings = Surroundings(catalog: Option<Catalog>, closingRaises: bool)

  datatype Approval = Disabled | NotGranted(why: Refusal) | Denial(code: string) | Done | Raised

  /** The row effect once the row is locked and the catalogue is read. */
  function ClosedRows(locked: Table, id: Id, p: Row, cfg: Config, cat: Catalog, backend: Backend): Table {
    match Decide(cfg, cat, p)
    case Denied(code) => FailedRows(locked, id, code)
    case Cleared(_) =>
      match backend
      case PlanRejected(code) => FailedRows(locked, id, code)
      case ExecutionFailed(code) => FailedRows(locked, id, code)
      case PostFailed => FailedRows(locked, id, "post_execution_failure")
      case Completed(done) => ExecutedRows(locked, id, done)
  }

  /** The request took the row and then raised where nothing catches it. */
  predicate Stranded(rows: Table, enabled: bool, id: Id, user: string, now: int, sur: Surroundings) {
    enabled && LockResult(rows, id, user, now).Granted? && (sur.catalog.None? || sur.closingRaises)
  }

  function ApprovalRows(
      rows: Table, enabled: bool, id: Id, user: string, now: int, clock: int,
      cfg: Config, sur: Surroundings, backend: Backend): Table
  {
    if !enabled then rows
    else
      var locked := LockRows(rows, id, user, now, clock);
      match LockResult(rows, id, user, now)
      case Refused(_) => locked
      case Granted(p) =>
        if sur.catalog.None? || sur.closingRaises then locked
        else ClosedRows(locked, id, p, cfg, sur.catalog.value, backend)
  }

  predicate IsExecuting(rows: Table, id: Id) { id in rows && rows[id].status == Executing }

  method FailRow(repo: ProposalRepository, id: Id, code: string, raises: bool) returns (r: Approval)
    modifies repo
    ensures r == if raises then Raised else Denial(code)
    ensures repo.rows == if raises then old(repo.rows) else FailedRows(old(repo.rows), id, code)
  {
    if raises { return Raised; }
    repo.MarkFailed(id, code);
    return Denial(code);
  }

  /** One approval request that runs to its end or to an exception. It leaves its row newly
      in EXECUTING exactly when it took the lock and then raised where nothing catches it;
      it runs SQL only for a cleared row, and a disabled one touches nothing. */
  method ApproveAndExecute(
      repo: ProposalRepository, enabled: bool, id: Id, user: string, now: int, clock: int,
      cfg: Config, sur: Surroundings, backend: Backend)
      returns (r: Approval, ran: Option<string>)
    modifies repo
    ensures repo.rows == ApprovalRows(old(repo.rows), enabled, id, user, now, clock, cfg, sur, backend)
    ensures r == Raised <==> Stranded(old(repo.rows), enabled, id, user, now, sur)
    ensures IsExecuting(repo.rows, id) && !IsExecuting(old(repo.rows), id) <==> r == Raised
    ensures r == Done ==> id in repo.rows && repo.rows[id].status == Executed && backend.Completed?
    ensures r == Done ==> repo.rows[id].execution == Some(backend.done)
    ensures ran.Some? ==> enabled && LockResult(old(repo.rows), id, user, now).Granted? && sur.catalog.Some?
    ensures ran.Some? ==>
      var verdict := Decide(cfg, sur.catalog.value, LockResult(old(repo.rows), id, user, now).row);
      verdict.Cleared? && ran.value == verdict.v.sql
  {
    ran := None;
    if !enabled { return Disabled, None; }
    var lock := repo.LockForExecution(id, user, now, clock);
    if lock.Refused? { return NotGranted(lock.why), None; }
    if sur.catalog.None? { return Raised, None; }
    r, ran := RunLocked(repo, id, lock.row, cfg, sur.catalog.value, backend, sur.closingRaises);
  }

  /** The part of an approval that has the row and the catalogue. */
  method RunLocked(
      repo: ProposalRepository, id: Id, p: Row, cfg: Config, cat: Catalog, backend: Backend, raises: bool)
      returns (r: Approval, ran: Option<string>)
    requires id in repo.rows
    modifies repo
    ensures repo.rows == if raises then old(repo.rows) else ClosedRows(old(repo.rows), id, p, cfg, cat, backend)
    ensures r.Raised? || r.Denial? || r == Done
    ensures r == Raised <==> raises
    ensures r == Done ==> backend.Completed? && Decide(cfg, cat, p).Cleared?
    ensures ran.Some? ==> Decide(cfg, cat, p).Cleared? && ran.value == Decide(cfg, cat, p).v.sql
  {
    ran := None;
    var verdict := Decide(cfg, cat, p);
    if verdict.Denied? {
      r := FailRow(repo, id, verdict.code, raises);
      return;
    }
    match backend {
      case PlanRejected(code) => r := FailRow(repo, id, code, raises);
      case ExecutionFailed(code) =>
        ran := Some(verdict.v.sql);
        r := FailRow(repo, id, code, raises);
      case PostFailed =>
        ran := Some(verdict.v.sql);
        r := FailRow(repo, id, "post_execution_failure", raises);
      case Completed(done) =>
        ran := Some(verdict.v.sql);
        if raises { return Raised, ran; }
        repo.MarkExecuted(id, done.at, done.rowCount, done.executionMs);
        r := Done;
    }
  }

  // ---------------------------------------------------------------- the protocol

  /** One entry of a row's status history; the reclaimer's FAILED is told apart. */
  datatype Mark = PROPOSED | REJECTED | EXPIRED | EXECUTING | EXECUTED | FAILED | RECLAIMED

  /** Where a worker stands inside one approval. */
  datatype Phase = Holding | Ready(text: string) | Ran

  datatype Holder = Holder(proposal: Row, phase: Phase)

  /** One proposal: its row, every status it has had, every text the analytics database
      was asked to run for it, and the workers now inside an approval of it. */
  datatype Proposal = Proposal(row: Row, marks: seq<Mark>, runs: seq<string>, holders: map<nat, Holder>)

  /** One committed transaction, or the end of a worker that died or raised on the way. */
  datatype Action =
    | Lock(w: nat, user: string, now: int, clock: int)
    | Check(w: nat, cfg: Config, cat: Catalog)
    | Plan(w: nat, rejected: Option<string>)
    | Finish(w: nat, outcome: Result<Execution, string>)
    | Crash(w: nat)
    | OwnerReject(user: string)

  datatype Step =
    | Submit(id: Id, user: string, cfg: Config, cat: Catalog, text: string, expiresAt: int)
    | Act(id: Id, action: Action)
    | Reclaim(age: int, clock: int)

  type State = map<Id, Proposal>

  function WorkerFails(c: Proposal, w: nat, code: string): Proposal {
    Proposal(FailedRow(c.row, code), c.marks + [FAILED], c.runs, c.holders - {w})
  }

  /** What one action does to one proposal; an action whose guard fails does nothing. */
  function Acted(c: Proposal, a: Action): Proposal {
    match a
    case Lock(w, user, now, clock) =>
      if w in c.holders then c
      else (match LockRow(c.row, user, now)
            case Granted(p) =>
              var locked := AfterLock(c.row, user, now, clock);
              Proposal(locked, c.marks + [EXECUTING], c.runs, c.holders[w := Holder(p, Holding)])
            case Refused(ProposalExpired) => c.(row := AfterLock(c.row, user, now, clock), marks := c.marks + [EXPIRED])
            case Refused(_) => c)
    case Check(w, cfg, cat) =>
      if w !in c.holders || c.holders[w].phase != Holding || !NulFree(cfg.policyVersion) then c
      else (match Decide(cfg, cat, c.holders[w].proposal)
            case Denied(code) => WorkerFails(c, w, code)
            case Cleared(v) => c.(holders := c.holders[w := c.holders[w].(phase := Ready(v.sql))]))
    case Plan(w, rejected) =>
      if w !in c.holders || !c.holders[w].phase.Ready? then c
      else (match rejected
            case Some(code) => WorkerFails(c, w, code)
            case None =>
              c.(runs := c.runs + [c.holders[w].phase.text], holders := c.holders[w := c.holders[w].(phase := Ran)]))
    case Finish(w, outcome) =>
      if w !in c.holders || c.holders[w].phase != Ran then c
      else (match outcome
            case Failure(code) => WorkerFails(c, w, code)
            case Success(done) => Proposal(ExecutedRow(c.row, done), c.marks + [EXECUTED], c.runs, c.holders - {w}))
    case Crash(w) => c.(holders := c.holders - {w})
    case OwnerReject(user) =>
      if Pending(c.row, user) then c.(row := c.row.(status := Rejected), marks := c.marks + [REJECTED]) else c
  }

  function Reclaimed(c: Proposal, age: int, clock: int): Proposal {
    if Stale(c.row, age, clock) then c.(row := ReclaimedRow(c.row, age, clock), marks := c.marks + [RECLAIMED]) else c
  }

  function Next(s: State, step: Step): State {
    match step
    case Submit(id, user, cfg, cat, text, expiresAt) =>
      if id in s || Validate(cfg, cat, text).Err? || !NulFree(cfg.policyVersion) then s
      else s[id := Proposal(ProposalRow(user, Validate(cfg, cat, text).value, cat, expiresAt), [PROPOSED], [], map[])]
    case Act(id, a) => if id in s then s[id := Acted(s[id], a)] else s
    case Reclaim(age, clock) => map id | id in s :: Reclaimed(s[id], age, clock)
  }

  function Run(steps: seq<Step>): State {
    if steps == [] then map[] else Next(Run(steps[..|steps| - 1]), steps[|steps| - 1])
  }

  // ---------------------------------------------------------------- the steps are the transactions

  function Rows(s: State): Table { map id | id in s :: s[id].row }

  /** What each step does to the stored table is the repository transaction of that name. */
  lemma LockStepIsTransaction(s: State, id: Id, w: nat, user: string, now: int, clock: int)
    requires id in s && w !in s[id].holders
    ensures Rows(Next(s, Act(id, Lock(w, user, now, clock)))) == LockRows(Rows(s), id, user, now, clock)
    ensures w in Next(s, Act(id, Lock(w, user, now, clock)))[id].holders <==>
            LockResult(Rows(s), id, user, now).Granted?
  {
  }

  lemma RejectStepIsTransaction(s: State, id: Id, user: string)
    ensures Rows(Next(s, Act(id, OwnerReject(user)))) == RejectedRows(Rows(s), id, user)
  {
    var s' := Next(s, Act(id, OwnerReject(user)));
    assert Rows(s').Keys == RejectedRows(Rows(s), id, user).Keys;
  }

  lemma ReclaimStepIsTransaction(s: State, age: int, clock: int)
    ensures Rows(Next(s, Reclaim(age, clock))) == ReclaimedRows(Rows(s), age, clock)
  {
  }

  lemma FinishStepIsTransaction(s: State, id: Id, w: nat, outcome: Result<Execution, string>)
    requires id in s && w in s[id].holders && s[id].holders[w].phase == Ran
    ensures Rows(Next(s, Act(id, Finish(w, outcome)))) ==
      if outcome.Success? then ExecutedRows(Rows(s), id, outcome.value) else FailedRows(Rows(s), id, outcome.error)
  {
  }

  // ---------------------------------------------------------------- the invariant

  /** PROPOSED then REJECTED, or EXPIRED, or EXECUTING then at most one reclaim then at
      most one terminal status written by the worker; every prefix included. */
  predicate Lawful(h: seq<Mark>) {
    && 1 <= |h| <= 4 && h[0] == PROPOSED
    && (|h| >= 2 ==> h[1] == REJECTED || h[1] == EXPIRED || h[1] == EXECUTING)
    && (|h| >= 3 ==> h[1] == EXECUTING && (h[2] == RECLAIMED || h[2] == FAILED || h[2] == EXECUTED))
    && (|h| == 4 ==> h[2] == RECLAIMED && (h[3] == FAILED || h[3] == EXECUTED))
  }

  /** Still open for the worker that took the row. */
  predicate Open(h: seq<Mark>) {
    (|h| == 2 && h[1] == EXECUTING) || (|h| == 3 && h[2] == RECLAIMED)
  }

  function StatusOf(m: Mark): Status {
    match m
    case PROPOSED => Proposed case REJECTED => Rejected case EXPIRED => Expired
    case EXECUTING => Executing case EXECUTED => Executed case FAILED => Failed case RECLAIMED => Failed
  }

  /** The stored fingerprint was taken of the stored text under some config and catalogue. */
  ghost predicate Bound(sql: string, fingerprint: string) {
    exists cfg: Config, cat :: NulFree(cfg.policyVersion) && fingerprint == Fingerprint(cfg, cat, sql)
  }

  predicate HolderInv(c: Proposal, h: Holder) {
    && h.proposal.sql == c.row.sql && h.proposal.fingerprint == c.row.fingerprint
    && (h.phase != Ran ==> c.runs == [])
    && (h.phase.Ready? ==> h.phase.text == c.row.sql)
  }

  ghost predicate Inv(c: Proposal) {
    && Lawful(c.marks)
    && c.row.status == StatusOf(c.marks[|c.marks| - 1])
    && Bound(c.row.sql, c.row.fingerprint)
    && (c.runs == [] || (c.runs == [c.row.sql] && |c.marks| >= 2 && c.marks[1] == EXECUTING))
    && (forall v, w :: v in c.holders && w in c.holders ==> v == w)
    && (forall w :: w in c.holders ==> Open(c.marks) && HolderInv(c, c.holders[w]))
  }

  /** What a worker is cleared to run is the stored text. */
  lemma ClearedHolderText(c: Proposal, w: nat, cfg: Config, cat: Catalog)
    requires Inv(c) && w in c.holders && NulFree(cfg.policyVersion)
    requires Decide(cfg, cat, c.holders[w].proposal).Cleared?
    ensures Decide(cfg, cat, c.holders[w].proposal).v.sql == c.row.sql
  {
    var cfg0: Config, cat0 :| NulFree(cfg0.policyVersion) && c.row.fingerprint == Fingerprint(cfg0, cat0, c.row.sql);
    assert HolderInv(c, c.holders[w]);
    ClearedRunsStoredText(cfg0, cat0, cfg, cat, c.holders[w].proposal);
  }

  lemma LockKeepsInv(c: Proposal, a: Action)
    requires Inv(c) && a.Lock?
    ensures Inv(Acted(c, a))
  {
    if c.row.status == Proposed {
      assert |c.marks| == 1;
      assert forall w :: w in c.holders ==> Open(c.marks);
    }
  }

  /** The worker that still holds the row may close it, and then nobody holds it. */
  lemma ClosingKeepsInv(c: Proposal, c': Proposal, w: nat)
    requires Inv(c) && w in c.holders && c'.holders == c.holders - {w} && c'.runs == c.runs
    requires c'.row.sql == c.row.sql && c'.row.fingerprint == c.row.fingerprint
    requires |c'.marks| == |c.marks| + 1 && c'.marks[..|c.marks|] == c.marks
    requires c'.marks[|c.marks|] == FAILED || c'.marks[|c.marks|] == EXECUTED
    requires c'.row.status == StatusOf(c'.marks[|c.marks|])
    ensures Inv(c')
  {
    assert Open(c.marks) && HolderInv(c, c.holders[w]);
    assert forall i :: 0 <= i < |c.marks| ==> c'.marks[i] == c.marks[i];
  }

  lemma HolderReadyKeepsInv(c: Proposal, w: nat)
    requires Inv(c) && w in c.holders && c.holders[w].phase == Holding
    ensures Inv(c.(holders := c.holders[w := c.holders[w].(phase := Ready(c.row.sql))]))
  {
    assert HolderInv(c, c.holders[w]);
  }

  lemma CheckKeepsInv(c: Proposal, w: nat, cfg: Config, cat: Catalog)
    requires Inv(c) && w in c.holders && c.holders[w].phase == Holding && NulFree(cfg.policyVersion)
    ensures Inv(Acted(c, Check(w, cfg, cat)))
  {
    match Decide(cfg, cat, c.holders[w].proposal)
    case Denied(code) => ClosingKeepsInv(c, WorkerFails(c, w, code), w);
    case Cleared(v) =>
      ClearedHolderText(c, w, cfg, cat);
      HolderReadyKeepsInv(c, w);
  }

  lemma PlanKeepsInv(c: Proposal, a: Action)
    requires Inv(c) && a.Plan? && a.w in c.holders && c.holders[a.w].phase.Ready?
    ensures Inv(Acted(c, a))
  {
    assert Open(c.marks) && HolderInv(c, c.holders[a.w]);
    if a.rejected.Some? { ClosingKeepsInv(c, Acted(c, a), a.w); }
  }

  lemma CrashKeepsInv(c: Proposal, w: nat)
    requires Inv(c)
    ensures Inv(Acted(c, Crash(w)))
  {
    assert forall v :: v in c.holders ==> HolderInv(c, c.holders[v]);
  }

  /** A row that is still pending has no holder. */
  lemma OwnerRejectKeepsInv(c: Proposal, a: Action)
    requires Inv(c) && a.OwnerReject? && Pending(c.row, a.user)
    ensures Inv(Acted(c, a))
  {
    assert |c.marks| == 1;
    assert forall w :: w in c.holders ==> Open(c.marks);
  }

  lemma ActedKeepsInv(c: Proposal, a: Action)
    requires Inv(c)
    ensures Inv(Acted(c, a))
  {
    if Acted(c, a) != c {
      match a
      case Lock(_, _, _, _) => LockKeepsInv(c, a);
      case Check(w, cfg, cat) => CheckKeepsInv(c, w, cfg, cat);
      case Plan(_, _) => PlanKeepsInv(c, a);
      case Finish(w, _) => ClosingKeepsInv(c, Acted(c, a), w);
      case Crash(w) => CrashKeepsInv(c, w);
      case OwnerReject(_) => OwnerRejectKeepsInv(c, a);
    }
  }

  lemma ReclaimedKeepsInv(c: Proposal, age: int, clock: int)
    requires Inv(c)
    ensures Inv(Reclaimed(c, age, clock))
  {
    assert forall w :: w in c.holders ==> HolderInv(c, c.holders[w]);
  }

  lemma SubmittedInv(s: State, step: Step)
    requires step.Submit? && step.id !in s && step.id in Next(s, step)
    ensures Inv(Next(s, step)[step.id])
  {
    ValidatedFingerprint(step.cfg, step.cat, step.text);
    var row := Next(s, step)[step.id].row;
    assert row.fingerprint == Fingerprint(step.cfg, step.cat, row.sql);
  }

  // ---------------------------------------------------------------- every run

  lemma {:induction false} RunKeepsInv(steps: seq<Step>, id: Id)
    requires id in Run(steps)
    ensures Inv(Run(steps)[id])
  {
    var before, step := Run(steps[..|steps| - 1]), steps[|steps| - 1];
    if id in before { RunKeepsInv(steps[..|steps| - 1], id); }
    match step
    case Submit(_, _, _, _, _, _) => if id !in before { SubmittedInv(before, step); }
    case Act(i, a) => if i == id { ActedKeepsInv(before[id], a); }
    case Reclaim(age, clock) => ReclaimedKeepsInv(before[id], age, clock);
  }

  lemma ExecutedNeverWithdrawn(h: seq<Mark>)
    requires Lawful(h) && |h| >= 2 && h[1] == EXECUTING
    ensures forall i :: 0 <= i < |h| ==> h[i] != REJECTED && h[i] != EXPIRED
  {
  }

  /** The history is lawful and ends in the stored status; the SQL ran at most once, and
      what ran is the stored text; it ran only after the row was locked, so never for a
      rejected or an expired proposal. */
  predicate Safe(c: Proposal) {
    && Lawful(c.marks) && c.row.status == StatusOf(c.marks[|c.marks| - 1])
    && (c.runs == [] || c.runs == [c.row.sql])
    && (c.runs != [] ==> |c.marks| >= 2 && c.marks[1] == EXECUTING)
    && (c.runs != [] ==> forall i :: 0 <= i < |c.marks| ==> c.marks[i] != REJECTED && c.marks[i] != EXPIRED)
  }

  lemma InvIsSafe(c: Proposal)
    requires Inv(c)
    ensures Safe(c)
  {
    if c.runs != [] { ExecutedNeverWithdrawn(c.marks); }
  }

  /** Safety of the approval protocol, over every interleaving of submissions, approvals,
      crashes, rejects and reclaims by any number of workers. */
  lemma EveryRunIsSafe(steps: seq<Step>, id: Id)
    requires id in Run(steps)
    ensures Safe(Run(steps)[id])
  {
    RunKeepsInv(steps, id);
    InvIsSafe(Run(steps)[id]);
  }

  /** No step erases or rewrites a proposal's past: histories and runs only grow, and the
      stored text, owner and fingerprint never change. */
  lemma PastIsKept(s: State, step: Step, id: Id)
    requires id in s
    ensures id in Next(s, step)
    ensures s[id].marks <= Next(s, step)[id].marks && s[id].runs <= Next(s, step)[id].runs
    ensures Next(s, step)[id].row.sql == s[id].row.sql && Next(s, step)[id].row.username == s[id].row.username
    ensures Next(s, step)[id].row.fingerprint == s[id].row.fingerprint
  {
    if step.Act? && step.id == id {
      assert Next(s, step)[id] == Acted(s[id], step.action);
    }
  }

  /** SQL starts only in the planning step of a worker that was cleared to run it, while
      the row is still open to that worker. */
  lemma OnlyPlanRuns(c: Proposal, a: Action)
    requires Inv(c) && Acted(c, a).runs != c.runs
    ensures a.Plan? && a.w in c.holders && c.holders[a.w].phase == Ready(c.row.sql) && Open(c.marks)
    ensures Acted(c, a).runs == [c.row.sql]
  {
    assert HolderInv(c, c.holders[a.w]);
  }

  /** Execution is entered only by the owner's lock, of a pending row, before it expires. */
  lemma OnlyOwnerLocksInTime(c: Proposal, a: Action)
    requires Acted(c, a).marks == c.marks + [EXECUTING]
    ensures a.Lock? && a.user == c.row.username && c.row.status == Proposed && a.now < c.row.expiresAt
  {
    var marks := Acted(c, a).marks;
    assert marks[|c.marks|] == EXECUTING;
  }
}
