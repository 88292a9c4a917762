/** The bounded self-reflection loop: critique, decide, retrieve, revise. The critic, the
    policy, the reviser, the augmenter and the clock are arbitrary, and may answer
    differently at every call. */
module Reflection {
  import opened Wrappers
  import opened Evidence
  import Retries

  datatype Support = Full | Partial | NoSupport

  datatype Action = Accept | Revise | RetrieveMore | Abstain

  datatype Critique = Critique(
    retrievalNeeded: bool, retrievalQuery: Option<string>, evidenceRelevance: real, support: Support,
    answerRelevance: real, citationCompleteness: real, utility: int,
    missingAspects: seq<string>, unsupportedClaims: seq<string>, usageTokens: nat)

  datatype State = State(answer: string, evidence: seq<Chunk>, iteration: nat, retrievals: nat, tokens: nat)

  datatype Budget = Budget(maxIterations: nat, maxRetrievals: nat, maxTokens: nat, deadline: real)

  datatype Reason = Deadline | Tokens | Iterations | ReflectionError

  datatype Outcome = Outcome(
    answer: string, evidence: seq<Chunk>, applied: bool, accepted: bool, finalAction: Action, iterations: nat,
    retrievals: nat, fallback: bool, abstain: bool, reason: Option<Reason>, critique: Option<Critique>, tokens: nat)

  datatype Error = Error(name: string)

  /** Every collaborator is indexed by the moment it is called. */
  datatype Engine = Engine(
    critic: (nat, string, seq<Chunk>, string, real) -> Result<Critique, Error>,
    policy: (nat, Critique, State, Budget, seq<string>) -> Action,
    reviser: (nat, string, seq<Chunk>, string, Critique, real) -> Result<(string, nat), Error>,
    augmenter: (nat, string) -> Result<seq<Chunk>, Error>,
    validateQuery: string -> Result<string, Error>,
    unsupported: (string, seq<Chunk>) -> seq<string>,
    normalize: string -> string,
    maxIterations: nat, maxRetrievals: nat, maxTokens: nat, maxEvidence: nat, timeout: real)

  const ABSTENTION: string :=
    "The supplied approved evidence is insufficient to produce a fully supported answer to this question."

  // ---------------------------------------------------------------- evidence

  type Key = (string, Option<int>, string)

  function KeyOf(normalize: string -> string, c: Chunk): Key { (c.source, c.page, normalize(c.text)) }

  function Keys(normalize: string -> string, items: seq<Chunk>): set<Key> {
    set c | c in items :: KeyOf(normalize, c)
  }

  /** What is kept of the items seen so far; the cap is tested only after an append. */
  function Kept(normalize: string -> string, items: seq<Chunk>, maxChunks: nat): seq<Chunk> {
    if items == [] then []
    else
      var kept, last := Kept(normalize, items[..|items| - 1], maxChunks), items[|items| - 1];
      if kept != [] && |kept| >= maxChunks then kept
      else if KeyOf(normalize, last) in Keys(normalize, kept) then kept
      else kept + [last]
  }

  lemma KeysAppend(normalize: string -> string, kept: seq<Chunk>, c: Chunk)
    ensures Keys(normalize, kept + [c]) == Keys(normalize, kept) + {KeyOf(normalize, c)}
  {
    var more := kept + [c];
    assert forall d :: d in more <==> d in kept || d == c;
    assert KeyOf(normalize, c) in Keys(normalize, more);
  }

  lemma KeptStep(normalize: string -> string, items: seq<Chunk>, i: nat, maxChunks: nat)
    requires i < |items|
    ensures var kept := Kept(normalize, items[..i], maxChunks);
            Kept(normalize, items[..i + 1], maxChunks) ==
              if (kept != [] && |kept| >= maxChunks) || KeyOf(normalize, items[i]) in Keys(normalize, kept) then kept
              else kept + [items[i]]
  {
    assert items[..i + 1][..i] == items[..i];
  }

  lemma {:induction false} KeptFull(normalize: string -> string, items: seq<Chunk>, k: nat, maxChunks: nat)
    requires k <= |items| && |Kept(normalize, items[..k], maxChunks)| >= maxChunks
    requires Kept(normalize, items[..k], maxChunks) != []
    ensures Kept(normalize, items, maxChunks) == Kept(normalize, items[..k], maxChunks)
  {
    if k == |items| {
      assert items[..k] == items;
    } else {
      assert items[..|items| - 1][..k] == items[..k];
      KeptFull(normalize, items[..|items| - 1], k, maxChunks);
    }
  }

  method DedupeEvidence(normalize: string -> string, current: seq<Chunk>, additional: seq<Chunk>, maxChunks: nat)
      returns (result: seq<Chunk>)
    ensures result == Kept(normalize, current + additional, maxChunks)
  {
    var items := current + additional;
    var seen: set<Key> := {};
    result := [];
    var i := 0;
    while i < |items|
      invariant 0 <= i <= |items|
      invariant result == Kept(normalize, items[..i], maxChunks) && seen == Keys(normalize, result)
      invariant result == [] || |result| < maxChunks
    {
      var item := items[i];
      KeptStep(normalize, items, i, maxChunks);
      KeysAppend(normalize, result, item);
      i := i + 1;
      var key := KeyOf(normalize, item);
      if key !in seen {
        seen := seen + {key};
        result := result + [item];
        if |result| >= maxChunks {
          KeptFull(normalize, items, i, maxChunks);
          break;
        }
      }
    }
    assert i == |items| ==> items[..i] == items;
  }

  predicate DistinctKeys(normalize: string -> string, s: seq<Chunk>) {
    forall i, j :: 0 <= i < j < |s| ==> KeyOf(normalize, s[i]) != KeyOf(normalize, s[j])
  }

  /** No two kept items share a key, every item is represented unless the cap was hit, and
      what was kept of the current evidence comes first. */
  lemma {:induction false} KeptIsDistinct(normalize: string -> string, items: seq<Chunk>, maxChunks: nat)
    ensures DistinctKeys(normalize, Kept(normalize, items, maxChunks))
    ensures |Kept(normalize, items, maxChunks)| <= if maxChunks == 0 then 1 else maxChunks
  {
    if items != [] {
      KeptIsDistinct(normalize, items[..|items| - 1], maxChunks);
      var kept := Kept(normalize, items[..|items| - 1], maxChunks);
      forall i | 0 <= i < |kept|
        ensures KeyOf(normalize, kept[i]) in Keys(normalize, kept)
      {
        assert kept[i] in kept;
      }
    }
  }

  lemma {:induction false} KeptCovers(normalize: string -> string, items: seq<Chunk>, maxChunks: nat, c: Chunk)
    requires c in items
    ensures var kept := Kept(normalize, items, maxChunks);
            KeyOf(normalize, c) in Keys(normalize, kept) || |kept| >= maxChunks
  {
    var most, last := items[..|items| - 1], items[|items| - 1];
    if c in most {
      KeptCovers(normalize, most, maxChunks, c);
      KeysAppend(normalize, Kept(normalize, most, maxChunks), last);
    } else {
      var kept := Kept(normalize, items, maxChunks);
      assert c == last;
      if |kept| > 0 && kept[|kept| - 1] == last { assert last in kept; }
    }
  }

  lemma {:induction false} KeptExtends(
      normalize: string -> string, current: seq<Chunk>, additional: seq<Chunk>, maxChunks: nat)
    ensures Kept(normalize, current, maxChunks) <= Kept(normalize, current + additional, maxChunks)
  {
    if additional == [] {
      assert current + additional == current;
    } else {
      var most := additional[..|additional| - 1];
      KeptExtends(normalize, current, most, maxChunks);
      assert (current + additional)[..|current + additional| - 1] == current + most;
    }
  }

  // ---------------------------------------------------------------- traces

  /** A call to a collaborator or a decision, with the number of the latest clock reading
      before it. Readings are numbered in the order they are taken; the start is number 0. */
  datatype Event =
    | Critiqued(tick: nat, timeout: real, answer: string, evidence: seq<Chunk>, critique: Result<Critique, Error>)
    | Decided(tick: nat, action: Action)
    | Retrieved(tick: nat, query: string, found: Result<seq<Chunk>, Error>)
    | Revised(tick: nat, timeout: real, answer: string, evidence: seq<Chunk>, revision: Result<(string, nat), Error>)

  /** One request: the engine, what it was asked, the clock it reads, and whether it may retrieve. */
  datatype Session = Session(
    eng: Engine, question: string, answer: string, evidence: seq<Chunk>, clock: nat -> real, allowRetrieval: bool)
  {
    function Deadline(): real { clock(0) + eng.timeout }
    function MaxRetrievals(): nat { if allowRetrieval then eng.maxRetrievals else 0 }
    function Initial(): State { State(answer, evidence, 0, 0, 0) }
    function Limits(): Budget { Budget(eng.maxIterations, MaxRetrievals(), eng.maxTokens, Deadline()) }

    /** What is left of the deadline at a reading. */
    function Remaining(tick: nat): real { Deadline() - clock(tick) }

    /** The collaborators' answers on a state, called after `i` events. */
    function Criticism(i: nat, s: State, timeout: real): Result<Critique, Error> {
      eng.critic(i, question, s.evidence, s.answer, timeout)
    }

    function Ruling(i: nat, s: State, c: Critique): Action {
      eng.policy(i, c, s, Limits(), eng.unsupported(s.answer, s.evidence))
    }

    function Revision(i: nat, s: State, c: Critique, timeout: real): Result<(string, nat), Error> {
      eng.reviser(i, question, s.evidence, s.answer, c, timeout)
    }
  }

  function Apply(eng: Engine, s: State, e: Event): State {
    match e
    case Critiqued(_, _, _, _, Success(c)) => s.(tokens := s.tokens + c.usageTokens)
    case Retrieved(_, _, Success(found)) =>
      s.(evidence := Kept(eng.normalize, s.evidence + found, eng.maxEvidence), retrievals := s.retrievals + 1)
    case Revised(_, _, _, _, Success((text, tokens))) =>
      s.(answer := text, iteration := s.iteration + 1, tokens := s.tokens + tokens)
    case _ => s
  }

  /** The working state after a trace. */
  function After(x: Session, trace: seq<Event>): State {
    if trace == [] then x.Initial() else Apply(x.eng, After(x, trace[..|trace| - 1]), trace[|trace| - 1])
  }

  /** The latest critique, which every later call of the round is about. */
  function LastCritique(trace: seq<Event>): Option<Critique> {
    if trace == [] then None
    else
      var last := trace[|trace| - 1];
      if last.Critiqued? && last.critique.Success? then Some(last.critique.value)
      else LastCritique(trace[..|trace| - 1])
  }

  /** The number of the latest reading the trace shows. */
  function Ticks(trace: seq<Event>): nat { if trace == [] then 0 else trace[|trace| - 1].tick }

  /** Every reading after number `from`, up to number `to`, was before the deadline. */
  predicate InTime(x: Session, from: int, to: int) {
    forall t: nat :: from < t <= to ==> x.clock(t) < x.Deadline()
  }

  predicate AtRoundStart(trace: seq<Event>) {
    trace == [] || (trace[|trace| - 1].Revised? && trace[|trace| - 1].revision.Success?)
  }

  predicate EndsCritiqued(trace: seq<Event>) {
    trace != [] && trace[|trace| - 1].Critiqued? && trace[|trace| - 1].critique.Success?
  }

  predicate EndsDecided(trace: seq<Event>, a: Action) {
    trace != [] && trace[|trace| - 1].Decided? && trace[|trace| - 1].action == a
  }

  predicate EndsRetrieved(trace: seq<Event>) {
    trace != [] && trace[|trace| - 1].Retrieved? && trace[|trace| - 1].found.Success?
  }

  /** Where a revision may start: asked for, or retrieved for, or retrieval is used up. */
  predicate MayRevise(x: Session, trace: seq<Event>) {
    || EndsDecided(trace, Revise)
    || EndsRetrieved(trace)
    || (EndsDecided(trace, RetrieveMore) && After(x, trace).retrievals >= x.MaxRetrievals())
  }

  function QueryOf(x: Session, c: Critique): Result<string, Error> {
    var own := c.retrievalQuery;
    x.eng.validateQuery(if own.Some? && own.value != "" then own.value else x.question)
  }

  /** The reading an event stands on: a round opens with two readings, after one that
      followed the last revision; a critique and a retrieval are each followed by one. */
  function DueTick(before: seq<Event>, e: Event): nat {
    match e
    case Critiqued(_, _, _, _, _) => Ticks(before) + (if before == [] then 2 else 3)
    case Revised(_, _, _, _, _) => Ticks(before) + (if EndsRetrieved(before) then 2 else 1)
    case _ => Ticks(before) + 1
  }

  /** Event `e` may follow `before`: no reading up to it was late, it is within every
      budget, and it is about exactly the answer and evidence produced so far. */
  predicate Legal(x: Session, before: seq<Event>, e: Event) {
    e.tick == DueTick(before, e) && InTime(x, Ticks(before), e.tick) && LegalMove(x, before, e)
  }

  predicate LegalMove(x: Session, before: seq<Event>, e: Event) {
    var s, c := After(x, before), LastCritique(before);
    match e
    case Critiqued(tick, timeout, answer, evidence, critique) =>
      && AtRoundStart(before) && s.tokens <= x.eng.maxTokens && timeout == x.Remaining(tick)
      && answer == s.answer && evidence == s.evidence && critique == x.Criticism(|before|, s, timeout)
    case Decided(_, action) =>
      && EndsCritiqued(before) && s.tokens <= x.eng.maxTokens
      && action == x.Ruling(|before|, s, before[|before| - 1].critique.value)
    case Retrieved(_, query, found) =>
      && EndsDecided(before, RetrieveMore) && s.iteration < x.eng.maxIterations && s.retrievals < x.MaxRetrievals()
      && c.Some? && QueryOf(x, c.value) == Success(query) && found == x.eng.augmenter(|before|, query)
    case Revised(tick, timeout, answer, evidence, revision) =>
      && MayRevise(x, before) && s.iteration < x.eng.maxIterations && s.tokens < x.eng.maxTokens
      && timeout == x.Remaining(tick) && answer == s.answer && evidence == s.evidence
      && c.Some? && revision == x.Revision(|before|, s, c.value, timeout)
  }

  predicate LegalTrace(x: Session, trace: seq<Event>) {
    trace == [] || (LegalTrace(x, trace[..|trace| - 1]) && Legal(x, trace[..|trace| - 1], trace[|trace| - 1]))
  }

  // ---------------------------------------------------------------- outcomes

  function AbstainBudget(s: State, why: Reason): Outcome {
    Outcome(
      ABSTENTION, s.evidence, true, false, Abstain, s.iteration, s.retrievals, false, true, Some(why), None, s.tokens)
  }

  function AbstainPolicy(s: State, c: Critique, why: Option<Reason>): Outcome {
    Outcome(
      ABSTENTION, s.evidence, true, false, Abstain, s.iteration + 1, s.retrievals, false, true, why, Some(c), s.tokens)
  }

  function Accepted(s: State, c: Critique): Outcome {
    Outcome(
      s.answer, s.evidence, true, true, Accept, s.iteration + 1, s.retrievals, false, false, None, Some(c), s.tokens)
  }

  /** The state an outcome reports: a revision that came back late is not in it. */
  function Reported(x: Session, trace: seq<Event>): State {
    if trace != [] && trace[|trace| - 1].Revised? then After(x, trace[..|trace| - 1]) else After(x, trace)
  }

  /** How many readings the engine takes, at most, before the next event or the end. */
  function ReadingsAfter(trace: seq<Event>): nat {
    if trace == [] then 2
    else
      match trace[|trace| - 1]
      case Critiqued(_, _, _, _, _) => 1
      case Decided(_, _) => 1
      case Retrieved(_, _, _) => 2
      case Revised(_, _, _, _, _) => 3
  }

  /** Reading number `end` is the last one taken; it is the first late one, or none is late. */
  predicate Stopped(x: Session, trace: seq<Event>, end: nat, late: bool) {
    && Ticks(trace) <= end <= Ticks(trace) + ReadingsAfter(trace)
    && InTime(x, Ticks(trace), if late then end - 1 else end)
    && (late ==> Ticks(trace) < end && x.clock(end) >= x.Deadline())
  }

  /** Why the engine stopped with outcome `o` after reading number `end`. */
  predicate Closes(x: Session, trace: seq<Event>, end: nat, o: Outcome) {
    Stopped(x, trace, end, o.reason == Some(Deadline)) && Explains(x, trace, end, o)
  }

  /** Reading number `end` opens a round: the first one after a revision still belongs to it. */
  predicate OpensRound(trace: seq<Event>, end: nat) {
    AtRoundStart(trace) && (trace == [] || end > Ticks(trace) + 1)
  }

  predicate Explains(x: Session, trace: seq<Event>, end: nat, o: Outcome) {
    var s, c := After(x, trace), LastCritique(trace);
    match o.reason
    case Some(Deadline) =>
      if OpensRound(trace, end) then o == AbstainBudget(s, Deadline)
      else c.Some? && o == AbstainPolicy(Reported(x, trace), c.value, Some(Deadline))
    case Some(Tokens) =>
      || (o == AbstainBudget(s, Tokens) && AtRoundStart(trace) && s.tokens > x.eng.maxTokens)
      || (&& c.Some? && o == AbstainPolicy(s, c.value, Some(Tokens))
          && (|| (EndsCritiqued(trace) && s.tokens > x.eng.maxTokens)
              || (MayRevise(x, trace) && s.tokens >= x.eng.maxTokens)))
    case Some(Iterations) =>
      && c.Some? && o == AbstainPolicy(s, c.value, Some(Iterations)) && s.iteration >= x.eng.maxIterations
      && (EndsDecided(trace, Revise) || EndsDecided(trace, RetrieveMore))
    case Some(ReflectionError) => false
    case None =>
      || (c.Some? && o == Accepted(s, c.value) && EndsDecided(trace, Accept) && end == Ticks(trace) + 1)
      || (c.Some? && o == AbstainPolicy(s, c.value, None) && EndsDecided(trace, Abstain))
  }

  /** Why the engine raised: the last call did, or the critic's query is refused. */
  predicate Raises(x: Session, trace: seq<Event>, end: nat, e: Error) {
    && Stopped(x, trace, end, false) && trace != []
    && match trace[|trace| - 1]
       case Critiqued(_, _, _, _, r) => r == Failure(e)
       case Retrieved(_, _, r) => r == Failure(e)
       case Revised(_, _, _, _, r) => r == Failure(e)
       case Decided(_, a) =>
         a == RetrieveMore && LastCritique(trace).Some? && QueryOf(x, LastCritique(trace).value) == Failure(e)
  }

  lemma TraceGrows(x: Session, trace: seq<Event>, e: Event)
    requires LegalTrace(x, trace) && Legal(x, trace, e)
    ensures LegalTrace(x, trace + [e]) && Ticks(trace + [e]) == e.tick
    ensures After(x, trace + [e]) == Apply(x.eng, After(x, trace), e)
    ensures LastCritique(trace + [e]) ==
      if e.Critiqued? && e.critique.Success? then Some(e.critique.value) else LastCritique(trace)
  {
    assert (trace + [e])[..|trace|] == trace;
  }

  // ---------------------------------------------------------------- the engine

  datatype Judgement = Judgement(action: Action, critique: Critique)

  datatype Flow<+T> = Next(value: T) | Stop(outcome: Outcome) | Throw(error: Error)

  /** A part of a round that stops or throws does so for a reason the trace and the clock show. */
  predicate Justified<T>(x: Session, trace: seq<Event>, end: nat, flow: Flow<T>) {
    match flow
    case Next(_) => true
    case Stop(o) => Closes(x, trace, end, o)
    case Throw(e) => Raises(x, trace, end, e)
  }

  /** Reading number `tick` has just been taken, `more` readings after the trace, all in time. */
  predicate Reading(x: Session, trace: seq<Event>, tick: nat, more: nat) {
    tick == Ticks(trace) + more && InTime(x, Ticks(trace), tick)
  }

  /** The budget checks that open a round, then the round's critique and decision. */
  method Judge(x: Session, tick: nat, state: State, trace: seq<Event>)
      returns (flow: Flow<Judgement>, tick': nat, state': State, trace': seq<Event>)
    requires LegalTrace(x, trace) && AtRoundStart(trace) && state == After(x, trace)
    requires Reading(x, trace, tick, if trace == [] then 0 else 1)
    ensures LegalTrace(x, trace') && Justified(x, trace', tick', flow)
    ensures flow.Next? ==> Judged(x, flow.value, tick', state', trace') && state'.iteration == state.iteration
  {
    tick', state', trace' := tick + 1, state, trace;
    if x.clock(tick') >= x.Deadline() { flow := Stop(AbstainBudget(state', Deadline)); return; }
    if state'.tokens > x.eng.maxTokens { flow := Stop(AbstainBudget(state', Tokens)); return; }
    tick' := tick' + 1;
    if x.Remaining(tick') <= 0.0 { flow := Stop(AbstainBudget(state', Deadline)); return; }
    flow, tick', state', trace' := AskCritic(x, tick', state', trace');
  }

  /** A round that goes on has a decision to revise or retrieve, within the iterations. */
  predicate Judged(x: Session, j: Judgement, tick: nat, state: State, trace: seq<Event>) {
    && state == After(x, trace) && LastCritique(trace) == Some(j.critique) && EndsDecided(trace, j.action)
    && j.action != Accept && j.action != Abstain && Reading(x, trace, tick, 0)
    && state.iteration < x.eng.maxIterations
  }

  function CritiqueEvent(x: Session, trace: seq<Event>, tick: nat): Event {
    var s := After(x, trace);
    Critiqued(tick, x.Remaining(tick), s.answer, s.evidence, x.Criticism(|trace|, s, x.Remaining(tick)))
  }

  lemma CritiqueGrows(x: Session, trace: seq<Event>, tick: nat, e: Event)
    requires LegalTrace(x, trace) && AtRoundStart(trace) && After(x, trace).tokens <= x.eng.maxTokens
    requires Reading(x, trace, tick, if trace == [] then 2 else 3) && e == CritiqueEvent(x, trace, tick)
    ensures LegalTrace(x, trace + [e]) && Ticks(trace + [e]) == tick
    ensures e.critique.Success? ==> EndsCritiqued(trace + [e]) && LastCritique(trace + [e]) == Some(e.critique.value)
    ensures After(x, trace + [e]) == Apply(x.eng, After(x, trace), e)
    ensures e.critique.Failure? ==> Raises(x, trace + [e], tick, e.critique.error)
  {
    TraceGrows(x, trace, e);
  }

  /** A late reading after the last event closes the run with that critique. */
  lemma ClosesLate(x: Session, trace: seq<Event>, end: nat, c: Critique)
    requires LastCritique(trace) == Some(c) && Ticks(trace) < end <= Ticks(trace) + ReadingsAfter(trace)
    requires InTime(x, Ticks(trace), end - 1) && x.clock(end) >= x.Deadline() && !OpensRound(trace, end)
    ensures Closes(x, trace, end, AbstainPolicy(Reported(x, trace), c, Some(Deadline)))
  {
  }

  function RevisionEvent(x: Session, trace: seq<Event>, tick: nat, c: Critique): Event {
    var s := After(x, trace);
    Revised(tick, x.Remaining(tick), s.answer, s.evidence, x.Revision(|trace|, s, c, x.Remaining(tick)))
  }

  lemma RevisionGrows(x: Session, trace: seq<Event>, tick: nat, c: Critique, e: Event)
    requires LegalTrace(x, trace) && MayRevise(x, trace) && LastCritique(trace) == Some(c)
    requires After(x, trace).iteration < x.eng.maxIterations && After(x, trace).tokens < x.eng.maxTokens
    requires Reading(x, trace, tick, if EndsRetrieved(trace) then 2 else 1) && e == RevisionEvent(x, trace, tick, c)
    ensures LegalTrace(x, trace + [e]) && Ticks(trace + [e]) == tick && LastCritique(trace + [e]) == Some(c)
    ensures Reported(x, trace + [e]) == After(x, trace)
    ensures After(x, trace + [e]) == Apply(x.eng, After(x, trace), e)
    ensures e.revision.Success? ==> AtRoundStart(trace + [e])
    ensures e.revision.Failure? ==> Raises(x, trace + [e], tick, e.revision.error)
  {
    TraceGrows(x, trace, e);
    assert (trace + [e])[..|trace|] == trace;
  }

  lemma ClosesCritiqued(x: Session, trace: seq<Event>, end: nat, why: Reason)
    requires EndsCritiqued(trace) && end == Ticks(trace) + 1
    requires if why == Deadline then x.clock(end) >= x.Deadline()
             else why == Tokens && x.clock(end) < x.Deadline() && After(x, trace).tokens > x.eng.maxTokens
    ensures Closes(x, trace, end, AbstainPolicy(After(x, trace), trace[|trace| - 1].critique.value, Some(why)))
  {
  }

  /** One critique on the current answer and evidence, its budget checks, one decision. */
  method AskCritic(x: Session, tick: nat, state: State, trace: seq<Event>)
      returns (flow: Flow<Judgement>, tick': nat, state': State, trace': seq<Event>)
    requires LegalTrace(x, trace) && AtRoundStart(trace) && state == After(x, trace)
    requires state.tokens <= x.eng.maxTokens && Reading(x, trace, tick, if trace == [] then 2 else 3)
    ensures LegalTrace(x, trace') && Justified(x, trace', tick', flow)
    ensures flow.Next? ==> Judged(x, flow.value, tick', state', trace') && state'.iteration == state.iteration
  {
    var remaining := x.Remaining(tick);
    var reply := x.Criticism(|trace|, state, remaining);
    var event := Critiqued(tick, remaining, state.answer, state.evidence, reply);
    CritiqueGrows(x, trace, tick, event);
    tick', state', trace' := tick, state, trace + [event];
    if reply.Failure? { flow := Throw(reply.error); return; }
    var critique := reply.value;
    state' := state.(tokens := state.tokens + critique.usageTokens);
    flow, tick', trace' := Weigh(x, tick', state', trace', critique);
  }

  /** The budget checks on a critique that has come back, then the decision. */
  method Weigh(x: Session, tick: nat, state: State, trace: seq<Event>, critique: Critique)
      returns (flow: Flow<Judgement>, tick': nat, trace': seq<Event>)
    requires LegalTrace(x, trace) && EndsCritiqued(trace) && trace[|trace| - 1].critique == Success(critique)
    requires state == After(x, trace) && LastCritique(trace) == Some(critique) && tick == Ticks(trace)
    ensures LegalTrace(x, trace') && Justified(x, trace', tick', flow)
    ensures flow.Next? ==> Judged(x, flow.value, tick', state, trace')
  {
    trace', tick' := trace, tick + 1;
    if x.clock(tick') >= x.Deadline() {
      ClosesCritiqued(x, trace, tick', Deadline);
      flow := Stop(AbstainPolicy(state, critique, Some(Deadline)));
      return;
    }
    if state.tokens > x.eng.maxTokens {
      ClosesCritiqued(x, trace, tick', Tokens);
      flow := Stop(AbstainPolicy(state, critique, Some(Tokens)));
      return;
    }
    flow, tick', trace' := Decide(x, tick', state, trace, critique);
  }

  /** The policy's decision on a critique that came back in time and within budget. */
  method Decide(x: Session, tick: nat, state: State, trace: seq<Event>, critique: Critique)
      returns (flow: Flow<Judgement>, tick': nat, trace': seq<Event>)
    requires LegalTrace(x, trace) && EndsCritiqued(trace) && trace[|trace| - 1].critique == Success(critique)
    requires state == After(x, trace) && LastCritique(trace) == Some(critique) && state.tokens <= x.eng.maxTokens
    requires Reading(x, trace, tick, 1)
    ensures LegalTrace(x, trace') && Justified(x, trace', tick', flow)
    ensures flow.Next? ==> Judged(x, flow.value, tick', state, trace')
  {
    var action := x.Ruling(|trace|, state, critique);
    TraceGrows(x, trace, Decided(tick, action));
    trace', tick' := trace + [Decided(tick, action)], tick;
    if action == Accept {
      tick' := tick' + 1;
      if x.clock(tick') >= x.Deadline() {
        ClosesLate(x, trace', tick', critique);
        flow := Stop(AbstainPolicy(state, critique, Some(Deadline)));
        return;
      }
      flow := Stop(Accepted(state, critique));
    } else if action == Abstain {
      flow := Stop(AbstainPolicy(state, critique, None));
    } else if state.iteration >= x.eng.maxIterations {
      flow := Stop(AbstainPolicy(state, critique, Some(Iterations)));
    } else {
      flow := Next(Judgement(action, critique));
    }
  }

  lemma RetrievalGrows(x: Session, trace: seq<Event>, tick: nat, c: Critique, e: Event)
    requires LegalTrace(x, trace) && EndsDecided(trace, RetrieveMore) && LastCritique(trace) == Some(c)
    requires After(x, trace).iteration < x.eng.maxIterations && After(x, trace).retrievals < x.MaxRetrievals()
    requires Reading(x, trace, tick, 1) && e.Retrieved? && e.tick == tick
    requires QueryOf(x, c) == Success(e.query) && e.found == x.eng.augmenter(|trace|, e.query)
    ensures LegalTrace(x, trace + [e]) && Ticks(trace + [e]) == tick && LastCritique(trace + [e]) == Some(c)
    ensures After(x, trace + [e]) == Apply(x.eng, After(x, trace), e)
    ensures e.found.Success? ==> EndsRetrieved(trace + [e])
    ensures e.found.Failure? ==> Raises(x, trace + [e], tick, e.found.error)
  {
    TraceGrows(x, trace, e);
  }

  /** A retrieval that is refused its query raises. */
  lemma QueryRaises(x: Session, trace: seq<Event>, tick: nat, c: Critique, e: Error)
    requires EndsDecided(trace, RetrieveMore) && LastCritique(trace) == Some(c) && QueryOf(x, c) == Failure(e)
    requires Reading(x, trace, tick, 1)
    ensures Raises(x, trace, tick, e)
  {
  }

  /** One bounded retrieval, after which the evidence is the deduplicated union. */
  method Retrieve(x: Session, tick: nat, state: State, trace: seq<Event>, critique: Critique)
      returns (flow: Flow<State>, tick': nat, trace': seq<Event>)
    requires LegalTrace(x, trace) && state == After(x, trace) && LastCritique(trace) == Some(critique)
    requires EndsDecided(trace, RetrieveMore) && Reading(x, trace, tick, 0)
    requires state.iteration < x.eng.maxIterations && state.retrievals < x.MaxRetrievals()
    ensures LegalTrace(x, trace') && Justified(x, trace', tick', flow)
    ensures flow.Next? ==>
      && flow.value == After(x, trace') && LastCritique(trace') == Some(critique) && EndsRetrieved(trace')
      && flow.value.iteration == state.iteration && Reading(x, trace', tick', 1)
  {
    trace', tick' := trace, tick + 1;
    if x.Remaining(tick') <= 0.0 {
      ClosesLate(x, trace, tick', critique);
      flow := Stop(AbstainPolicy(state, critique, Some(Deadline)));
      return;
    }
    var query := QueryOf(x, critique);
    if query.Failure? {
      QueryRaises(x, trace, tick', critique, query.error);
      flow := Throw(query.error);
      return;
    }
    var found := x.eng.augmenter(|trace|, query.value);
    var event := Retrieved(tick', query.value, found);
    RetrievalGrows(x, trace, tick', critique, event);
    trace' := trace + [event];
    if found.Failure? { flow := Throw(found.error); return; }
    var evidence := DedupeEvidence(x.eng.normalize, state.evidence, found.value, x.eng.maxEvidence);
    var state' := state.(evidence := evidence, retrievals := state.retrievals + 1);
    tick' := tick' + 1;
    if x.clock(tick') >= x.Deadline() {
      ClosesLate(x, trace', tick', critique);
      flow := Stop(AbstainPolicy(state', critique, Some(Deadline)));
      return;
    }
    flow := Next(state');
  }

  /** A round that goes on after its revision has one iteration behind it. */
  predicate Reworked(x: Session, state: State, state': State, tick: nat, trace: seq<Event>) {
    && state' == After(x, trace) && AtRoundStart(trace) && trace != []
    && state'.iteration == state.iteration + 1 && Reading(x, trace, tick, 1)
  }

  /** The budget checks that open a revision, then the revision. */
  method Rework(x: Session, tick: nat, state: State, trace: seq<Event>, critique: Critique)
      returns (flow: Flow<State>, tick': nat, trace': seq<Event>)
    requires LegalTrace(x, trace) && state == After(x, trace) && LastCritique(trace) == Some(critique)
    requires MayRevise(x, trace) && state.iteration < x.eng.maxIterations
    requires Reading(x, trace, tick, if EndsRetrieved(trace) then 1 else 0)
    ensures LegalTrace(x, trace') && Justified(x, trace', tick', flow)
    ensures flow.Next? ==> Reworked(x, state, flow.value, tick', trace')
  {
    trace', tick' := trace, tick + 1;
    if x.Remaining(tick') <= 0.0 {
      ClosesLate(x, trace, tick', critique);
      flow := Stop(AbstainPolicy(state, critique, Some(Deadline)));
      return;
    }
    if state.tokens >= x.eng.maxTokens { flow := Stop(AbstainPolicy(state, critique, Some(Tokens))); return; }
    flow, tick', trace' := CallReviser(x, tick', state, trace, critique);
  }

  /** One revision; one that comes back late is dropped with its tokens. */
  method CallReviser(x: Session, tick: nat, state: State, trace: seq<Event>, critique: Critique)
      returns (flow: Flow<State>, tick': nat, trace': seq<Event>)
    requires LegalTrace(x, trace) && state == After(x, trace) && LastCritique(trace) == Some(critique)
    requires MayRevise(x, trace) && state.iteration < x.eng.maxIterations && state.tokens < x.eng.maxTokens
    requires Reading(x, trace, tick, if EndsRetrieved(trace) then 2 else 1)
    ensures LegalTrace(x, trace') && Justified(x, trace', tick', flow)
    ensures flow.Next? ==> Reworked(x, state, flow.value, tick', trace')
  {
    var remaining := x.Remaining(tick);
    var revision := x.Revision(|trace|, state, critique, remaining);
    var event := Revised(tick, remaining, state.answer, state.evidence, revision);
    RevisionGrows(x, trace, tick, critique, event);
    trace', tick' := trace + [event], tick;
    if revision.Failure? { flow := Throw(revision.error); return; }
    tick' := tick' + 1;
    if x.clock(tick') >= x.Deadline() {
      ClosesLate(x, trace', tick', critique);
      flow := Stop(AbstainPolicy(state, critique, Some(Deadline)));
      return;
    }
    var (text, tokens) := revision.value;
    flow := Next(state.(answer := text, iteration := state.iteration + 1, tokens := state.tokens + tokens));
  }

  function ResultOf<T>(flow: Flow<T>): Result<Outcome, Error>
    requires !flow.Next?
  {
    if flow.Stop? then Success(flow.outcome) else Failure(flow.error)
  }

  /** For any collaborators and any clock whatever, the run is a legal trace of that clock's
      readings, and the outcome or the exception is the one that trace calls for. */
  method Reflect(x: Session) returns (result: Result<Outcome, Error>, trace: seq<Event>, end: nat)
    ensures LegalTrace(x, trace)
    ensures result.Success? ==> Closes(x, trace, end, result.value)
    ensures result.Failure? ==> Raises(x, trace, end, result.error)
  {
    var state := x.Initial();
    trace, end := [], 0;
    while true
      invariant LegalTrace(x, trace) && AtRoundStart(trace) && state == After(x, trace)
      invariant state.iteration <= x.eng.maxIterations && Reading(x, trace, end, if trace == [] then 0 else 1)
      decreases x.eng.maxIterations - state.iteration
    {
      var judged, tick1, state1, trace1 := Judge(x, end, state, trace);
      if !judged.Next? { return ResultOf(judged), trace1, tick1; }
      end, state, trace := tick1, state1, trace1;
      var action, critique := judged.value.action, judged.value.critique;
      if action == RetrieveMore && state.retrievals >= x.MaxRetrievals() { action := Revise; }
      if action == RetrieveMore {
        var gathered, tick2, trace2 := Retrieve(x, end, state, trace, critique);
        if !gathered.Next? { return ResultOf(gathered), trace2, tick2; }
        end, state, trace := tick2, gathered.value, trace2;
      }
      var reworked, tick3, trace3 := Rework(x, end, state, trace, critique);
      if !reworked.Next? { return ResultOf(reworked), trace3, tick3; }
      end, state, trace := tick3, reworked.value, trace3;
    }
  }

  // ---------------------------------------------------------------- every budget holds

  function Critiques(trace: seq<Event>): nat {
    if trace == [] then 0 else Critiques(trace[..|trace| - 1]) + (if trace[|trace| - 1].Critiqued? then 1 else 0)
  }

  function Revisions(trace: seq<Event>): nat {
    if trace == [] then 0 else Revisions(trace[..|trace| - 1]) + (if trace[|trace| - 1].Revised? then 1 else 0)
  }

  function Retrievals(trace: seq<Event>): nat {
    if trace == [] then 0 else Retrievals(trace[..|trace| - 1]) + (if trace[|trace| - 1].Retrieved? then 1 else 0)
  }

  function Cost(e: Event): nat {
    match e
    case Critiqued(_, _, _, _, Success(c)) => c.usageTokens
    case Revised(_, _, _, _, Success((_, tokens))) => tokens
    case _ => 0
  }

  function Spent(trace: seq<Event>): nat {
    if trace == [] then 0 else Spent(trace[..|trace| - 1]) + Cost(trace[|trace| - 1])
  }

  function LastCost(trace: seq<Event>): nat { if trace == [] then 0 else Cost(trace[|trace| - 1]) }

  /** A failed call is always the last, so the counters of the state are the trace's own. */
  predicate Accounted(x: Session, trace: seq<Event>) {
    var s := After(x, trace);
    && s.iteration <= x.eng.maxIterations && s.retrievals <= x.MaxRetrievals()
    && s.tokens == Spent(trace) <= x.eng.maxTokens + LastCost(trace)
    && (if trace == [] then Critiques(trace) == Revisions(trace) == Retrievals(trace) == 0
        else match trace[|trace| - 1]
          case Revised(_, _, _, _, Success(_)) =>
            Revisions(trace) == s.iteration == Critiques(trace) && Retrievals(trace) == s.retrievals
          case Revised(_, _, _, _, Failure(_)) =>
            && Revisions(trace) == s.iteration + 1 == Critiques(trace) && s.iteration < x.eng.maxIterations
            && Retrievals(trace) == s.retrievals
          case Retrieved(_, _, Failure(_)) =>
            && Revisions(trace) == s.iteration == Critiques(trace) - 1
            && Retrievals(trace) == s.retrievals + 1 <= x.MaxRetrievals()
          case _ =>
            Revisions(trace) == s.iteration == Critiques(trace) - 1 && Retrievals(trace) == s.retrievals)
  }

  lemma {:induction false} TraceIsAccounted(x: Session, trace: seq<Event>)
    requires LegalTrace(x, trace)
    ensures Accounted(x, trace)
  {
    if trace != [] { TraceIsAccounted(x, trace[..|trace| - 1]); }
  }

  /** The loop is bounded for arbitrary collaborators, even ones that ignore every budget:
      revisions, critiques and retrievals are capped (no retrieval at all when it is not
      allowed), and the tokens spent exceed the budget by at most the last call's cost. */
  lemma ReflectionIsBounded(x: Session, trace: seq<Event>)
    requires LegalTrace(x, trace)
    ensures Revisions(trace) <= x.eng.maxIterations
    ensures Critiques(trace) <= x.eng.maxIterations + 1
    ensures Retrievals(trace) <= (if x.allowRetrieval then x.eng.maxRetrievals else 0)
    ensures Spent(trace) <= x.eng.maxTokens + LastCost(trace)
  {
    TraceIsAccounted(x, trace);
  }

  lemma {:induction false} LegalAt(x: Session, trace: seq<Event>, i: nat)
    requires LegalTrace(x, trace) && i < |trace|
    ensures LegalTrace(x, trace[..i]) && Legal(x, trace[..i], trace[i])
  {
    if i < |trace| - 1 {
      LegalAt(x, trace[..|trace| - 1], i);
      assert trace[..|trace| - 1][..i] == trace[..i];
    }
  }

  // ---------------------------------------------------------------- the deadline

  /** Every reading behind a legal trace was before the deadline. */
  lemma {:induction false} ReadingsAreInTime(x: Session, trace: seq<Event>)
    requires LegalTrace(x, trace)
    ensures InTime(x, 0, Ticks(trace))
  {
    if trace != [] { ReadingsAreInTime(x, trace[..|trace| - 1]); }
  }

  /** No call starts at or after the deadline: neither the reading just before it nor any
      earlier one is late, and a timed call is told exactly what that reading leaves. */
  lemma CallsStartInTime(x: Session, trace: seq<Event>, i: nat)
    requires LegalTrace(x, trace) && i < |trace|
    ensures InTime(x, 0, trace[i].tick) && 0 < trace[i].tick
    ensures trace[i].Critiqued? || trace[i].Revised? ==>
      trace[i].timeout == x.Remaining(trace[i].tick) > 0.0
  {
    LegalAt(x, trace, i);
    ReadingsAreInTime(x, trace[..i]);
    assert x.clock(trace[i].tick) < x.Deadline();
  }

  /** Events stand on later and later readings. */
  lemma {:induction false} TicksIncrease(x: Session, trace: seq<Event>, i: nat, j: nat)
    requires LegalTrace(x, trace) && i < j < |trace|
    ensures trace[i].tick < trace[j].tick
  {
    LegalAt(x, trace, j);
    assert trace[..j][j - 1] == trace[j - 1];
    if i < j - 1 { TicksIncrease(x, trace, i, j - 1); }
  }

  /** The engine stops at the first late reading and at no other one for that reason: an
      outcome blames the deadline exactly when its last reading is late, and no earlier
      reading is. */
  lemma StopsAtFirstLateReading(x: Session, trace: seq<Event>, end: nat, o: Outcome)
    requires LegalTrace(x, trace) && Closes(x, trace, end, o)
    ensures 0 < end && InTime(x, 0, end - 1)
    ensures o.reason == Some(Deadline) <==> x.clock(end) >= x.Deadline()
  {
    ReadingsAreInTime(x, trace);
    if trace != [] {
      CallsStartInTime(x, trace, |trace| - 1);
      assert x.clock(Ticks(trace)) < x.Deadline();
    }
  }

  /** A request whose first reading is already late makes no call at all. */
  lemma LateStartMakesNoCall(x: Session, trace: seq<Event>)
    requires LegalTrace(x, trace) && x.clock(1) >= x.Deadline()
    ensures trace == []
  {
    if trace != [] { CallsStartInTime(x, trace, 0); }
  }

  /** A critique or a revision that the critic or the reviser makes with its own timeout,
      cut to what the engine passed, finishes by the engine's deadline: every provider call
      of its retry loop does, when the provider honours the timeouts it is given. */
  lemma CallsFinishInTime<R(!new)>(
      x: Session, trace: seq<Event>, i: nat, provider: Retries.ProviderCall<R>, configured: real,
      calls: seq<Retries.Call<R>>, j: nat)
    requires LegalTrace(x, trace) && i < |trace| && (trace[i].Critiqued? || trace[i].Revised?)
    requires configured > 0.0 && Retries.Honours(provider) && j < |calls|
    requires var effective, now := Retries.Min(configured, trace[i].timeout), x.clock(trace[i].tick);
             Retries.Schedule(provider, Some(effective), Some(now + effective), now, calls)
    ensures Retries.EndOf(calls[j]) <= x.Deadline()
  {
    CallsStartInTime(x, trace, i);
    var effective, now := Retries.Min(configured, trace[i].timeout), x.clock(trace[i].tick);
    Retries.CallsEndInTime(provider, effective, now + effective, now, calls, j);
  }

  /** The same for the retry loop as it runs, started at the reading the event stands on. */
  method MakeTimedCall<R(==,!new)>(
      x: Session, trace: seq<Event>, i: nat, provider: Retries.ProviderCall<R>, configured: real, maxAttempts: int)
      returns (result: Result<R, Retries.Failure>, calls: seq<Retries.Call<R>>, end: real)
    requires LegalTrace(x, trace) && i < |trace| && (trace[i].Critiqued? || trace[i].Revised?)
    ensures result == Retries.Report(maxAttempts, calls)
    ensures forall j :: 0 <= j < |calls| ==> x.clock(trace[i].tick) <= calls[j].at < x.Deadline()
    ensures configured > 0.0 && Retries.Honours(provider) ==> x.clock(trace[i].tick) <= end <= x.Deadline()
  {
    CallsStartInTime(x, trace, i);
    var now := x.clock(trace[i].tick);
    result, calls, end := Retries.GenerateWithin(provider, maxAttempts, configured, now, x.Deadline());
  }

  // ---------------------------------------------------------------- acceptance

  datatype Thresholds = Thresholds(evidence: real, answer: real, citations: real, utility: int)

  predicate QualityPass(th: Thresholds, c: Critique, claims: seq<string>) {
    && c.support == Full && c.unsupportedClaims == [] && claims == []
    && c.evidenceRelevance >= th.evidence && c.answerRelevance >= th.answer
    && c.citationCompleteness >= th.citations && c.utility >= th.utility && c.missingAspects == []
  }

  function ThresholdDecide(th: Thresholds, c: Critique, s: State, b: Budget, claims: seq<string>): Action {
    if QualityPass(th, c, claims) then Accept
    else if && (c.retrievalNeeded || c.evidenceRelevance < th.evidence || c.support == NoSupport)
            && s.retrievals < b.maxRetrievals && s.iteration < b.maxIterations then RetrieveMore
    else if c.evidenceRelevance >= th.evidence && c.support != NoSupport && s.iteration < b.maxIterations then Revise
    else Abstain
  }

  ghost predicate UsesThresholds(eng: Engine, th: Thresholds) {
    forall i, c, s, b, claims :: eng.policy(i, c, s, b, claims) == ThresholdDecide(th, c, s, b, claims)
  }

  /** Event `i` is a critique that meets every threshold. */
  predicate Passes(x: Session, th: Thresholds, trace: seq<Event>, i: nat)
    requires i < |trace|
  {
    && trace[i].Critiqued? && trace[i].critique.Success?
    && QualityPass(th, trace[i].critique.value, x.eng.unsupported(trace[i].answer, trace[i].evidence))
  }

  /** An accepted answer is the very answer, on the very evidence, that the last critique
      examined; that critique met every threshold with no claim left unsupported, by the
      critic or by the lexical check; and the run was within its tokens and, at every
      reading up to one taken after the decision, before its deadline. */
  lemma AcceptanceIsSound(x: Session, th: Thresholds, trace: seq<Event>, end: nat, o: Outcome)
    requires LegalTrace(x, trace) && Closes(x, trace, end, o) && UsesThresholds(x.eng, th) && o.accepted
    ensures |trace| >= 2 && trace[|trace| - 2].Critiqued? && EndsDecided(trace, Accept)
    ensures var last := trace[|trace| - 2];
      && last.answer == o.answer && last.evidence == o.evidence
      && last.critique.Success? && o.critique == Some(last.critique.value)
      && QualityPass(th, last.critique.value, x.eng.unsupported(o.answer, o.evidence))
    ensures o.tokens == Spent(trace) <= x.eng.maxTokens && o.iterations == Critiques(trace)
    ensures trace[|trace| - 2].tick < trace[|trace| - 1].tick < end && InTime(x, 0, end)
  {
    EndsOnAccept(x, trace, end, o);
    PolicyAccepts(x, th, trace);
    TraceIsAccounted(x, trace);
    ReadingsAreInTime(x, trace);
  }

  /** The threshold policy decides to accept only on a critique that passes. */
  lemma PolicyAccepts(x: Session, th: Thresholds, trace: seq<Event>)
    requires LegalTrace(x, trace) && EndsDecided(trace, Accept) && UsesThresholds(x.eng, th)
    ensures |trace| >= 2 && Passes(x, th, trace, |trace| - 2)
    ensures LastCritique(trace) == Some(trace[|trace| - 2].critique.value)
    ensures After(x, trace) == After(x, trace[..|trace| - 1])
  {
    var before := trace[..|trace| - 1];
    assert Legal(x, before, trace[|trace| - 1]) && before[|before| - 1] == trace[|trace| - 2];
    CritiqueOnState(x, before);
  }

  /** A critique is on the state it leaves behind. */
  lemma CritiqueOnState(x: Session, trace: seq<Event>)
    requires LegalTrace(x, trace) && EndsCritiqued(trace)
    ensures trace[|trace| - 1].answer == After(x, trace).answer
    ensures trace[|trace| - 1].evidence == After(x, trace).evidence
    ensures LastCritique(trace) == Some(trace[|trace| - 1].critique.value)
  {
  }

  /** Whatever is not accepted carries the fixed abstention text and nothing else. */
  lemma OtherwiseAbstains(x: Session, trace: seq<Event>, end: nat, o: Outcome)
    requires Closes(x, trace, end, o)
    ensures !o.fallback && (o.abstain <==> !o.accepted) && (!o.accepted ==> o.answer == ABSTENTION)
  {
  }

  /** Nothing but acceptance may follow a passing critique. */
  lemma PassingIsDecidedAccept(x: Session, th: Thresholds, before: seq<Event>, e: Event)
    requires LegalTrace(x, before) && Legal(x, before, e) && UsesThresholds(x.eng, th)
    requires before != [] && Passes(x, th, before, |before| - 1)
    ensures e.Decided? && e.action == Accept
  {
    CritiqueOnState(x, before);
  }

  /** A passing critique is the run's last, and the run accepts its answer unless a budget
      ran out: it came back over the token budget, or one of the next two readings is late. */
  lemma PassingCritiqueIsAccepted(x: Session, th: Thresholds, trace: seq<Event>, i: nat, end: nat, o: Outcome)
    requires LegalTrace(x, trace) && Closes(x, trace, end, o) && UsesThresholds(x.eng, th)
    requires i < |trace| && Passes(x, th, trace, i)
    ensures i + 2 >= |trace|
    ensures o.accepted <==> (&& x.clock(trace[i].tick + 1) < x.Deadline() && x.clock(trace[i].tick + 2) < x.Deadline()
                             && Spent(trace[..i + 1]) <= x.eng.maxTokens)
    ensures o.accepted ==> o.answer == trace[i].answer && o.evidence == trace[i].evidence
  {
    if i + 1 == |trace| {
      assert trace[..i + 1] == trace;
      EndsOnPassing(x, trace, end, o);
    } else {
      AfterPassing(x, th, trace, i);
      EndsOnAccept(x, trace, end, o);
    }
  }

  /** A run that ends on a critique that came back ran out of a budget. */
  lemma EndsOnPassing(x: Session, trace: seq<Event>, end: nat, o: Outcome)
    requires LegalTrace(x, trace) && Closes(x, trace, end, o) && EndsCritiqued(trace)
    ensures !o.accepted && (x.clock(Ticks(trace) + 1) >= x.Deadline() || Spent(trace) > x.eng.maxTokens)
  {
    TraceIsAccounted(x, trace);
  }

  /** A run that ends on the decision to accept does so, unless the next reading is late. */
  lemma EndsOnAccept(x: Session, trace: seq<Event>, end: nat, o: Outcome)
    requires LegalTrace(x, trace) && Closes(x, trace, end, o) && EndsDecided(trace, Accept)
    ensures var before := trace[..|trace| - 1];
      && EndsCritiqued(before) && trace[|trace| - 2] == before[|before| - 1] && Spent(before) <= x.eng.maxTokens
      && Ticks(trace) == Ticks(before) + 1 && x.clock(Ticks(trace)) < x.Deadline()
      && (o.accepted <==> x.clock(Ticks(trace) + 1) < x.Deadline())
      && (o.accepted ==> o.answer == trace[|trace| - 2].answer && o.evidence == trace[|trace| - 2].evidence)
  {
    var before := trace[..|trace| - 1];
    assert Legal(x, before, trace[|trace| - 1]);
    TraceIsAccounted(x, before);
    CritiqueOnState(x, before);
  }

  lemma AfterPassing(x: Session, th: Thresholds, trace: seq<Event>, i: nat)
    requires LegalTrace(x, trace) && UsesThresholds(x.eng, th) && i + 1 < |trace| && Passes(x, th, trace, i)
    ensures |trace| == i + 2 && EndsDecided(trace, Accept)
  {
    LegalAt(x, trace, i + 1);
    assert trace[..i + 1][i] == trace[i];
    PassingIsDecidedAccept(x, th, trace[..i + 1], trace[i + 1]);
    if i + 2 < |trace| {
      LegalAt(x, trace, i + 2);
      NothingAfterAccept(x, trace[..i + 2], trace[i + 2]);
    }
  }

  lemma NothingAfterAccept(x: Session, before: seq<Event>, e: Event)
    requires EndsDecided(before, Accept)
    ensures !Legal(x, before, e)
  {
  }

  // ---------------------------------------------------------------- the availability boundary

  /** Any exception of the stage degrades to the untouched initial answer, never to a
      half-revised one, and is marked so that it is neither accepted nor cached. */
  method FailSafeReflect(x: Session) returns (o: Outcome, trace: seq<Event>, end: nat)
    ensures LegalTrace(x, trace)
    ensures o.fallback ==> o.answer == x.answer && o.evidence == x.evidence && !o.accepted && !o.applied
    ensures o.fallback ==> exists e :: Raises(x, trace, end, e)
    ensures !o.fallback ==> Closes(x, trace, end, o)
  {
    var result;
    result, trace, end := Reflect(x);
    match result {
      case Success(outcome) =>
        OtherwiseAbstains(x, trace, end, outcome);
        o := outcome;
      case Failure(_) =>
        o := Outcome(x.answer, x.evidence, false, false, Abstain, 0, 0, true, false, Some(ReflectionError), None, 0);
    }
  }
}
