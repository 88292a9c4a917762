/** The cohort-aware answer cache: an exact-match store and a semantic index of pointers
    into it, shared by workers whose config snapshots differ. */
module AnswerCache {
  import opened Wrappers
  import opened Numerals
  import opened AnswerKeys
  import Correction = Crag

  // ---------------------------------------------------------------- the namespace of a request

  /** What one process was wired with. */
  datatype Wiring = Wiring(
    reranker: seq<Inner>, hypothesiser: seq<Inner>, corrector: seq<Inner>, reflector: seq<Inner>,
    rerankPool: nat, reflectionTopK: nat)

  /** The runtime config one request captured, and the rollout draws of its question. */
  datatype Snapshot = Snapshot(
    corpus: nat, emergency: bool, reranking: bool, hyde: bool, crag: bool, cragShadow: bool, cragWeb: bool,
    reflective: bool, reflectiveShadow: bool, reflectiveRetrieval: bool,
    rerankDraw: bool, hydeDraw: bool, cragDraw: bool, reflectiveDraw: bool)

  function PlanRerank(w: Wiring, c: Snapshot, topK: nat): Rerank {
    if c.emergency then RerankBypassed(Emergency)
    else if !c.rerankDraw then RerankBypassed(Rollout)
    else Reranked(w.reranker, if topK >= w.rerankPool then topK else w.rerankPool)
  }

  function PlanHyde(w: Wiring, c: Snapshot): Hyde {
    if c.emergency then HydeBypassed(Emergency)
    else if !c.hydeDraw then HydeBypassed(Rollout)
    else Hypothesised(w.hypothesiser)
  }

  /** The correction stage's slice of a snapshot. */
  function CragSettings(c: Snapshot): Correction.Settings {
    Correction.Settings(c.crag, c.emergency, c.cragShadow, c.cragDraw, c.cragWeb)
  }

  /** The segment that the correction plan contributes once the stage is switched on. */
  function PlanCrag(w: Wiring, c: Snapshot): Crag
    requires c.crag
  {
    match Correction.PlanFor(CragSettings(c)).segment
    case Bypassed(why) => CragBypassed(if why == Correction.Emergency then Emergency else Rollout)
    case Shadow => CragShadow
    case Treatment => Corrected(w.corrector)
  }

  function PlanReflection(w: Wiring, c: Snapshot): Reflecting {
    if c.emergency then ReflectionBypassed(Emergency)
    else if c.reflectiveShadow then ReflectionShadow
    else if !c.reflectiveDraw then ReflectionBypassed(Rollout)
    else Reflected(c.reflectiveRetrieval, w.reflector)
  }

  function NamespaceOf(w: Wiring, c: Snapshot, strategy: Strategy, topK: nat): Namespace {
    Namespace(strategy, c.corpus,
              if c.reranking then Some(PlanRerank(w, c, topK)) else None,
              if c.hyde && strategy != Sparse then Some(PlanHyde(w, c)) else None,
              if c.crag then Some(PlanCrag(w, c)) else None,
              if c.reflective then Some(Reflection(PlanReflection(w, c), w.reflectionTopK)) else None)
  }

  /** A reranking plan's own parts: the segment without the pool width the service adds. */
  function RerankPlanTokens(r: Rerank): seq<Token> {
    match r
    case RerankBypassed(_) => RerankTokens(Some(r))
    case Reranked(delegate, _) => [DYNAMIC, V1, TREATMENT] + delegate
  }

  /** The namespace grows feature by feature as the request is planned; it is kept here as
      its colon-separated parts, and their join is the flattened typed namespace. */
  method BuildNamespace(w: Wiring, c: Snapshot, strategy: Strategy, topK: nat) returns (text: string)
    ensures text == Text(NamespaceOf(w, c, strategy, topK))
  {
    ghost var ns := NamespaceOf(w, c, strategy, topK);
    var parts: seq<Token> := StrategyTokens(strategy) + [Corpus(c.corpus)];
    ghost var base := parts;
    parts := AddRerank(w, c, topK, parts);
    ghost var reranked := parts;
    if c.hyde && strategy != Sparse { parts := parts + HydeTokens(Some(PlanHyde(w, c))); }
    assert parts == reranked + HydeTokens(ns.hyde);
    ghost var hyped := parts;
    if c.crag { parts := parts + CragTokens(Some(PlanCrag(w, c))); }
    assert parts == hyped + CragTokens(ns.crag);
    parts := AddReflection(w, c, parts);
    text := JoinColons(parts);
  }

  method AddRerank(w: Wiring, c: Snapshot, topK: nat, before: seq<Token>) returns (parts: seq<Token>)
    ensures parts == before + RerankTokens(if c.reranking then Some(PlanRerank(w, c, topK)) else None)
  {
    parts := before;
    if c.reranking {
      var plan := PlanRerank(w, c, topK);
      parts := parts + RerankPlanTokens(plan);
      if plan.Reranked? { parts := parts + [Candidates(plan.candidates)]; }
    }
  }

  method AddReflection(w: Wiring, c: Snapshot, before: seq<Token>) returns (parts: seq<Token>)
    ensures parts == before + ReflectionTokens(
      if c.reflective then Some(Reflection(PlanReflection(w, c), w.reflectionTopK)) else None)
  {
    parts := before;
    if c.reflective {
      var mode := ModeTokens(PlanReflection(w, c));
      parts := parts + (mode + [ReflectionTopK(w.reflectionTopK)]);
    }
  }

  // ---------------------------------------------------------------- responses and the gate

  /** What each stage reported while a response was produced. */
  datatype Flags = Flags(
    rerankFallback: bool, hydeFallback: bool, cragFallback: bool, webUsed: bool, cragAbstain: bool, fabricated: bool,
    reflectionFallback: bool, reflectionAbstain: bool, reflectionAccepted: bool, outputBlocked: bool)

  function PipelineFallback(f: Flags): bool {
    f.rerankFallback || f.hydeFallback || f.cragFallback || f.webUsed || f.cragAbstain || f.fabricated
    || f.reflectionFallback || f.reflectionAbstain || !f.reflectionAccepted || f.outputBlocked
  }

  /** No stage fell back, abstained or used the web, reflection accepted, nothing was blocked. */
  predicate Clean(f: Flags) {
    f == Flags(false, false, false, false, false, false, false, false, true, false)
  }

  datatype Request = Request(ns: Namespace, topK: nat, question: string, semantic: bool)

  /** A response with the request it was generated for and what its stages reported. */
  datatype Response = Response(body: string, madeFor: Request, flags: Flags)

  function KeyFor(r: Request): string { RawKey(Text(r.ns), r.topK, r.question) }

  // ---------------------------------------------------------------- the shared state

  /** One point of the semantic index: its partition and the exact-match key it points at. */
  datatype Point = Point(namespace: string, topK: nat, key: string)

  datatype Phase =
    | Unsearched
    | Searching(candidates: seq<string>)
    | Missed
    | Generated(response: Response)
    | Stored(response: Response)

  datatype Worker = Worker(request: Request, phase: Phase)

  datatype Hit = Hit(request: Request, response: Response, exact: bool)

  datatype State = State(exact: map<string, Response>, index: seq<Point>, workers: map<nat, Worker>, hits: seq<Hit>)

  const CANDIDATE_LIMIT: nat := 5

  datatype Step =
    | Ask(w: nat, request: Request, readFails: bool)
    | FindCandidates(w: nat, ranked: seq<(nat, real)>, threshold: real, fails: bool)
    | TryCandidate(w: nat, readFails: bool)
    | Generate(w: nat, body: string, flags: Flags)
    | Store(w: nat, fails: bool)
    | Record(w: nat, fails: bool)
    | Crash(w: nat)
    | Expire(key: string)
    | ClearExact
    | ClearIndex

  /** The scored points of a partition, nearest first, as the vector store returns them. */
  predicate Ranked(index: seq<Point>, namespace: string, topK: nat, ranked: seq<(nat, real)>) {
    && |ranked| <= CANDIDATE_LIMIT
    && (forall i :: 0 <= i < |ranked| ==> ranked[i].0 < |index|)
    && (forall i :: 0 <= i < |ranked| ==> index[ranked[i].0].namespace == namespace && index[ranked[i].0].topK == topK)
    && (forall i, j :: 0 <= i < j < |ranked| ==> ranked[j].1 <= ranked[i].1)
  }

  predicate InBounds(index: seq<Point>, ranked: seq<(nat, real)>) {
    forall i :: 0 <= i < |ranked| ==> ranked[i].0 < |index|
  }

  /** The keys down to the first point below the threshold. */
  function Clearing(index: seq<Point>, ranked: seq<(nat, real)>, threshold: real): seq<string>
    requires InBounds(index, ranked)
  {
    if ranked == [] || ranked[0].1 < threshold then []
    else [index[ranked[0].0].key] + Clearing(index, ranked[1..], threshold)
  }

  /** The loop that collects candidates until a score falls below the threshold. */
  method CollectCandidates(index: seq<Point>, ranked: seq<(nat, real)>, threshold: real) returns (keys: seq<string>)
    requires InBounds(index, ranked)
    ensures keys == Clearing(index, ranked, threshold)
  {
    keys := [];
    var i := 0;
    while i < |ranked|
      invariant 0 <= i <= |ranked| && |keys| == i
      invariant keys + Clearing(index, ranked[i..], threshold) == Clearing(index, ranked, threshold)
    {
      if ranked[i].1 < threshold { return; }
      assert ranked[i..][1..] == ranked[i + 1..];
      keys := keys + [index[ranked[i].0].key];
      i := i + 1;
    }
  }

  /** Nearest first, the candidates are the points down to the first one below the
      threshold; scores only fall after it, so every point that clears it is tried. */
  lemma {:induction false} ClearingIsThePrefix(index: seq<Point>, ranked: seq<(nat, real)>, threshold: real)
    requires InBounds(index, ranked)
    ensures var keys := Clearing(index, ranked, threshold);
      && |keys| <= |ranked|
      && (forall i :: 0 <= i < |keys| ==> ranked[i].1 >= threshold && keys[i] == index[ranked[i].0].key)
      && (|keys| < |ranked| ==> ranked[|keys|].1 < threshold)
  {
    if ranked != [] && ranked[0].1 >= threshold {
      ClearingIsThePrefix(index, ranked[1..], threshold);
    }
  }

  function Init(): State { State(map[], [], map[], []) }

  function Next(s: State, step: Step): State {
    match step
    case Ask(w, r, fails) =>
      if w in s.workers then s
      else if !fails && KeyFor(r) in s.exact then s.(hits := s.hits + [Hit(r, s.exact[KeyFor(r)], true)])
      else s.(workers := s.workers[w := Worker(r, if r.semantic then Unsearched else Missed)])
    case FindCandidates(w, ranked, threshold, fails) =>
      if w !in s.workers || s.workers[w].phase != Unsearched then s
      else
        var r := s.workers[w].request;
        if fails || !Ranked(s.index, Text(r.ns), r.topK, ranked) then s.(workers := s.workers[w := Worker(r, Missed)])
        else
          var keys := Clearing(s.index, ranked, threshold);
          s.(workers := s.workers[w := Worker(r, if keys == [] then Missed else Searching(keys))])
    case TryCandidate(w, fails) =>
      if w !in s.workers || !s.workers[w].phase.Searching? || s.workers[w].phase.candidates == [] then s
      else
        var r, keys := s.workers[w].request, s.workers[w].phase.candidates;
        if !fails && keys[0] in s.exact
        then s.(hits := s.hits + [Hit(r, s.exact[keys[0]], false)], workers := s.workers - {w})
        else s.(workers := s.workers[w := Worker(r, if |keys| == 1 then Missed else Searching(keys[1..]))])
    case Generate(w, body, flags) =>
      if w !in s.workers || s.workers[w].phase != Missed then s
      else
        var r := s.workers[w].request;
        if PipelineFallback(flags) then s.(workers := s.workers - {w})
        else s.(workers := s.workers[w := Worker(r, Generated(Response(body, r, flags)))])
    case Store(w, fails) =>
      if w !in s.workers || !s.workers[w].phase.Generated? then s
      else
        var r, made := s.workers[w].request, s.workers[w].phase.response;
        if fails then s.(workers := s.workers - {w})
        else s.(exact := s.exact[KeyFor(r) := made],
                workers := if r.semantic then s.workers[w := Worker(r, Stored(made))] else s.workers - {w})
    case Record(w, fails) =>
      if w !in s.workers || !s.workers[w].phase.Stored? then s
      else
        var r := s.workers[w].request;
        s.(index := if fails then s.index else s.index + [Point(Text(r.ns), r.topK, KeyFor(r))],
           workers := s.workers - {w})
    case Crash(w) => s.(workers := s.workers - {w})
    case Expire(key) => s.(exact := s.exact - {key})
    case ClearExact => s.(exact := map[])
    case ClearIndex => s.(index := [])
  }

  function Run(steps: seq<Step>): State {
    if steps == [] then Init() else Next(Run(steps[..|steps| - 1]), steps[|steps| - 1])
  }

  // ---------------------------------------------------------------- the invariant

  /** What sits under a key is a clean response generated for a request with that key. */
  predicate EntryOk(key: string, made: Response) { Clean(made.flags) && key == KeyFor(made.madeFor) }

  /** A key of some request in the partition. */
  ghost predicate KeyOfPartition(key: string, namespace: string, topK: nat) {
    exists r: Request :: Text(r.ns) == namespace && r.topK == topK && key == KeyFor(r)
  }

  ghost predicate KeysOfPartition(keys: seq<string>, namespace: string, topK: nat) {
    forall i :: 0 <= i < |keys| ==> KeyOfPartition(keys[i], namespace, topK)
  }

  ghost predicate PointOk(p: Point) { KeyOfPartition(p.key, p.namespace, p.topK) }

  ghost predicate WorkerOk(k: Worker) {
    match k.phase
    case Searching(keys) => KeysOfPartition(keys, Text(k.request.ns), k.request.topK)
    case Unsearched => true
    case Missed => true
    case Generated(made) => Clean(made.flags) && made.madeFor == k.request
    case Stored(made) => Clean(made.flags) && made.madeFor == k.request
  }

  /** A hit returns a clean response made under the requester's own namespace and top_k,
      and an exact hit one made for the same normalised question. */
  predicate HitOk(h: Hit) {
    && Clean(h.response.flags)
    && h.response.madeFor.ns == h.request.ns && h.response.madeFor.topK == h.request.topK
    && (h.exact ==> NormalizedQuestion(h.response.madeFor.question) == NormalizedQuestion(h.request.question))
  }

  ghost predicate EntriesOk(s: State) { forall key :: key in s.exact ==> EntryOk(key, s.exact[key]) }
  ghost predicate IndexOk(s: State) { forall i :: 0 <= i < |s.index| ==> PointOk(s.index[i]) }
  ghost predicate WorkersOk(s: State) { forall w :: w in s.workers ==> WorkerOk(s.workers[w]) }
  predicate HitsOk(s: State) { forall i :: 0 <= i < |s.hits| ==> HitOk(s.hits[i]) }

  ghost predicate Inv(s: State) { EntriesOk(s) && IndexOk(s) && WorkersOk(s) && HitsOk(s) }

  lemma GateIsClean(f: Flags)
    ensures Clean(f) <==> !PipelineFallback(f)
  {
  }

  lemma ExactHitOk(s: State, r: Request)
    requires EntriesOk(s) && KeyFor(r) in s.exact
    ensures HitOk(Hit(r, s.exact[KeyFor(r)], true))
  {
    var made := s.exact[KeyFor(r)];
    assert EntryOk(KeyFor(r), made);
    KeyInjective(made.madeFor.ns, made.madeFor.topK, made.madeFor.question, r.ns, r.topK, r.question);
  }

  lemma TextInjective(ns: Namespace, ns': Namespace)
    requires Text(ns) == Text(ns')
    ensures ns == ns'
  {
    KeyInjective(ns, 0, "", ns', 0, "");
  }

  lemma CandidateHitOk(s: State, r: Request, key: string)
    requires EntriesOk(s) && key in s.exact && KeyOfPartition(key, Text(r.ns), r.topK)
    ensures HitOk(Hit(r, s.exact[key], false))
  {
    var made := s.exact[key];
    assert EntryOk(key, made);
    var q: Request :| Text(q.ns) == Text(r.ns) && q.topK == r.topK && key == KeyFor(q);
    KeyInjective(made.madeFor.ns, made.madeFor.topK, made.madeFor.question, q.ns, q.topK, q.question);
    TextInjective(q.ns, r.ns);
  }

  /** Every candidate key is the key of one of the ranked points. */
  lemma ClearingInPartition(index: seq<Point>, namespace: string, topK: nat, ranked: seq<(nat, real)>, threshold: real)
    requires Ranked(index, namespace, topK, ranked) && forall i :: 0 <= i < |index| ==> PointOk(index[i])
    ensures KeysOfPartition(Clearing(index, ranked, threshold), namespace, topK)
  {
    var keys := Clearing(index, ranked, threshold);
    ClearingIsThePrefix(index, ranked, threshold);
    forall k | 0 <= k < |keys|
      ensures KeyOfPartition(keys[k], namespace, topK)
    {
      assert PointOk(index[ranked[k].0]);
    }
  }

  lemma HitKeepsInv(s: State, h: Hit)
    requires Inv(s) && HitOk(h)
    ensures Inv(s.(hits := s.hits + [h]))
  {
  }

  lemma DoneKeepsInv(s: State, w: nat)
    requires Inv(s)
    ensures Inv(s.(workers := s.workers - {w}))
  {
  }

  lemma WorkerKeepsInv(s: State, w: nat, k: Worker)
    requires Inv(s) && WorkerOk(k)
    ensures Inv(s.(workers := s.workers[w := k]))
  {
  }

  lemma ExactHitKeepsInv(s: State, r: Request)
    requires Inv(s) && KeyFor(r) in s.exact
    ensures Inv(s.(hits := s.hits + [Hit(r, s.exact[KeyFor(r)], true)]))
  {
    ExactHitOk(s, r);
    HitKeepsInv(s, Hit(r, s.exact[KeyFor(r)], true));
  }

  lemma AskKeepsInv(s: State, step: Step)
    requires Inv(s) && step.Ask?
    ensures Inv(Next(s, step))
  {
    var r := step.request;
    if !step.readFails && KeyFor(r) in s.exact {
      ExactHitKeepsInv(s, r);
    } else {
      WorkerKeepsInv(s, step.w, Worker(r, if r.semantic then Unsearched else Missed));
    }
  }

  lemma FindKeepsInv(s: State, step: Step)
    requires Inv(s) && step.FindCandidates?
    ensures Inv(Next(s, step))
  {
    if step.w in s.workers {
      var r := s.workers[step.w].request;
      if Ranked(s.index, Text(r.ns), r.topK, step.ranked) {
        ClearingInPartition(s.index, Text(r.ns), r.topK, step.ranked, step.threshold);
        var keys := Clearing(s.index, step.ranked, step.threshold);
        WorkerKeepsInv(s, step.w, Worker(r, if keys == [] then Missed else Searching(keys)));
      }
      WorkerKeepsInv(s, step.w, Worker(r, Missed));
    }
  }

  lemma TryKeepsInv(s: State, step: Step)
    requires Inv(s) && step.TryCandidate?
    ensures Inv(Next(s, step))
  {
    if step.w in s.workers && s.workers[step.w].phase.Searching? && s.workers[step.w].phase.candidates != [] {
      var k := s.workers[step.w];
      var keys := k.phase.candidates;
      assert WorkerOk(k);
      if !step.readFails && keys[0] in s.exact {
        CandidateHitOk(s, k.request, keys[0]);
        HitKeepsInv(s, Hit(k.request, s.exact[keys[0]], false));
        DoneKeepsInv(s.(hits := s.hits + [Hit(k.request, s.exact[keys[0]], false)]), step.w);
      } else {
        WorkerKeepsInv(s, step.w, Worker(k.request, if |keys| == 1 then Missed else Searching(keys[1..])));
      }
    }
  }

  lemma GenerateKeepsInv(s: State, step: Step)
    requires Inv(s) && step.Generate?
    ensures Inv(Next(s, step))
  {
    GateIsClean(step.flags);
  }

  lemma StoreKeepsInv(s: State, step: Step)
    requires Inv(s) && step.Store?
    ensures Inv(Next(s, step))
  {
    if step.w in s.workers && s.workers[step.w].phase.Generated? {
      var k := s.workers[step.w];
      assert WorkerOk(k);
      assert EntryOk(KeyFor(k.request), k.phase.response);
      assert WorkerOk(Worker(k.request, Stored(k.phase.response)));
    }
  }

  lemma PointKeepsInv(s: State, p: Point)
    requires Inv(s) && PointOk(p)
    ensures Inv(s.(index := s.index + [p]))
  {
    assert IndexOk(s.(index := s.index + [p]));
  }

  lemma OwnPointOk(r: Request)
    ensures PointOk(Point(Text(r.ns), r.topK, KeyFor(r)))
  {
  }

  lemma RecordKeepsInv(s: State, step: Step)
    requires Inv(s) && step.Record?
    ensures Inv(Next(s, step))
  {
    if step.w in s.workers && s.workers[step.w].phase.Stored? {
      var r := s.workers[step.w].request;
      var p := Point(Text(r.ns), r.topK, KeyFor(r));
      OwnPointOk(r);
      DoneKeepsInv(s, step.w);
      PointKeepsInv(s.(workers := s.workers - {step.w}), p);
    }
  }

  lemma NextKeepsInv(s: State, step: Step)
    requires Inv(s)
    ensures Inv(Next(s, step))
  {
    match step
    case Ask(_, _, _) => AskKeepsInv(s, step);
    case FindCandidates(_, _, _, _) => FindKeepsInv(s, step);
    case TryCandidate(_, _) => TryKeepsInv(s, step);
    case Generate(_, _, _) => GenerateKeepsInv(s, step);
    case Store(_, _) => StoreKeepsInv(s, step);
    case Record(_, _) => RecordKeepsInv(s, step);
    case _ =>
  }

  lemma {:induction false} RunKeepsInv(steps: seq<Step>)
    ensures Inv(Run(steps))
  {
    if steps != [] {
      RunKeepsInv(steps[..|steps| - 1]);
      NextKeepsInv(Run(steps[..|steps| - 1]), steps[|steps| - 1]);
    }
  }

  /** Cache provenance over all runs: whatever the interleaving of requests on workers with
      different config snapshots, of failed reads and writes, crashes, expiries and clears,
      every hit, exact or semantic, returns a response made under the requester's own
      strategy, corpus version, cohort segments and top_k, and never one where a stage fell
      back, abstained, used the web, was not accepted or was blocked. */
  lemma EveryHitHasProvenance(steps: seq<Step>, i: nat)
    requires i < |Run(steps).hits|
    ensures HitOk(Run(steps).hits[i])
  {
    RunKeepsInv(steps);
  }

  /** Hit number `i` was asked for under one snapshot and made under another. */
  predicate HitAcross(
      steps: seq<Step>, i: nat, w: Wiring, c: Snapshot, strategy: Strategy, topK: nat,
      w': Wiring, c': Snapshot, strategy': Strategy, topK': nat)
  {
    && i < |Run(steps).hits|
    && var asked, made := Run(steps).hits[i].request, Run(steps).hits[i].response.madeFor;
       && asked.ns == NamespaceOf(w, c, strategy, topK) && asked.topK == topK
       && made.ns == NamespaceOf(w', c', strategy', topK') && made.topK == topK'
  }

  /** The same, in terms of two workers' snapshots: a hit never crosses a corpus version, a
      strategy, a cohort, a reranking pool or a reflection width. */
  lemma HitsNeverCrossCohorts(
      steps: seq<Step>, i: nat, w: Wiring, c: Snapshot, strategy: Strategy, topK: nat,
      w': Wiring, c': Snapshot, strategy': Strategy, topK': nat)
    requires HitAcross(steps, i, w, c, strategy, topK, w', c', strategy', topK')
    ensures strategy == strategy' && c.corpus == c'.corpus && topK == topK'
    ensures c.reranking == c'.reranking && c.crag == c'.crag && c.reflective == c'.reflective
    ensures c.reranking ==> PlanRerank(w, c, topK) == PlanRerank(w', c', topK')
    ensures c.hyde && strategy != Sparse ==> c'.hyde && PlanHyde(w, c) == PlanHyde(w', c')
    ensures c.crag ==> PlanCrag(w, c) == PlanCrag(w', c')
    ensures c.reflective ==> PlanReflection(w, c) == PlanReflection(w', c') && w.reflectionTopK == w'.reflectionTopK
  {
    EveryHitHasProvenance(steps, i);
  }

  /** A hit may come from a worker with the other web toggle, and still does no harm: if the
      correction behind it could be cached, the asking worker's own correction of the same
      question and chunks would have had the same outcome. */
  lemma HitsShareCorrection(
      steps: seq<Step>, i: nat, w: Wiring, c: Snapshot, strategy: Strategy, topK: nat,
      w': Wiring, c': Snapshot, strategy': Strategy, topK': nat,
      k: Correction.Corrector, question: string, docs: seq<Correction.Doc>)
    requires HitAcross(steps, i, w, c, strategy, topK, w', c', strategy', topK')
    requires Correction.Cacheable(Correction.Execute(k, question, docs, Correction.PlanFor(CragSettings(c'))))
    ensures Correction.Execute(k, question, docs, Correction.PlanFor(CragSettings(c))) ==
            Correction.Execute(k, question, docs, Correction.PlanFor(CragSettings(c')))
  {
    HitsNeverCrossCohorts(steps, i, w, c, strategy, topK, w', c', strategy', topK');
    Correction.SegmentDecidesCacheableOutcome(k, question, docs, CragSettings(c'), CragSettings(c));
  }
}
