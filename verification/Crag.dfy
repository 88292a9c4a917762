/** Corrective retrieval: grade the retrieved chunks, extract supporting sentences, and
    fall back to the web or to abstention. The grading model, the selection model, the
    query formulator and the web search are arbitrary functions that may also raise. */
module Crag {
  import opened Wrappers
  import opened Evidence
  import opened Sentences

  datatype Fault = Malformed | ParseError | Other(name: string)

  datatype Doc = Doc(text: string, source: string, score: real, page: Option<int>)

  datatype Decision = Correct | Ambiguous | Incorrect

  datatype ChunkGrade = ChunkGrade(index: nat, relevance: real, supports: bool)

  datatype RawPayload = Payload(coverage: real, chunks: seq<ChunkGrade>)

  /** What the reply schema admits: scores in range, no chunk graded twice. */
  type Payload = p: RawPayload |
    && 0.0 <= p.coverage <= 1.0
    && (forall i :: 0 <= i < |p.chunks| ==> 0.0 <= p.chunks[i].relevance <= 1.0)
    && (forall i, j :: 0 <= i < j < |p.chunks| ==> p.chunks[i].index != p.chunks[j].index)
    witness Payload(0.0, [])

  datatype Grade = Grade(decision: Decision, chunks: seq<ChunkGrade>, tokens: nat)

  // ---------------------------------------------------------------- grading

  /** The grading model, told which attempt this is; a reply may be malformed. */
  datatype RawGrader = Grader(
    llm: (nat, string, seq<Doc>) -> Result<(Payload, nat), Fault>,
    correct: real, ambiguous: real, maxChunks: nat)

  type Grader = g: RawGrader | 0.0 <= g.ambiguous < g.correct <= 1.0
    witness Grader((i, q, docs) => Failure(Malformed), 1.0, 0.0, 0)

  const PARSE_ATTEMPTS: nat := 2

  predicate Supportive(g: ChunkGrade, threshold: real) { g.supports && g.relevance >= threshold }

  predicate AnySupportive(chunks: seq<ChunkGrade>, threshold: real) {
    exists i :: 0 <= i < |chunks| && Supportive(chunks[i], threshold)
  }

  function Decide(g: Grader, p: Payload): Decision {
    var supportive := AnySupportive(p.chunks, g.ambiguous);
    if p.coverage >= g.correct && supportive then Correct
    else if p.coverage < g.ambiguous && !supportive then Incorrect
    else Ambiguous
  }

  function Indices(chunks: seq<ChunkGrade>): set<nat> { set i | 0 <= i < |chunks| :: chunks[i].index }

  function Range(n: nat): (r: set<nat>)
    ensures forall k :: k in r <==> 0 <= k < n
  {
    if n == 0 then {} else Range(n - 1) + {n - 1}
  }

  predicate Exact(p: Payload, n: nat) { Indices(p.chunks) == Range(n) }

  /** One grading attempt. */
  function Attempt(g: Grader, question: string, selected: seq<Doc>, attempt: nat): Result<Grade, Fault> {
    match g.llm(attempt, question, selected)
    case Failure(f) => Failure(f)
    case Success((p, tokens)) =>
      if Exact(p, |selected|) then Success(Grade(Decide(g, p), p.chunks, tokens)) else Failure(Malformed)
  }

  /** The first of the attempts that is not malformed, if there is one. */
  function FirstUsable(g: Grader, question: string, selected: seq<Doc>, attempt: nat): Result<Grade, Fault>
    requires attempt <= PARSE_ATTEMPTS + 1
    decreases PARSE_ATTEMPTS + 1 - attempt
  {
    if attempt > PARSE_ATTEMPTS then Failure(ParseError)
    else
      var r := Attempt(g, question, selected, attempt);
      if r == Failure(Malformed) then FirstUsable(g, question, selected, attempt + 1) else r
  }

  function Graded(g: Grader, question: string, docs: seq<Doc>): Result<Grade, Fault> {
    var selected := Take(g.maxChunks, docs);
    if selected == [] then Success(Grade(Incorrect, [], 0)) else FirstUsable(g, question, selected, 1)
  }

  method GradeChunks(g: Grader, question: string, docs: seq<Doc>) returns (r: Result<Grade, Fault>)
    ensures r == Graded(g, question, docs)
  {
    var selected := Take(g.maxChunks, docs);
    if selected == [] { return Success(Grade(Incorrect, [], 0)); }
    var attempt := 1;
    while attempt <= PARSE_ATTEMPTS
      invariant 1 <= attempt <= PARSE_ATTEMPTS + 1
      invariant FirstUsable(g, question, selected, 1) == FirstUsable(g, question, selected, attempt)
    {
      var reply := g.llm(attempt, question, selected);
      var fault := Malformed;
      match reply {
        case Failure(f) => fault := f;
        case Success((p, tokens)) =>
          if Exact(p, |selected|) { return Success(Grade(Decide(g, p), p.chunks, tokens)); }
      }
      if fault != Malformed { return Failure(fault); }
      attempt := attempt + 1;
    }
    return Failure(ParseError);
  }

  /** A returned grade covers exactly the chunks it was shown, and says CORRECT or INCORRECT
      only with, or only without, a chunk that supports the question. */
  lemma GradedIsExact(g: Grader, question: string, docs: seq<Doc>)
    requires Graded(g, question, docs).Success?
    ensures var grade := Graded(g, question, docs).value;
            && Indices(grade.chunks) == Range(|Take(g.maxChunks, docs)|)
            && (grade.decision == Correct ==> AnySupportive(grade.chunks, g.ambiguous))
            && (grade.decision == Incorrect ==> !AnySupportive(grade.chunks, g.ambiguous))
  {
    var selected := Take(g.maxChunks, docs);
    if selected == [] {
      assert Indices([]) == {};
    } else if Attempt(g, question, selected, 1) == Failure(Malformed) {
      assert FirstUsable(g, question, selected, 1) == FirstUsable(g, question, selected, 2);
    }
  }

  /** Malformed output costs one more attempt and no more; any other exception ends it. */
  lemma GradingRetriesOnce(g: Grader, question: string, docs: seq<Doc>)
    requires Take(g.maxChunks, docs) != []
    ensures var selected := Take(g.maxChunks, docs);
            var first, second := Attempt(g, question, selected, 1), Attempt(g, question, selected, 2);
            Graded(g, question, docs) ==
              if first != Failure(Malformed) then first
              else if second != Failure(Malformed) then second else Failure(ParseError)
  {
    var selected := Take(g.maxChunks, docs);
    assert FirstUsable(g, question, selected, 3) == Failure(ParseError);
    if Attempt(g, question, selected, 1) == Failure(Malformed) {
      assert FirstUsable(g, question, selected, 1) == FirstUsable(g, question, selected, 2);
    }
  }

  // ---------------------------------------------------------------- refinement

  predicate Distinct(s: seq<int>) { forall i, j :: 0 <= i < j < |s| ==> s[i] != s[j] }

  datatype RawSelection = Selection(document: nat, sentences: seq<int>)

  type Selection = s: RawSelection | Distinct(s.sentences) witness Selection(0, [])

  datatype WebResult = WebResult(title: string, text: string, url: string, score: real)

  /** The selection model is shown the question and the sentences of each document. */
  datatype Refiner = Refiner(
    llm: (string, seq<seq<string>>) -> Result<(seq<Selection>, nat), Fault>,
    minRelevance: real, maxDocuments: nat, maxSentences: nat)

  /** The valid sentence numbers below `n`, in ascending order. */
  function Ascending(indices: seq<int>, n: nat): (r: seq<nat>)
    ensures forall i :: 0 <= i < |r| ==> r[i] < n && r[i] in indices
    ensures forall i, j :: 0 <= i < j < |r| ==> r[i] < r[j]
  {
    if n == 0 then [] else Ascending(indices, n - 1) + (if n - 1 in indices then [n - 1] else [])
  }

  lemma {:induction false} AscendingHasAll(indices: seq<int>, n: nat, i: nat)
    requires i < n && i in indices
    ensures i in Ascending(indices, n)
  {
    if i < n - 1 { AscendingHasAll(indices, n - 1, i); }
  }

  function Pick(sentences: seq<string>, picks: seq<nat>): (r: seq<string>)
    requires forall i :: 0 <= i < |picks| ==> picks[i] < |sentences|
    ensures |r| == |picks| && forall i :: 0 <= i < |r| ==> r[i] == sentences[picks[i]]
  {
    seq(|picks|, i requires 0 <= i < |picks| => sentences[picks[i]])
  }

  function Materialize(sentences: seq<string>, indices: seq<int>): string {
    Join(Pick(sentences, Ascending(indices, |sentences|)))
  }

  /** A document and what its extracts will be tagged with. */
  datatype Labelled = Labelled(tag: Chunk, sentences: seq<string>)

  function SentencesOf(items: seq<Labelled>): seq<seq<string>> {
    seq(|items|, i requires 0 <= i < |items| => items[i].sentences)
  }

  /** The evidence of one selection; an unknown document or an empty pick yields none. */
  function Extract(items: seq<Labelled>, s: Selection): seq<Chunk> {
    if s.document >= |items| then []
    else
      var text := Materialize(items[s.document].sentences, s.sentences);
      if text == "" then [] else [items[s.document].tag.(text := text)]
  }

  function Extracts(items: seq<Labelled>, selections: seq<Selection>): seq<Chunk> {
    if selections == [] then []
    else Extracts(items, selections[..|selections| - 1]) + Extract(items, selections[|selections| - 1])
  }

  function Selected(r: Refiner, question: string, items: seq<Labelled>): Result<(seq<Selection>, nat), Fault> {
    if items == [] then Success(([], 0)) else r.llm(question, SentencesOf(items))
  }

  function Refined(r: Refiner, question: string, items: seq<Labelled>): Result<(seq<Chunk>, nat), Fault> {
    match Selected(r, question, items)
    case Failure(f) => Failure(f)
    case Success((selections, tokens)) => Success((Extracts(items, selections), tokens))
  }

  /** The graded chunks that clear the bar, in grade order. */
  function Relevant(chunks: seq<ChunkGrade>, threshold: real): (r: seq<ChunkGrade>)
    ensures forall i :: 0 <= i < |r| ==> r[i] in chunks && Supportive(r[i], threshold)
  {
    if chunks == [] then []
    else (if Supportive(chunks[0], threshold) then [chunks[0]] else []) + Relevant(chunks[1..], threshold)
  }

  function LocalItem(r: Refiner, doc: Doc): Labelled {
    Labelled(Chunk("", doc.source, doc.page, doc.score, Policy, None), Take(r.maxSentences, SplitSentences(doc.text)))
  }

  predicate InRange(chunks: seq<ChunkGrade>, docs: seq<Doc>) {
    forall i :: 0 <= i < |chunks| ==> chunks[i].index < |docs|
  }

  function LocalItems(r: Refiner, docs: seq<Doc>, chunks: seq<ChunkGrade>): (items: seq<Labelled>)
    requires InRange(chunks, docs)
    ensures |items| <= |Relevant(chunks, r.minRelevance)|
  {
    var kept := Take(r.maxDocuments, Relevant(chunks, r.minRelevance));
    seq(|kept|, i requires 0 <= i < |kept| => LocalItem(r, docs[kept[i].index]))
  }

  function WebItem(r: Refiner, found: WebResult): Labelled {
    Labelled(
      Chunk("", found.title, None, found.score, RegulatoryWeb, Some(found.url)),
      Take(r.maxSentences, SplitSentences(found.text)))
  }

  function WebItems(r: Refiner, results: seq<WebResult>): seq<Labelled> {
    var kept := Take(r.maxDocuments, results);
    seq(|kept|, i requires 0 <= i < |kept| => WebItem(r, kept[i]))
  }

  /** The loop that turns selections into evidence, for local and web documents alike. */
  method Refine(r: Refiner, question: string, items: seq<Labelled>) returns (result: Result<(seq<Chunk>, nat), Fault>)
    ensures result == Refined(r, question, items)
  {
    var selected := Selected(r, question, items);
    if selected.Failure? { return Failure(selected.error); }
    var selections := selected.value.0;
    var evidence: seq<Chunk> := [];
    var i := 0;
    while i < |selections|
      invariant 0 <= i <= |selections| && evidence == Extracts(items, selections[..i])
    {
      var selection := selections[i];
      assert selections[..i + 1][..i] == selections[..i];
      i := i + 1;
      if selection.document >= |items| { continue; }
      var text := Materialize(items[selection.document].sentences, selection.sentences);
      if text != "" {
        evidence := evidence + [items[selection.document].tag.(text := text)];
      }
    }
    assert selections[..i] == selections;
    return Success((evidence, selected.value.1));
  }

  // ---------------------------------------------------------------- evidence is extractive

  /** The text is a strictly increasing pick of the document's own sentences. */
  ghost predicate ExtractOf(text: string, sentences: seq<string>) {
    exists picks: seq<nat> :: PickedBy(text, sentences, picks)
  }

  predicate PickedBy(text: string, sentences: seq<string>, picks: seq<nat>) {
    && picks != []
    && (forall i :: 0 <= i < |picks| ==> picks[i] < |sentences|)
    && (forall i, j :: 0 <= i < j < |picks| ==> picks[i] < picks[j])
    && text == Join(Pick(sentences, picks))
  }

  ghost predicate FromItem(c: Chunk, item: Labelled) {
    c == item.tag.(text := c.text) && ExtractOf(c.text, item.sentences)
  }

  lemma {:induction false} ExtractsAreExtractive(items: seq<Labelled>, selections: seq<Selection>, c: Chunk)
    requires c in Extracts(items, selections)
    ensures exists k :: 0 <= k < |items| && FromItem(c, items[k])
  {
    var most, last := selections[..|selections| - 1], selections[|selections| - 1];
    if c in Extracts(items, most) {
      ExtractsAreExtractive(items, most, c);
    } else {
      assert c in Extract(items, last);
      var item := items[last.document];
      assert PickedBy(c.text, item.sentences, Ascending(last.sentences, |item.sentences|));
      assert FromItem(c, item);
    }
  }

  /** The chunk graded as supporting the question, at or above the bar, that a piece of
      local evidence was cut from. */
  ghost predicate CutFrom(r: Refiner, docs: seq<Doc>, g: ChunkGrade, c: Chunk) {
    && Supportive(g, r.minRelevance) && g.index < |docs|
    && FromItem(c, LocalItem(r, docs[g.index]))
  }

  /** Every local evidence text is the join of a strictly increasing pick of sentences of
      one chunk that was graded supportive, and carries that chunk's source, page and score. */
  lemma LocalEvidenceIsExtractive(r: Refiner, question: string, docs: seq<Doc>, chunks: seq<ChunkGrade>, c: Chunk)
    requires InRange(chunks, docs)
    requires Refined(r, question, LocalItems(r, docs, chunks)).Success?
    requires c in Refined(r, question, LocalItems(r, docs, chunks)).value.0
    ensures exists g :: g in chunks && CutFrom(r, docs, g, c)
  {
    var items := LocalItems(r, docs, chunks);
    ExtractsAreExtractive(items, Selected(r, question, items).value.0, c);
    var k :| 0 <= k < |items| && FromItem(c, items[k]);
    var g := Relevant(chunks, r.minRelevance)[k];
    assert items[k] == LocalItem(r, docs[g.index]);
    assert CutFrom(r, docs, g, c);
  }

  lemma {:induction false} NothingRelevant(chunks: seq<ChunkGrade>, threshold: real)
    ensures Relevant(chunks, threshold) == [] <==> !AnySupportive(chunks, threshold)
  {
    if chunks != [] {
      NothingRelevant(chunks[1..], threshold);
      if AnySupportive(chunks[1..], threshold) {
        var i :| 0 <= i < |chunks[1..]| && Supportive(chunks[1..][i], threshold);
        assert Supportive(chunks[i + 1], threshold);
      }
      if AnySupportive(chunks, threshold) && !Supportive(chunks[0], threshold) {
        var i :| 0 <= i < |chunks| && Supportive(chunks[i], threshold);
        assert Supportive(chunks[1..][i - 1], threshold);
      }
    }
  }

  /** No reply that passes the index check and is judged INCORRECT has a chunk the refiner
      would keep. */
  ghost predicate IncorrectIsEmpty(g: Grader, minRelevance: real) {
    forall p: Payload :: Exact(p, |p.chunks|) && Decide(g, p) == Incorrect ==> Relevant(p.chunks, minRelevance) == []
  }

  /** An INCORRECT grade leaves nothing to extract exactly when the refiner's bar is not
      below the grading stage's; the wiring passes one setting to both. */
  lemma IncorrectLeavesNothing(g: Grader, minRelevance: real)
    requires 0.0 <= minRelevance <= 1.0
    ensures IncorrectIsEmpty(g, minRelevance) <==> minRelevance >= g.ambiguous
  {
    if minRelevance >= g.ambiguous {
      forall p: Payload | Exact(p, |p.chunks|) && Decide(g, p) == Incorrect
        ensures Relevant(p.chunks, minRelevance) == []
      {
        NothingRelevant(p.chunks, minRelevance);
        NotSupportiveAbove(p.chunks, g.ambiguous, minRelevance);
      }
    } else {
      var p := Payload(0.0, [ChunkGrade(0, minRelevance, true)]);
      assert p.chunks[0].index in Indices(p.chunks);
      assert Decide(g, p) == Incorrect;
      assert Supportive(p.chunks[0], minRelevance);
      NothingRelevant(p.chunks, minRelevance);
    }
  }

  lemma NotSupportiveAbove(chunks: seq<ChunkGrade>, low: real, high: real)
    requires low <= high && !AnySupportive(chunks, low)
    ensures !AnySupportive(chunks, high)
  {
    forall i | 0 <= i < |chunks|
      ensures !Supportive(chunks[i], high)
    {
      assert !Supportive(chunks[i], low);
    }
  }

  // ---------------------------------------------------------------- correction

  datatype Web = Web(
    permits: string -> bool,
    formulate: Option<string -> Result<(string, nat), Fault>>,
    search: Option<string -> Result<seq<WebResult>, Fault>>)

  datatype Corrector = Corrector(grader: Grader, refiner: Refiner, web: Web, minEvidence: nat)

  /** Why a request is planned without correction. */
  datatype Why = NotEnabled | Emergency | Rollout

  datatype Bypass = WebEmpty | StillInsufficient | NotPermitted | GraderParse | CragError | Disabled(why: Why)

  datatype Outcome = Outcome(
    evidence: seq<Chunk>, decision: Option<Decision>, applied: bool, fallback: bool, abstain: bool, webUsed: bool,
    bypass: Option<Bypass>, tokens: nat)

  /** Evidence as the grading stage reads it back: a web extract goes by its address. */
  function AsDoc(c: Chunk): Doc {
    Doc(c.text, if c.url.Some? && c.url.value != "" then c.url.value else c.source, c.score, c.page)
  }

  function AsRetrieved(evidence: seq<Chunk>): seq<Doc> {
    seq(|evidence|, i requires 0 <= i < |evidence| => AsDoc(evidence[i]))
  }

  lemma GradedInRange(g: Grader, question: string, docs: seq<Doc>)
    requires Graded(g, question, docs).Success?
    ensures InRange(Graded(g, question, docs).value.chunks, docs)
  {
    GradedIsExact(g, question, docs);
    var chunks := Graded(g, question, docs).value.chunks;
    forall i | 0 <= i < |chunks|
      ensures chunks[i].index < |docs|
    {
      assert chunks[i].index in Indices(chunks);
    }
  }

  /** Grade, then extract from the chunks that cleared the bar. */
  function LocalPass(k: Corrector, question: string, docs: seq<Doc>): (r: Result<(Grade, seq<Chunk>, nat), Fault>)
    ensures r.Success? ==> Graded(k.grader, question, docs) == Success(r.value.0)
  {
    match Graded(k.grader, question, docs)
    case Failure(f) => Failure(f)
    case Success(grade) =>
      GradedInRange(k.grader, question, docs);
      match Refined(k.refiner, question, LocalItems(k.refiner, docs, grade.chunks))
      case Failure(f) => Failure(f)
      case Success((local, tokens)) => Success((grade, local, grade.tokens + tokens))
  }

  /** The query that is searched for: the formulator's, or without one the question itself. */
  function Formulated(k: Corrector, question: string): Result<(string, nat), Fault> {
    if k.web.formulate.Some? then k.web.formulate.value(question) else Success((question, 0))
  }

  /** Search, extract, and grade the combined evidence again. */
  function WebPass(k: Corrector, question: string, grade: Grade, local: seq<Chunk>, tokens: nat): Result<Outcome, Fault>
    requires k.web.search.Some?
  {
    match Formulated(k, question)
    case Failure(f) => Failure(f)
    case Success((query, formulation)) =>
      match k.web.search.value(query)
      case Failure(f) => Failure(f)
      case Success(results) =>
        match Refined(k.refiner, question, WebItems(k.refiner, results))
        case Failure(f) => Failure(f)
        case Success((found, selection)) =>
          var spent := tokens + formulation + selection;
          if found == [] then
            Success(Outcome(local, Some(grade.decision), true, false, true, false, Some(WebEmpty), spent))
          else
            match Graded(k.grader, question, AsRetrieved(local + found))
            case Failure(f) => Failure(f)
            case Success(again) =>
              var enough := again.decision == Correct && |local + found| >= k.minEvidence;
              Success(Outcome(local + found, Some(grade.decision), true, false, !enough, true,
                              if enough then None else Some(StillInsufficient), spent + again.tokens))
  }

  function Corrected(k: Corrector, question: string, docs: seq<Doc>, allowWeb: bool): Result<Outcome, Fault> {
    match LocalPass(k, question, docs)
    case Failure(f) => Failure(f)
    case Success((grade, local, tokens)) =>
      if |local| >= k.minEvidence then
        Success(Outcome(local, Some(grade.decision), true, false, false, false, None, tokens))
      else if allowWeb && k.web.search.Some? && k.web.permits(question) then
        WebPass(k, question, grade, local, tokens)
      else Success(Outcome(local, Some(grade.decision), true, false, true, false, Some(NotPermitted), tokens))
  }

  function LocalEvidence(docs: seq<Doc>): seq<Chunk> {
    seq(|docs|, i requires 0 <= i < |docs| =>
      Chunk(docs[i].text, docs[i].source, docs[i].page, docs[i].score, Policy, None))
  }

  /** The availability boundary: any exception keeps the original chunks, marked a fallback. */
  function FailSafe(k: Corrector, question: string, docs: seq<Doc>, allowWeb: bool): Outcome {
    match Corrected(k, question, docs, allowWeb)
    case Success(o) => o
    case Failure(f) =>
      Outcome(LocalEvidence(docs), None, false, true, docs == [], false,
              Some(if f == ParseError then GraderParse else CragError), 0)
  }

  // ---------------------------------------------------------------- what is served

  /** Every outcome that is applied and does not abstain has enough evidence, and unless
      the web was used it is all cut from chunks graded supportive. */
  lemma ServedEvidenceIsSupported(k: Corrector, question: string, docs: seq<Doc>, allowWeb: bool)
    requires var o := FailSafe(k, question, docs, allowWeb); o.applied && !o.abstain
    ensures var o := FailSafe(k, question, docs, allowWeb);
      && |o.evidence| >= k.minEvidence
      && (!o.webUsed ==> Graded(k.grader, question, docs).Success?)
      && (!o.webUsed ==> forall c :: c in o.evidence ==>
            exists g :: g in Graded(k.grader, question, docs).value.chunks && CutFrom(k.refiner, docs, g, c))
  {
    var o := FailSafe(k, question, docs, allowWeb);
    if !o.webUsed {
      var (grade, local, tokens) := LocalPass(k, question, docs).value;
      GradedInRange(k.grader, question, docs);
      forall c | c in o.evidence
        ensures exists g :: g in grade.chunks && CutFrom(k.refiner, docs, g, c)
      {
        LocalEvidenceIsExtractive(k.refiner, question, docs, grade.chunks, c);
      }
    }
  }

  lemma IncorrectHasNoItems(k: Corrector, question: string, docs: seq<Doc>)
    requires k.refiner.minRelevance >= k.grader.ambiguous
    requires LocalPass(k, question, docs).Success? && LocalPass(k, question, docs).value.0.decision == Incorrect
    ensures LocalPass(k, question, docs).value.1 == []
  {
    var grade := LocalPass(k, question, docs).value.0;
    GradedIsExact(k.grader, question, docs);
    GradedInRange(k.grader, question, docs);
    NotSupportiveAbove(grade.chunks, k.grader.ambiguous, k.refiner.minRelevance);
    NothingRelevant(grade.chunks, k.refiner.minRelevance);
    assert LocalItems(k.refiner, docs, grade.chunks) == [];
    assert Selected(k.refiner, question, []) == Success(([], 0));
  }

  /** With one threshold for both stages, an INCORRECT grade is never answered from local
      evidence. */
  lemma IncorrectIsNeverServedLocally(k: Corrector, question: string, docs: seq<Doc>, allowWeb: bool)
    requires k.refiner.minRelevance >= k.grader.ambiguous && k.minEvidence >= 1
    requires var o := FailSafe(k, question, docs, allowWeb); o.applied && !o.abstain && !o.webUsed
    ensures FailSafe(k, question, docs, allowWeb).decision != Some(Incorrect)
  {
    if LocalPass(k, question, docs).value.0.decision == Incorrect { IncorrectHasNoItems(k, question, docs); }
  }

  /** Web evidence is served only after a second, CORRECT grade of everything served. */
  lemma WebIsServedOnlyRegraded(k: Corrector, question: string, docs: seq<Doc>, allowWeb: bool)
    requires var o := FailSafe(k, question, docs, allowWeb); o.webUsed && !o.abstain
    ensures var o := FailSafe(k, question, docs, allowWeb);
      && allowWeb && k.web.permits(question)
      && Graded(k.grader, question, AsRetrieved(o.evidence)).Success?
      && Graded(k.grader, question, AsRetrieved(o.evidence)).value.decision == Correct
      && LocalPass(k, question, docs).Success? && LocalPass(k, question, docs).value.1 < o.evidence
  {
  }

  /** A search result that a piece of web evidence was cut from. */
  ghost predicate CutFromWeb(k: Corrector, query: string, i: nat, c: Chunk) {
    && k.web.search.Some? && k.web.search.value(query).Success? && i < |k.web.search.value(query).value|
    && FromItem(c, WebItem(k.refiner, k.web.search.value(query).value[i]))
  }

  lemma WebExtracts(k: Corrector, question: string, query: string, c: Chunk)
    requires k.web.search.Some? && k.web.search.value(query).Success?
    requires Refined(k.refiner, question, WebItems(k.refiner, k.web.search.value(query).value)).Success?
    requires c in Refined(k.refiner, question, WebItems(k.refiner, k.web.search.value(query).value)).value.0
    ensures exists i :: CutFromWeb(k, query, i, c)
  {
    var results := k.web.search.value(query).value;
    var items := WebItems(k.refiner, results);
    ExtractsAreExtractive(items, Selected(k.refiner, question, items).value.0, c);
    var i :| 0 <= i < |items| && FromItem(c, items[i]);
    assert items[i] == WebItem(k.refiner, results[i]);
    assert CutFromWeb(k, query, i, c);
  }

  /** When the web is used, everything beyond the local evidence is extractive too: a pick of
      sentences of one result of the search that was made, carrying that result's title,
      address and score. */
  lemma WebEvidenceIsExtractive(k: Corrector, question: string, docs: seq<Doc>, c: Chunk)
    requires FailSafe(k, question, docs, true).webUsed && LocalPass(k, question, docs).Success?
    requires c in FailSafe(k, question, docs, true).evidence && c !in LocalPass(k, question, docs).value.1
    ensures Formulated(k, question).Success?
    ensures exists i: nat :: CutFromWeb(k, Formulated(k, question).value.0, i, c)
  {
    WebExtracts(k, question, Formulated(k, question).value.0, c);
  }

  // ---------------------------------------------------------------- the web toggle and the cache

  /** What the answer cache admits. */
  predicate Cacheable(o: Outcome) { !o.fallback && !o.webUsed && !o.abstain }

  /** Two runs that differ only in the web toggle: if either outcome may be cached, the
      outcomes are the same, whatever the oracles answer or raise. */
  lemma WebToggleCannotLeak(k: Corrector, question: string, docs: seq<Doc>)
    requires Cacheable(FailSafe(k, question, docs, true)) || Cacheable(FailSafe(k, question, docs, false))
    ensures FailSafe(k, question, docs, true) == FailSafe(k, question, docs, false)
  {
  }

  /** The slice of the runtime config the stage reads, with the rollout draw of this question. */
  datatype Settings = Settings(enabled: bool, emergency: bool, shadow: bool, sampledIn: bool, webEnabled: bool)

  datatype Segment = Bypassed(why: Why) | Shadow | Treatment

  datatype Plan = Plan(segment: Segment, allowWeb: bool)

  function PlanFor(c: Settings): Plan {
    if !c.enabled then Plan(Bypassed(NotEnabled), false)
    else if c.emergency then Plan(Bypassed(Emergency), false)
    else if c.shadow then Plan(Shadow, false)
    else if !c.sampledIn then Plan(Bypassed(Rollout), false)
    else Plan(Treatment, c.webEnabled)
  }

  function Execute(k: Corrector, question: string, docs: seq<Doc>, p: Plan): Outcome {
    match p.segment
    case Bypassed(why) => Outcome(LocalEvidence(docs), None, false, false, false, false, Some(Disabled(why)), 0)
    case _ => FailSafe(k, question, docs, p.allowWeb)
  }

  /** The namespace segment, which leaves the web toggle out, still decides every outcome
      that may be cached: two snapshots with the same segment cannot disagree on one. */
  lemma SegmentDecidesCacheableOutcome(k: Corrector, question: string, docs: seq<Doc>, c: Settings, c': Settings)
    requires PlanFor(c).segment == PlanFor(c').segment
    requires Cacheable(Execute(k, question, docs, PlanFor(c)))
    ensures Execute(k, question, docs, PlanFor(c')) == Execute(k, question, docs, PlanFor(c))
  {
    if PlanFor(c).segment == Treatment { WebToggleCannotLeak(k, question, docs); }
  }
}
