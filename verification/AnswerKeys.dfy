/** The cache namespace of an answer as typed segments, its flattened text, and the proof
    that the flattened key still determines every segment, top_k and the question. */
module AnswerKeys {
  import opened Wrappers
  import opened Separators
  import opened Numerals
  import Sentences

  function Dash(): (s: string)
    ensures ColonFree(s) && !AllDigits(s) && !AfterRerank(s)
  {
    assert !IsDigit("-"[0]);
    "-"
  }

  /** One colon-separated part of a namespace. */
  type Token = s: string | ColonFree(s) && !AllDigits(s) witness Dash()

  /** The tokens that open the HyDE, CRAG and reflection segments. */
  predicate HydeHead(s: string) { s == "query-transform" || s == "dynamic-query-transform" }
  predicate CragHead(s: string) { s == "crag" }
  predicate ReflectionHead(s: string) { s == "self-reflection" }

  predicate AfterRerank(s: string) { HydeHead(s) || CragHead(s) || ReflectionHead(s) }
  predicate AfterHyde(s: string) { CragHead(s) || ReflectionHead(s) }

  /** A part that a delegate contributes: never a head of a segment. */
  type Inner = s: string | ColonFree(s) && !AllDigits(s) && !AfterRerank(s) witness Dash()

  datatype Strategy = Dense | Sparse | Hybrid

  datatype Bypass = Emergency | Rollout

  datatype Rerank = RerankBypassed(why: Bypass) | Reranked(delegate: seq<Inner>, candidates: nat)

  datatype Hyde = HydeBypassed(why: Bypass) | Hypothesised(delegate: seq<Inner>)

  datatype Crag = CragBypassed(why: Bypass) | CragShadow | Corrected(delegate: seq<Inner>)

  datatype Reflecting =
    | ReflectionBypassed(why: Bypass)
    | ReflectionShadow
    | Reflected(retrieval: bool, delegate: seq<Inner>)

  datatype Reflection = Reflection(mode: Reflecting, topK: nat)

  /** A segment is present only when its feature is switched on. */
  datatype Namespace = Namespace(
    strategy: Strategy, corpus: nat, rerank: Option<Rerank>, hyde: Option<Hyde>, crag: Option<Crag>,
    reflection: Option<Reflection>)

  // ---------------------------------------------------------------- tokens

  /** A fixed part: its first character already tells it from a number. */
  function Lit(s: string): (t: Token)
    requires s != "" && !IsDigit(s[0]) && ColonFree(s)
    ensures t == s
  {
    assert !AllDigits(s);
    s
  }

  const V1: Token := Lit("v1")
  const V2: Token := Lit("v2")
  const NONE: Token := Lit("none")
  const SHADOW: Token := Lit("shadow")
  const DYNAMIC: Token := Lit("dynamic")
  const TREATMENT: Token := Lit("cohort=treatment")
  const RERANK: Token := Lit("rerank")
  const QUERY_TRANSFORM: Token := Lit("query-transform")
  const DYNAMIC_QUERY: Token := Lit("dynamic-query-transform")
  const HYDE: Token := Lit("hyde")
  const CRAG: Token := Lit("crag")
  const SELF_REFLECTION: Token := Lit("self-reflection")

  function Reason(why: Bypass): Token {
    match why case Emergency => Lit("reason=emergency_disabled") case Rollout => Lit("reason=rollout")
  }

  function Numbered(name: string, n: nat): (t: Token)
    requires name != "" && !IsDigit(name[0]) && ColonFree(name)
    ensures t == name + Decimal(n)
  {
    Lit(name + Decimal(n))
  }

  function Corpus(n: nat): Token { Numbered("corpus=", n) }

  function Candidates(n: nat): Token { Numbered("candidates=", n) }

  function ReflectionTopK(n: nat): Token { Numbered("reflection_top_k=", n) }

  function StrategyTokens(s: Strategy): seq<Token> {
    match s case Dense => [Lit("dense"), V1] case Sparse => [Lit("sparse"), V1] case Hybrid => [Lit("hybrid"), V2]
  }

  function BaseTokens(ns: Namespace): (r: seq<Token>)
    ensures |r| == 3
  {
    StrategyTokens(ns.strategy) + [Corpus(ns.corpus)]
  }

  function RerankTokens(r: Option<Rerank>): seq<Token> {
    match r
    case None => []
    case Some(RerankBypassed(why)) => [RERANK, NONE, Reason(why)]
    case Some(Reranked(delegate, candidates)) => [DYNAMIC, V1, TREATMENT] + delegate + [Candidates(candidates)]
  }

  function HydeTokens(h: Option<Hyde>): seq<Token> {
    match h
    case None => []
    case Some(HydeBypassed(why)) => [QUERY_TRANSFORM, NONE, Reason(why)]
    case Some(Hypothesised(delegate)) => [DYNAMIC_QUERY, V1, TREATMENT, HYDE, V2] + delegate
  }

  function CragTokens(c: Option<Crag>): seq<Token> {
    match c
    case None => []
    case Some(CragBypassed(why)) => [CRAG, NONE, Reason(why)]
    case Some(CragShadow) => [CRAG, SHADOW, V1]
    case Some(Corrected(delegate)) => [CRAG, DYNAMIC, V1, TREATMENT, CRAG, V1] + delegate
  }

  function Retrieval(allowed: bool): Token { if allowed then Lit("retrieval=True") else Lit("retrieval=False") }

  function ModeTokens(m: Reflecting): seq<Token> {
    match m
    case ReflectionBypassed(why) => [SELF_REFLECTION, NONE, Reason(why)]
    case ReflectionShadow => [SELF_REFLECTION, SHADOW, V1]
    case Reflected(retrieval, delegate) =>
      [SELF_REFLECTION, DYNAMIC, V1, TREATMENT, Retrieval(retrieval), SELF_REFLECTION, V1] + delegate
  }

  function ReflectionTokens(r: Option<Reflection>): seq<Token> {
    match r
    case None => []
    case Some(s) => ModeTokens(s.mode) + [ReflectionTopK(s.topK)]
  }

  function Tokens(ns: Namespace): seq<Token> {
    BaseTokens(ns) + RerankTokens(ns.rerank) + HydeTokens(ns.hyde) + CragTokens(ns.crag)
    + ReflectionTokens(ns.reflection)
  }

  function JoinColons(ts: seq<string>): string {
    if ts == [] then "" else if |ts| == 1 then ts[0] else ts[0] + ":" + JoinColons(ts[1..])
  }

  function Text(ns: Namespace): string { JoinColons(Tokens(ns)) }

  function NormalizedQuestion(question: string): string { Sentences.Normalize(question) }

  /** What is hashed; SHA-256 is taken to be injective, so this text stands for the key. */
  function RawKey(namespace: string, topK: nat, question: string): string {
    "rag:v8:" + namespace + ":" + Decimal(topK) + ":" + NormalizedQuestion(question)
  }

  // ---------------------------------------------------------------- token sequences decode

  predicate Without(s: seq<string>, head: string -> bool) { forall i :: 0 <= i < |s| ==> !head(s[i]) }

  predicate Opens(s: seq<string>, head: string -> bool) { s == [] || head(s[0]) }

  /** The first head token marks where a segment starts. */
  lemma SplitAtHead(a: seq<string>, b: seq<string>, a': seq<string>, b': seq<string>, head: string -> bool)
    requires a + b == a' + b'
    requires Without(a, head) && Without(a', head) && Opens(b, head) && Opens(b', head)
    ensures a == a' && b == b'
  {
    HeadAfter(a, b, a', b', head);
    HeadAfter(a', b', a, b, head);
    assert a == (a + b)[..|a|] && a' == (a' + b')[..|a'|];
    assert b == (a + b)[|a|..] && b' == (a' + b')[|a'|..];
  }

  lemma HeadAfter(a: seq<string>, b: seq<string>, a': seq<string>, b': seq<string>, head: string -> bool)
    requires a + b == a' + b' && Without(a', head) && Opens(b, head)
    ensures |a'| <= |a|
  {
    if b != [] {
      assert head((a + b)[|a|]);
      assert forall i :: 0 <= i < |a'| ==> (a' + b')[i] == a'[i];
    }
  }

  lemma NumberedInjective(name: string, m: nat, n: nat)
    requires ColonFree(name) && name != "" && !IsDigit(name[0])
    requires Numbered(name, m) == Numbered(name, n)
    ensures m == n
  {
    assert Numbered(name, m)[|name|..] == Decimal(m) && Numbered(name, n)[|name|..] == Decimal(n);
    DecimalInjective(m, n);
  }

  lemma CorpusInjective(m: nat, n: nat)
    requires Corpus(m) == Corpus(n)
    ensures m == n
  {
    NumberedInjective("corpus=", m, n);
  }

  lemma CandidatesInjective(m: nat, n: nat)
    requires Candidates(m) == Candidates(n)
    ensures m == n
  {
    NumberedInjective("candidates=", m, n);
  }

  lemma ReflectionTopKInjective(m: nat, n: nat)
    requires ReflectionTopK(m) == ReflectionTopK(n)
    ensures m == n
  {
    NumberedInjective("reflection_top_k=", m, n);
  }

  lemma LastToken(a: seq<string>, x: string, b: seq<string>, y: string)
    requires a + [x] == b + [y]
    ensures a == b && x == y
  {
    assert (a + [x])[|a|] == x && |a| == |b|;
    assert a == (a + [x])[..|a|] && b == (b + [y])[..|b|];
  }

  lemma ReasonInjective(a: Bypass, b: Bypass)
    requires Reason(a) == Reason(b)
    ensures a == b
  {
    assert |Reason(Emergency)| != |Reason(Rollout)|;
  }

  lemma SamePrefix(p: seq<string>, a: seq<string>, b: seq<string>)
    requires p + a == p + b
    ensures a == b
  {
    assert a == (p + a)[|p|..] && b == (p + b)[|p|..];
  }

  lemma TreatedRerankDecodes(d: seq<Inner>, n: nat, d': seq<Inner>, n': nat)
    requires RerankTokens(Some(Reranked(d, n))) == RerankTokens(Some(Reranked(d', n')))
    ensures d == d' && n == n'
  {
    LastToken([DYNAMIC, V1, TREATMENT] + d, Candidates(n), [DYNAMIC, V1, TREATMENT] + d', Candidates(n'));
    CandidatesInjective(n, n');
    SamePrefix([DYNAMIC, V1, TREATMENT], d, d');
  }

  lemma RerankDecodes(r: Option<Rerank>, r': Option<Rerank>)
    requires RerankTokens(r) == RerankTokens(r')
    ensures r == r'
  {
    match (r, r')
    case (Some(Reranked(d, n)), Some(Reranked(d', n'))) => TreatedRerankDecodes(d, n, d', n');
    case (Some(RerankBypassed(w)), Some(RerankBypassed(w'))) =>
      assert RerankTokens(r)[2] == Reason(w) && RerankTokens(r')[2] == Reason(w');
      ReasonInjective(w, w');
    case (None, None) =>
    case _ =>
  }

  lemma HydeDecodes(h: Option<Hyde>, h': Option<Hyde>)
    requires HydeTokens(h) == HydeTokens(h')
    ensures h == h'
  {
    match (h, h')
    case (Some(Hypothesised(d)), Some(Hypothesised(d'))) => SamePrefix([DYNAMIC_QUERY, V1, TREATMENT, HYDE, V2], d, d');
    case (Some(HydeBypassed(w)), Some(HydeBypassed(w'))) =>
      assert HydeTokens(h)[2] == Reason(w) && HydeTokens(h')[2] == Reason(w');
      ReasonInjective(w, w');
    case (None, None) =>
    case _ =>
  }

  /** The second part of a segment tells its kind. */
  lemma MarksDiffer()
    ensures NONE != SHADOW && NONE != DYNAMIC && SHADOW != DYNAMIC
  {
    assert |NONE| == 4 && |SHADOW| == 6 && |DYNAMIC| == 7;
  }

  lemma PrefixAt(p: seq<string>, d: seq<string>, i: nat)
    requires i < |p|
    ensures (p + d)[i] == p[i]
  {
  }

  function CragMark(c: Crag): Token {
    match c case CragBypassed(_) => NONE case CragShadow => SHADOW case Corrected(_) => DYNAMIC
  }

  lemma CragSecond(c: Crag)
    ensures |CragTokens(Some(c))| >= 2 && CragTokens(Some(c))[1] == CragMark(c)
  {
    match c
    case CragBypassed(why) => assert [CRAG, NONE, Reason(why)][1] == NONE;
    case CragShadow => assert [CRAG, SHADOW, V1][1] == SHADOW;
    case Corrected(d) => PrefixAt([CRAG, DYNAMIC, V1, TREATMENT, CRAG, V1], d, 1);
  }

  lemma CragDecodes(c: Option<Crag>, c': Option<Crag>)
    requires CragTokens(c) == CragTokens(c')
    ensures c == c'
  {
    if c.Some? && c'.Some? {
      CragSecond(c.value);
      CragSecond(c'.value);
      MarksDiffer();
      SomeCragDecodes(c.value, c'.value);
    }
  }

  lemma SomeCragDecodes(c: Crag, c': Crag)
    requires CragTokens(Some(c)) == CragTokens(Some(c')) && SameKind(c, c')
    ensures c == c'
  {
    match (c, c')
    case (Corrected(d), Corrected(d')) => SamePrefix([CRAG, DYNAMIC, V1, TREATMENT, CRAG, V1], d, d');
    case (CragBypassed(w), CragBypassed(w')) =>
      assert CragTokens(Some(c))[2] == Reason(w) && CragTokens(Some(c'))[2] == Reason(w');
      ReasonInjective(w, w');
    case (CragShadow, CragShadow) =>
  }

  predicate SameKind(c: Crag, c': Crag) {
    c.CragBypassed? == c'.CragBypassed? && c.CragShadow? == c'.CragShadow?
  }

  lemma ReflectedDecodes(r: bool, d: seq<Inner>, r': bool, d': seq<Inner>)
    requires ModeTokens(Reflected(r, d)) == ModeTokens(Reflected(r', d'))
    ensures r == r' && d == d'
  {
    assert ModeTokens(Reflected(r, d))[4] == Retrieval(r) && ModeTokens(Reflected(r', d'))[4] == Retrieval(r');
    assert |Retrieval(true)| != |Retrieval(false)|;
    SamePrefix([SELF_REFLECTION, DYNAMIC, V1, TREATMENT, Retrieval(r), SELF_REFLECTION, V1], d, d');
  }

  function ModeMark(m: Reflecting): Token {
    match m case ReflectionBypassed(_) => NONE case ReflectionShadow => SHADOW case Reflected(_, _) => DYNAMIC
  }

  lemma ModeSecond(m: Reflecting)
    ensures |ModeTokens(m)| >= 2 && ModeTokens(m)[1] == ModeMark(m)
  {
    match m
    case ReflectionBypassed(why) => TripleSecond(SELF_REFLECTION, NONE, Reason(why));
    case ReflectionShadow => TripleSecond(SELF_REFLECTION, SHADOW, V1);
    case Reflected(r, d) => ReflectedSecond(r, d);
  }

  lemma TripleSecond(a: string, b: string, c: string)
    ensures [a, b, c][1] == b
  {
  }

  lemma ReflectedSecond(r: bool, d: seq<Inner>)
    ensures |ModeTokens(Reflected(r, d))| >= 2 && ModeTokens(Reflected(r, d))[1] == DYNAMIC
  {
    var head := [SELF_REFLECTION, DYNAMIC, V1, TREATMENT, Retrieval(r), SELF_REFLECTION, V1];
    assert ModeTokens(Reflected(r, d)) == head + d;
    PrefixAt(head, d, 1);
  }

  lemma ModeDecodes(m: Reflecting, m': Reflecting)
    requires ModeTokens(m) == ModeTokens(m')
    ensures m == m'
  {
    ModeSecond(m);
    ModeSecond(m');
    MarksDiffer();
    SomeModeDecodes(m, m');
  }

  lemma SomeModeDecodes(m: Reflecting, m': Reflecting)
    requires ModeTokens(m) == ModeTokens(m')
    requires m.ReflectionBypassed? == m'.ReflectionBypassed? && m.ReflectionShadow? == m'.ReflectionShadow?
    ensures m == m'
  {
    match (m, m')
    case (Reflected(r, d), Reflected(r', d')) => ReflectedDecodes(r, d, r', d');
    case (ReflectionBypassed(w), ReflectionBypassed(w')) =>
      assert ModeTokens(m)[2] == Reason(w) && ModeTokens(m')[2] == Reason(w');
      ReasonInjective(w, w');
    case (ReflectionShadow, ReflectionShadow) =>
  }

  lemma ReflectionDecodes(r: Option<Reflection>, r': Option<Reflection>)
    requires ReflectionTokens(r) == ReflectionTokens(r')
    ensures r == r'
  {
    if r.Some? && r'.Some? {
      var a, b := r.value, r'.value;
      assert ReflectionTokens(r) == ModeTokens(a.mode) + [ReflectionTopK(a.topK)];
      assert ReflectionTokens(r') == ModeTokens(b.mode) + [ReflectionTopK(b.topK)];
      LastToken(ModeTokens(a.mode), ReflectionTopK(a.topK), ModeTokens(b.mode), ReflectionTopK(b.topK));
      ReflectionTopKInjective(a.topK, b.topK);
      ModeDecodes(a.mode, b.mode);
    }
  }

  lemma BaseDecodes(ns: Namespace, ns': Namespace)
    requires BaseTokens(ns) == BaseTokens(ns')
    ensures ns.strategy == ns'.strategy && ns.corpus == ns'.corpus
  {
    assert BaseTokens(ns)[2] == Corpus(ns.corpus) && BaseTokens(ns')[2] == Corpus(ns'.corpus);
    CorpusInjective(ns.corpus, ns'.corpus);
    assert BaseTokens(ns)[0] == StrategyTokens(ns.strategy)[0] && BaseTokens(ns')[0] == StrategyTokens(ns'.strategy)[0];
    assert StrategyTokens(Hybrid)[0][0] == 'h' && StrategyTokens(Dense)[0][0] == 'd';
    assert StrategyTokens(Sparse)[0][0] == 's';
  }

  // ---------------------------------------------------------------- segments do not mix

  lemma NumberedIsNoHead(name: string, n: nat)
    requires |name| >= 2 && name[0] == 'c' && name[1] != 'r' && ColonFree(name)
    ensures !AfterRerank(Numbered(name, n))
  {
    var t := Numbered(name, n);
    assert t[0] == 'c' && t[1] == name[1];
  }

  lemma WithoutConcat(a: seq<string>, b: seq<string>, head: string -> bool)
    requires Without(a, head) && Without(b, head)
    ensures Without(a + b, head)
  {
  }

  lemma BaseHasNoHead(ns: Namespace)
    ensures Without(BaseTokens(ns), AfterRerank)
  {
    NumberedIsNoHead("corpus=", ns.corpus);
  }

  lemma ReasonIsNoHead(why: Bypass)
    ensures !AfterRerank(Reason(why))
  {
    assert Reason(why)[0] == 'r';
  }

  lemma DelegateHasNoHead(delegate: seq<Inner>)
    ensures Without(delegate, AfterRerank)
  {
  }

  lemma LaterHeadsOnly(s: seq<string>)
    requires Without(s, AfterRerank)
    ensures Without(s, AfterHyde) && Without(s, ReflectionHead)
  {
  }

  lemma FixedRerank()
    ensures Without([DYNAMIC, V1, TREATMENT], AfterRerank) && Without([RERANK, NONE], AfterRerank)
  {
  }

  lemma FixedHyde()
    ensures Without([DYNAMIC_QUERY, V1, TREATMENT, HYDE, V2], AfterHyde) && Without([QUERY_TRANSFORM, NONE], AfterHyde)
  {
  }

  lemma FixedCrag()
    ensures Without([CRAG, DYNAMIC, V1, TREATMENT, CRAG, V1], ReflectionHead)
    ensures Without([CRAG, NONE], ReflectionHead) && Without([CRAG, SHADOW, V1], ReflectionHead)
  {
  }

  lemma CandidatesIsNoHead(n: nat)
    ensures Without([Candidates(n)], AfterRerank)
  {
    NumberedIsNoHead("candidates=", n);
  }

  lemma BypassHasNoHead(a: Token, b: Token, why: Bypass, head: string -> bool)
    requires Without([a, b], head) && !head(Reason(why))
    ensures Without([a, b, Reason(why)], head)
  {
  }

  lemma RerankHasNoHead(r: Option<Rerank>)
    ensures Without(RerankTokens(r), AfterRerank)
  {
    FixedRerank();
    match r
    case None =>
    case Some(RerankBypassed(why)) =>
      ReasonIsNoHead(why);
      BypassHasNoHead(RERANK, NONE, why, AfterRerank);
    case Some(Reranked(delegate, candidates)) =>
      DelegateHasNoHead(delegate);
      WithoutConcat([DYNAMIC, V1, TREATMENT], delegate, AfterRerank);
      CandidatesIsNoHead(candidates);
      WithoutConcat([DYNAMIC, V1, TREATMENT] + delegate, [Candidates(candidates)], AfterRerank);
  }

  lemma HydeHasNoLaterHead(h: Option<Hyde>)
    ensures Without(HydeTokens(h), AfterHyde)
  {
    FixedHyde();
    match h
    case None =>
    case Some(HydeBypassed(why)) =>
      ReasonIsNoHead(why);
      BypassHasNoHead(QUERY_TRANSFORM, NONE, why, AfterHyde);
    case Some(Hypothesised(delegate)) =>
      DelegateHasNoHead(delegate);
      LaterHeadsOnly(delegate);
      WithoutConcat([DYNAMIC_QUERY, V1, TREATMENT, HYDE, V2], delegate, AfterHyde);
  }

  lemma CragHasNoLaterHead(c: Option<Crag>)
    ensures Without(CragTokens(c), ReflectionHead)
  {
    FixedCrag();
    match c
    case None =>
    case Some(CragBypassed(why)) =>
      ReasonIsNoHead(why);
      BypassHasNoHead(CRAG, NONE, why, ReflectionHead);
    case Some(CragShadow) =>
    case Some(Corrected(delegate)) =>
      DelegateHasNoHead(delegate);
      LaterHeadsOnly(delegate);
      WithoutConcat([CRAG, DYNAMIC, V1, TREATMENT, CRAG, V1], delegate, ReflectionHead);
  }

  lemma SegmentsOpen(h: Option<Hyde>, c: Option<Crag>)
    ensures Opens(HydeTokens(h), HydeHead) && Opens(CragTokens(c), CragHead)
  {
  }

  lemma ReflectionOpens(r: Option<Reflection>)
    ensures Opens(ReflectionTokens(r), ReflectionHead)
  {
    if r.Some? { assert ReflectionTokens(r)[0] == ModeTokens(r.value.mode)[0] == SELF_REFLECTION; }
  }

  /** The token sequence determines the namespace. */
  lemma TokensDecode(ns: Namespace, ns': Namespace)
    requires Tokens(ns) == Tokens(ns')
    ensures ns == ns'
  {
    SplitSegments(
      BaseTokens(ns), RerankTokens(ns.rerank), HydeTokens(ns.hyde), CragTokens(ns.crag),
      ReflectionTokens(ns.reflection),
      BaseTokens(ns'), RerankTokens(ns'.rerank), HydeTokens(ns'.hyde), CragTokens(ns'.crag),
      ReflectionTokens(ns'.reflection))
      by { SegmentsAreSeparate(ns); SegmentsAreSeparate(ns'); }
    BaseDecodes(ns, ns');
    RerankDecodes(ns.rerank, ns'.rerank);
    HydeDecodes(ns.hyde, ns'.hyde);
    CragDecodes(ns.crag, ns'.crag);
    ReflectionDecodes(ns.reflection, ns'.reflection);
  }

  predicate Separate(b: seq<string>, r: seq<string>, h: seq<string>, c: seq<string>, s: seq<string>) {
    && |b| == 3 && Without(b, AfterRerank) && Without(r, AfterRerank)
    && Without(h, AfterHyde) && Opens(h, HydeHead)
    && Without(c, ReflectionHead) && Opens(c, CragHead) && Opens(s, ReflectionHead)
  }

  lemma SegmentsAreSeparate(ns: Namespace)
    ensures Separate(
      BaseTokens(ns), RerankTokens(ns.rerank), HydeTokens(ns.hyde), CragTokens(ns.crag),
      ReflectionTokens(ns.reflection))
  {
    BaseHasNoHead(ns);
    RerankHasNoHead(ns.rerank);
    HydeHasNoLaterHead(ns.hyde);
    CragHasNoLaterHead(ns.crag);
    SegmentsOpen(ns.hyde, ns.crag);
    ReflectionOpens(ns.reflection);
  }

  lemma SplitSegments(b: seq<string>, r: seq<string>, h: seq<string>, c: seq<string>, s: seq<string>,
                      b': seq<string>, r': seq<string>, h': seq<string>, c': seq<string>, s': seq<string>)
    requires Separate(b, r, h, c, s) && Separate(b', r', h', c', s')
    requires b + r + h + c + s == b' + r' + h' + c' + s'
    ensures b == b' && r == r' && h == h' && c == c' && s == s'
  {
    SplitAtHead(b + r + h + c, s, b' + r' + h' + c', s', ReflectionHead);
    SplitAtHead(b + r + h, c, b' + r' + h', c', AfterHyde);
    SplitAtHead(b + r, h, b' + r', h', AfterRerank);
    assert b == (b + r)[..3] && b' == (b' + r')[..3] && r == (b + r)[3..] && r' == (b' + r')[3..];
  }

  // ---------------------------------------------------------------- the flattened key decodes

  lemma JoinTail(ts: seq<string>, rest: string)
    requires |ts| > 1
    ensures JoinColons(ts) + ":" + rest == ts[0] + ":" + (JoinColons(ts[1..]) + ":" + rest)
  {
  }

  /** Tokens followed by a number and free text: the number is the first all-digit part,
      so it marks where the tokens end, whatever colons and digits the text contains. */
  lemma {:induction false} PartsDecode(ts: seq<Token>, k: nat, q: string, ts': seq<Token>, k': nat, q': string)
    requires ts != [] && ts' != []
    requires JoinColons(ts) + ":" + (Decimal(k) + ":" + q) == JoinColons(ts') + ":" + (Decimal(k') + ":" + q')
    ensures ts == ts' && k == k' && q == q'
  {
    var rest, rest' := Decimal(k) + ":" + q, Decimal(k') + ":" + q';
    DigitsColonFree(k);
    DigitsColonFree(k');
    if |ts| > 1 { JoinTail(ts, rest); }
    if |ts'| > 1 { JoinTail(ts', rest'); }
    HeadUnique(':', ts[0], if |ts| > 1 then JoinColons(ts[1..]) + ":" + rest else rest,
               ts'[0], if |ts'| > 1 then JoinColons(ts'[1..]) + ":" + rest' else rest');
    if |ts| > 1 && |ts'| > 1 {
      PartsDecode(ts[1..], k, q, ts'[1..], k', q');
      assert ts == [ts[0]] + ts[1..] && ts' == [ts'[0]] + ts'[1..];
    } else if |ts| == 1 && |ts'| == 1 {
      HeadUnique(':', Decimal(k), q, Decimal(k'), q');
      DecimalInjective(k, k');
    } else if |ts| == 1 {
      NumberIsNoToken(k, q, ts'[1..], rest');
    } else {
      NumberIsNoToken(k', q', ts[1..], rest);
    }
  }

  lemma DigitsColonFree(n: nat)
    ensures ColonFree(Decimal(n))
  {
  }

  /** A text that begins with a number never begins with a token. */
  lemma NumberIsNoToken(k: nat, q: string, ts: seq<Token>, rest: string)
    requires ts != []
    ensures Decimal(k) + ":" + q != JoinColons(ts) + ":" + rest
  {
    if Decimal(k) + ":" + q == JoinColons(ts) + ":" + rest {
      DigitsColonFree(k);
      if |ts| > 1 { JoinTail(ts, rest); }
      HeadUnique(':', Decimal(k), q, ts[0], if |ts| > 1 then JoinColons(ts[1..]) + ":" + rest else rest);
    }
  }

  lemma KeyBody(namespace: string, k: nat, q: string)
    ensures |RawKey(namespace, k, q)| >= 7
    ensures RawKey(namespace, k, q)[7..] == namespace + ":" + (Decimal(k) + ":" + NormalizedQuestion(q))
  {
    var body := namespace + ":" + (Decimal(k) + ":" + NormalizedQuestion(q));
    assert RawKey(namespace, k, q) == "rag:v8:" + body;
  }

  /** The key is injective: two requests share a cache key only if they agree on every
      segment of the namespace, on top_k and on the normalised question. */
  lemma KeyInjective(ns: Namespace, k: nat, q: string, ns': Namespace, k': nat, q': string)
    requires RawKey(Text(ns), k, q) == RawKey(Text(ns'), k', q')
    ensures ns == ns' && k == k' && NormalizedQuestion(q) == NormalizedQuestion(q')
  {
    KeyBody(Text(ns), k, q);
    KeyBody(Text(ns'), k', q');
    PartsDecode(Tokens(ns), k, NormalizedQuestion(q), Tokens(ns'), k', NormalizedQuestion(q'));
    TokensDecode(ns, ns');
  }
}
