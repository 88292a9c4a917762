/** Cache-aside batch embedding: duplicates are sent once, the provider may answer in any
    order, cache reads and writes may fail, and a gap raises. */
module Embeddings {
  import opened Wrappers
  import opened Separators

  type Vector = seq<real>

  /** One entry of a provider reply: the vector of the text at `index` of the batch. */
  datatype Item = Item(index: int, vector: Vector)

  /** A list index counts from the end when it is negative. */
  predicate Indexes(index: int, n: nat) { 0 <= index + n && index < n }

  function Place(index: int, n: nat): (i: nat)
    requires Indexes(index, n)
    ensures i < n
  {
    if index < 0 then index + n else index
  }

  /** The batch text that an item is read as answering. */
  function TextOf(batch: seq<string>, item: Item): string
    requires Indexes(item.index, |batch|)
  {
    batch[Place(item.index, |batch|)]
  }

  datatype Error = ProviderFailed | IndexOutOfRange | Missing(indices: seq<nat>)

  type Provider = seq<string> -> Result<seq<Item>, Error>

  /** What is hashed; SHA-256 is taken to be injective, so this text stands for the key. */
  function Key(model: string, text: string): string { model + ":" + text }

  lemma KeyInjective(model: string, text: string, model': string, text': string)
    requires ColonFree(model) && ColonFree(model') && Key(model, text) == Key(model', text')
    ensures model == model' && text == text'
  {
    HeadUnique(':', model, text, model', text');
  }

  /** Every cached vector is the embedding of its model and text. */
  ghost predicate Coherent(cache: map<string, Vector>, e: (string, string) -> Vector) {
    forall model, text :: ColonFree(model) && Key(model, text) in cache ==> cache[Key(model, text)] == e(model, text)
  }

  /** The provider's vectors are the embeddings of the texts their indices point at. */
  ghost predicate Honest(provider: Provider, model: string, e: (string, string) -> Vector) {
    forall batch :: provider(batch).Success? ==> ItemsHonest(provider(batch).value, batch, model, e)
  }

  ghost predicate ItemsHonest(items: seq<Item>, batch: seq<string>, model: string, e: (string, string) -> Vector) {
    forall k :: 0 <= k < |items| && Indexes(items[k].index, |batch|) ==>
      items[k].vector == e(model, TextOf(batch, items[k]))
  }

  lemma CachedIsEmbedding(cache: map<string, Vector>, e: (string, string) -> Vector, model: string, text: string)
    requires Coherent(cache, e) && ColonFree(model) && Key(model, text) in cache
    ensures cache[Key(model, text)] == e(model, text)
  {
  }

  lemma CoherentWrite(cache: map<string, Vector>, e: (string, string) -> Vector, model: string, text: string)
    requires Coherent(cache, e) && ColonFree(model)
    ensures Coherent(cache[Key(model, text) := e(model, text)], e)
  {
    forall m, t | ColonFree(m) && Key(m, t) == Key(model, text)
      ensures m == model && t == text
    {
      KeyInjective(m, t, model, text);
    }
  }

  /** The text at position `i` is not served by the cache. */
  predicate Missed(cache: map<string, Vector>, model: string, texts: seq<string>, readFails: nat -> bool, i: nat)
    requires i < |texts|
  {
    readFails(i) || Key(model, texts[i]) !in cache
  }

  /** The distinct texts missed among the first `n`, in order of first miss. */
  function Misses(
      cache: map<string, Vector>, model: string, texts: seq<string>, readFails: nat -> bool, n: nat): (r: seq<string>)
    requires n <= |texts|
  {
    if n == 0 then []
    else
      var earlier := Misses(cache, model, texts, readFails, n - 1);
      if Missed(cache, model, texts, readFails, n - 1) && texts[n - 1] !in earlier then earlier + [texts[n - 1]]
      else earlier
  }

  predicate NoDuplicates(s: seq<string>) { forall i, j :: 0 <= i < j < |s| ==> s[i] != s[j] }

  /** Each distinct missed text is sent once, and nothing else is sent. */
  lemma {:induction false} MissesAreDistinct(
      cache: map<string, Vector>, model: string, texts: seq<string>, readFails: nat -> bool, n: nat)
    requires n <= |texts|
    ensures NoDuplicates(Misses(cache, model, texts, readFails, n))
    ensures forall t :: t in Misses(cache, model, texts, readFails, n) <==>
              exists i :: 0 <= i < n && texts[i] == t && Missed(cache, model, texts, readFails, i)
  {
    if n > 0 {
      MissesAreDistinct(cache, model, texts, readFails, n - 1);
      var earlier := Misses(cache, model, texts, readFails, n - 1);
      forall t
        ensures t in Misses(cache, model, texts, readFails, n) <==>
                exists i :: 0 <= i < n && texts[i] == t && Missed(cache, model, texts, readFails, i)
      {
        if t in earlier {
          var i :| 0 <= i < n - 1 && texts[i] == t && Missed(cache, model, texts, readFails, i);
          assert 0 <= i < n;
        }
      }
    }
  }

  /** The reply names only texts of the batch. */
  predicate InRange(items: seq<Item>, n: nat) { forall k :: 0 <= k < |items| ==> Indexes(items[k].index, n) }

  predicate Answered(items: seq<Item>, n: nat, j: nat) {
    exists k :: 0 <= k < |items| && Indexes(items[k].index, n) && Place(items[k].index, n) == j
  }

  /** The first `n` items answer this batch text. */
  predicate Covers(batch: seq<string>, items: seq<Item>, n: nat, text: string) {
    exists k :: 0 <= k < n && k < |items| && Indexes(items[k].index, |batch|) && TextOf(batch, items[k]) == text
  }

  /** The positions recorded under each missed text. */
  ghost predicate Recorded(
      cache: map<string, Vector>, model: string, texts: seq<string>, readFails: nat -> bool, n: nat,
      batch: seq<string>, indices: map<string, seq<nat>>)
    requires n <= |texts|
  {
    && (forall t :: t in indices <==> t in batch)
    && (forall t :: t in indices ==> forall k :: k in indices[t] ==> k < n)
    && (forall k :: 0 <= k < n ==>
          (Missed(cache, model, texts, readFails, k) <==> texts[k] in indices && k in indices[texts[k]]))
    && (forall t, k :: t in indices && 0 <= k < n && k in indices[t] ==> texts[k] == t)
  }

  lemma RecordHit(
      cache: map<string, Vector>, model: string, texts: seq<string>, readFails: nat -> bool, n: nat,
      batch: seq<string>, indices: map<string, seq<nat>>)
    requires n < |texts| && Recorded(cache, model, texts, readFails, n, batch, indices)
    requires !Missed(cache, model, texts, readFails, n)
    ensures Recorded(cache, model, texts, readFails, n + 1, batch, indices)
  {
  }

  /** Where a text stands after one more miss of it. */
  function Add(indices: map<string, seq<nat>>, text: string, n: nat): map<string, seq<nat>> {
    indices[text := if text in indices then indices[text] + [n] else [n]]
  }

  lemma RecordMiss(
      cache: map<string, Vector>, model: string, texts: seq<string>, readFails: nat -> bool, n: nat,
      batch: seq<string>, indices: map<string, seq<nat>>)
    requires n < |texts| && Recorded(cache, model, texts, readFails, n, batch, indices)
    requires Missed(cache, model, texts, readFails, n)
    ensures Recorded(cache, model, texts, readFails, n + 1,
                     if texts[n] in batch then batch else batch + [texts[n]], Add(indices, texts[n], n))
  {
  }

  /** The inner loop: every recorded position receives the vector. */
  method FillPositions(results: seq<Option<Vector>>, positions: seq<nat>, vector: Vector)
      returns (r: seq<Option<Vector>>)
    requires forall k :: k in positions ==> k < |results|
    ensures |r| == |results| && forall k :: 0 <= k < |r| ==> r[k] == if k in positions then Some(vector) else results[k]
  {
    r := results;
    var j := 0;
    while j < |positions|
      invariant 0 <= j <= |positions| && |r| == |results|
      invariant forall k :: 0 <= k < |r| ==> r[k] == if k in positions[..j] then Some(vector) else results[k]
    {
      assert positions[j] in positions;
      r := r[positions[j] := Some(vector)];
      assert forall k :: k in positions[..j + 1] <==> k in positions[..j] || k == positions[j];
      j := j + 1;
    }
    assert positions[..j] == positions;
  }

  class OpenAIEmbeddingClient {
    var cache: map<string, Vector>

    constructor (cache: map<string, Vector>)
      ensures this.cache == cache
    {
      this.cache := cache;
    }

    /** A miss is recorded under its text; the first one also queues the text. */
    method RecordOne(
        texts: seq<string>, model: string, readFails: nat -> bool, i: nat, batch: seq<string>,
        indices: map<string, seq<nat>>)
        returns (batch': seq<string>, indices': map<string, seq<nat>>)
      requires i < |texts| && Missed(cache, model, texts, readFails, i)
      requires batch == Misses(cache, model, texts, readFails, i)
      requires Recorded(cache, model, texts, readFails, i, batch, indices)
      ensures batch' == Misses(cache, model, texts, readFails, i + 1)
      ensures Recorded(cache, model, texts, readFails, i + 1, batch', indices')
    {
      batch', indices' := batch, indices;
      RecordMiss(cache, model, texts, readFails, i, batch, indices);
      if texts[i] !in indices {
        batch' := batch + [texts[i]];
        indices' := indices[texts[i] := [i]];
      } else {
        indices' := indices[texts[i] := indices[texts[i]] + [i]];
      }
    }

    /** First pass: what the cache serves, and the distinct missed texts with their positions. */
    method ReadAll(texts: seq<string>, model: string, readFails: nat -> bool, ghost e: (string, string) -> Vector)
        returns (results: seq<Option<Vector>>, batch: seq<string>, missIndices: map<string, seq<nat>>)
      requires Coherent(cache, e) && ColonFree(model)
      ensures batch == Misses(cache, model, texts, readFails, |texts|)
      ensures Recorded(cache, model, texts, readFails, |texts|, batch, missIndices)
      ensures |results| == |texts| && Served(cache, model, texts, readFails, e, results, |texts|)
    {
      results, batch, missIndices := seq(|texts|, i => None), [], map[];
      var i := 0;
      while i < |texts|
        invariant 0 <= i <= |texts| == |results|
        invariant batch == Misses(cache, model, texts, readFails, i)
        invariant Recorded(cache, model, texts, readFails, i, batch, missIndices)
        invariant Served(cache, model, texts, readFails, e, results, i)
        invariant Unread(results, i)
      {
        if !readFails(i) && Key(model, texts[i]) in cache {
          RecordHit(cache, model, texts, readFails, i, batch, missIndices);
          CachedIsEmbedding(cache, e, model, texts[i]);
          ServedStep(cache, model, texts, readFails, e, results, i, Some(cache[Key(model, texts[i])]));
          results := results[i := Some(cache[Key(model, texts[i])])];
        } else {
          ServedStep(cache, model, texts, readFails, e, results, i, None);
          UnreadStays(results, i);
          batch, missIndices := RecordOne(texts, model, readFails, i, batch, missIndices);
        }
        i := i + 1;
      }
    }

    /** Second pass: each reply item is cached and copied to every position of its text. */
    method ApplyReply(
        texts: seq<string>, model: string, readFails: nat -> bool, writeFails: nat -> bool,
        ghost e: (string, string) -> Vector, batch: seq<string>, missIndices: map<string, seq<nat>>,
        before: seq<Option<Vector>>, items: seq<Item>)
        returns (ok: bool, results: seq<Option<Vector>>)
      requires Coherent(cache, e) && ColonFree(model) && ItemsHonest(items, batch, model, e)
      requires Recorded(cache, model, texts, readFails, |texts|, batch, missIndices)
      requires |before| == |texts| && Served(cache, model, texts, readFails, e, before, |texts|)
      modifies this
      ensures Coherent(cache, e)
      ensures ok <==> InRange(items, |batch|)
      ensures ok ==> |results| == |texts| && forall k :: 0 <= k < |texts| ==>
        results[k] == if !Missed(old(cache), model, texts, readFails, k) || Covers(batch, items, |items|, texts[k])
                      then Some(e(model, texts[k])) else None
    {
      results := before;
      var n := 0;
      while n < |items|
        invariant 0 <= n <= |items| && |results| == |texts| && Coherent(cache, e)
        invariant InRange(items[..n], |batch|)
        invariant forall k :: 0 <= k < |texts| ==>
          results[k] == if !Missed(old(cache), model, texts, readFails, k) || Covers(batch, items, n, texts[k])
                        then Some(e(model, texts[k])) else None
      {
        if !Indexes(items[n].index, |batch|) { return false, results; }
        var text, vector := TextOf(batch, items[n]), items[n].vector;
        if !writeFails(n) {
          CoherentWrite(cache, e, model, text);
          cache := cache[Key(model, text) := vector];
        }
        assert text in batch;
        results := FillPositions(results, missIndices[text], vector);
        CoverStep(batch, items, n);
        n := n + 1;
      }
      assert items[..n] == items;
      ok := true;
    }

    /** The result is the embedding of each text, position by position, or an error; only
        the distinct missed texts are sent; a gap raises instead of shortening; and the
        cache stays coherent, whichever reads and writes fail. */
    method EmbedTexts(
        texts: seq<string>, model: string, provider: Provider, readFails: nat -> bool, writeFails: nat -> bool,
        ghost e: (string, string) -> Vector)
        returns (r: Result<seq<Vector>, Error>, sent: Option<seq<string>>)
      requires Coherent(cache, e) && ColonFree(model) && Honest(provider, model, e)
      modifies this
      ensures Coherent(cache, e)
      ensures sent == if Misses(old(cache), model, texts, readFails, |texts|) == [] then None
                      else Some(Misses(old(cache), model, texts, readFails, |texts|))
      ensures r.Success? ==> |r.value| == |texts| && forall i :: 0 <= i < |texts| ==> r.value[i] == e(model, texts[i])
      ensures r.Success? <==> sent.None? || Answers(provider, sent.value)
    {
      if texts == [] { return Success([]), None; }
      var results, batch, missIndices := ReadAll(texts, model, readFails, e);
      MissesAreDistinct(cache, model, texts, readFails, |texts|);
      ghost var served := cache;
      sent := if batch == [] then None else Some(batch);
      if batch != [] {
        var reply := provider(batch);
        if reply.Failure? { return Failure(reply.error), sent; }
        var ok;
        ok, results := ApplyReply(texts, model, readFails, writeFails, e, batch, missIndices, results, reply.value);
        if !ok { return Failure(IndexOutOfRange), sent; }
        CompleteCovers(served, model, texts, readFails, batch, reply.value);
      }
      var missing := MissingIndices(results);
      if missing != [] { return Failure(Missing(missing)), sent; }
      r := Success(seq(
        |texts|, k requires 0 <= k < |texts| && |results| == |texts| && results[k].Some? => results[k].value));
    }
  }

  /** Nothing has been found yet from position `n` on. */
  predicate Unread(results: seq<Option<Vector>>, n: nat) {
    forall k :: n <= k < |results| ==> results[k].None?
  }

  lemma UnreadStays(results: seq<Option<Vector>>, n: nat)
    requires n < |results| && Unread(results, n)
    ensures results[n := None] == results
  {
  }

  /** The first `n` positions hold what the cache serves, and nothing where it missed. */
  ghost predicate Served(cache: map<string, Vector>, model: string, texts: seq<string>, readFails: nat -> bool,
                         e: (string, string) -> Vector, results: seq<Option<Vector>>, n: nat)
    requires n <= |texts| == |results|
  {
    forall k :: 0 <= k < n ==>
      results[k] == if Missed(cache, model, texts, readFails, k) then None else Some(e(model, texts[k]))
  }

  lemma ServedStep(cache: map<string, Vector>, model: string, texts: seq<string>, readFails: nat -> bool,
                   e: (string, string) -> Vector, results: seq<Option<Vector>>, n: nat, v: Option<Vector>)
    requires n < |texts| == |results| && Served(cache, model, texts, readFails, e, results, n)
    requires v == if Missed(cache, model, texts, readFails, n) then None else Some(e(model, texts[n]))
    ensures Served(cache, model, texts, readFails, e, results[n := v], n + 1)
  {
  }

  /** The reply answers every text of a batch of `n`, and no other. */
  predicate Complete(items: seq<Item>, n: nat) {
    InRange(items, n) && forall j :: 0 <= j < n ==> Answered(items, n, j)
  }

  lemma AnsweredIsCovered(batch: seq<string>, items: seq<Item>, j: nat)
    requires NoDuplicates(batch) && j < |batch|
    ensures Answered(items, |batch|, j) <==> Covers(batch, items, |items|, batch[j])
  {
    if Answered(items, |batch|, j) {
      var k :| 0 <= k < |items| && Indexes(items[k].index, |batch|) && Place(items[k].index, |batch|) == j;
      assert TextOf(batch, items[k]) == batch[j];
    }
    if Covers(batch, items, |items|, batch[j]) {
      var k :| 0 <= k < |items| && Indexes(items[k].index, |batch|) && TextOf(batch, items[k]) == batch[j];
      assert Place(items[k].index, |batch|) == j;
    }
  }

  /** The provider answers the batch, and answers all of it. */
  predicate Answers(provider: Provider, batch: seq<string>) {
    provider(batch).Success? && Complete(provider(batch).value, |batch|)
  }

  /** A complete reply covers every missed text, and only a complete one does. */
  lemma CompleteCovers(
      cache: map<string, Vector>, model: string, texts: seq<string>, readFails: nat -> bool, batch: seq<string>,
      items: seq<Item>)
    requires batch == Misses(cache, model, texts, readFails, |texts|) && InRange(items, |batch|)
    ensures Complete(items, |batch|) <==>
      forall k :: 0 <= k < |texts| ==>
        !Missed(cache, model, texts, readFails, k) || Covers(batch, items, |items|, texts[k])
  {
    MissesAreDistinct(cache, model, texts, readFails, |texts|);
    forall j | 0 <= j < |batch|
      ensures Answered(items, |batch|, j) <==> Covers(batch, items, |items|, batch[j])
    {
      AnsweredIsCovered(batch, items, j);
    }
    forall k | 0 <= k < |texts| && Missed(cache, model, texts, readFails, k)
      ensures texts[k] in batch
    {
    }
    forall j | 0 <= j < |batch|
      ensures exists k :: 0 <= k < |texts| && texts[k] == batch[j] && Missed(cache, model, texts, readFails, k)
    {
      assert batch[j] in batch;
    }
  }

  lemma CoverStep(batch: seq<string>, items: seq<Item>, n: nat)
    requires n < |items| && Indexes(items[n].index, |batch|)
    ensures forall text ::
      Covers(batch, items, n + 1, text) <==> Covers(batch, items, n, text) || TextOf(batch, items[n]) == text
  {
  }

  function MissingIndices(results: seq<Option<Vector>>): (r: seq<nat>)
    ensures r == [] <==> forall k :: 0 <= k < |results| ==> results[k].Some?
  {
    if results == [] then []
    else MissingIndices(results[..|results| - 1]) + (if results[|results| - 1].None? then [|results| - 1] else [])
  }
}
