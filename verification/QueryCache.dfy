/** The tiered query cache over one shared key/value store. */
module QueryCache {
  import opened Wrappers

  datatype Tier = Embedding | RagAnswer | SqlGen | SqlResult | Intent

  datatype Counters = Counters(hits: nat, misses: nat, sets: nat)

  function Name(t: Tier): string {
    match t
    case Embedding => "embedding" case RagAnswer => "rag_answer" case SqlGen => "sql_gen"
    case SqlResult => "sql_result" case Intent => "intent"
  }

  function Prefix(t: Tier): string { Name(t) + ":" }

  function Namespaced(t: Tier, key: string): string { Prefix(t) + key }

  /** Where two prefixes part: at once, or after the common `sql_`. */
  lemma PrefixesPart(t: Tier, u: Tier) returns (i: nat)
    requires t != u
    ensures i < |Prefix(t)| && i < |Prefix(u)| && Prefix(t)[i] != Prefix(u)[i]
  {
    assert Prefix(Embedding)[0] == 'e' && Prefix(RagAnswer)[0] == 'r' && Prefix(Intent)[0] == 'i';
    assert Prefix(SqlGen)[0] == Prefix(SqlResult)[0] == 's';
    assert Prefix(SqlGen)[4] == 'g' && Prefix(SqlResult)[4] == 'r';
    i := if (t.SqlGen? || t.SqlResult?) && (u.SqlGen? || u.SqlResult?) then 4 else 0;
  }

  /** No tier's prefix starts another tier's keys. */
  lemma PrefixesAreApart(t: Tier, u: Tier, key: string)
    ensures Prefix(t) <= Namespaced(u, key) <==> t == u
  {
    assert Namespaced(u, key)[..|Prefix(u)|] == Prefix(u);
    if t != u {
      var i := PrefixesPart(t, u);
      assert Namespaced(u, key)[i] == Prefix(u)[i];
    }
  }

  lemma NamespacedInjective(t: Tier, key: string, u: Tier, key': string)
    requires Namespaced(t, key) == Namespaced(u, key')
    ensures t == u && key == key'
  {
    PrefixesAreApart(t, u, key');
    assert key == Namespaced(t, key)[|Prefix(t)|..];
    assert key' == Namespaced(u, key')[|Prefix(u)|..];
  }

  /** What one tier holds under a key. */
  function Lookup(store: map<string, string>, t: Tier, key: string): Option<string> {
    if Namespaced(t, key) in store then Some(store[Namespaced(t, key)]) else None
  }

  /** The keys of one tier. */
  function KeysOf(store: map<string, string>, t: Tier): set<string> {
    set k | k in store && Prefix(t) <= k
  }

  /** Deleting one tier's keys leaves every other tier's. */
  lemma DeletedKeys(store: map<string, string>, t: Tier, u: Tier)
    ensures KeysOf(map k | k in store && !(Prefix(t) <= k) :: store[k], u) == if u == t then {} else KeysOf(store, u)
  {
    forall k | k in KeysOf(store, u)
      ensures Prefix(t) <= k <==> t == u
    {
      assert k == Namespaced(u, k[|Prefix(u)|..]);
      PrefixesAreApart(t, u, k[|Prefix(u)|..]);
    }
  }

  /** Each named tier with the number of keys it held, or zero once it is named again. */
  predicate Counted(before: map<string, string>, tiers: seq<Tier>, cleared: map<Tier, nat>) {
    && (forall u: Tier :: u in cleared <==> u in tiers)
    && (forall u: Tier :: u in cleared ==>
          cleared[u] == if multiset(tiers)[u] == 1 then |KeysOf(before, u)| else 0)
  }

  /** The named tiers hold nothing any more, and every other tier what it held before. */
  ghost predicate Emptied(before: map<string, string>, after: map<string, string>, tiers: seq<Tier>) {
    && (forall u: Tier, k :: Lookup(after, u, k) == if u in tiers then None else Lookup(before, u, k))
    && (forall u: Tier :: KeysOf(after, u) == if u in tiers then {} else KeysOf(before, u))
  }

  /** The named tiers start counting again, and every other tier goes on. */
  ghost predicate Zeroed(before: map<Tier, Counters>, after: map<Tier, Counters>, tiers: seq<Tier>) {
    && (forall u: Tier :: u in before ==> u in after)
    && (forall u: Tier :: u in before ==> after[u] == if u in tiers then Counters(0, 0, 0) else before[u])
  }

  lemma EmptyStep(
      before: map<string, string>, between: map<string, string>, after: map<string, string>, tiers: seq<Tier>, t: Tier)
    requires Emptied(before, between, tiers) && Emptied(between, after, [t])
    ensures Emptied(before, after, tiers + [t])
  {
  }

  lemma ZeroStep(
      before: map<Tier, Counters>, between: map<Tier, Counters>, after: map<Tier, Counters>, tiers: seq<Tier>, i: nat)
    requires i < |tiers| && Zeroed(before, between, tiers[..i]) && Zeroed(between, after, [tiers[i]])
    ensures Zeroed(before, after, tiers[..i + 1])
  {
    assert tiers[..i + 1] == tiers[..i] + [tiers[i]];
  }

  lemma CountStep(before: map<string, string>, tiers: seq<Tier>, cleared: map<Tier, nat>, t: Tier)
    requires Counted(before, tiers, cleared)
    ensures Counted(before, tiers + [t], cleared[t := if t in tiers then 0 else |KeysOf(before, t)|])
  {
    assert multiset(tiers + [t]) == multiset(tiers) + multiset{t};
  }

  lemma ClearedStep(
      before: map<string, string>, between: map<string, string>, after: map<string, string>, tiers: seq<Tier>, i: nat,
      cleared: map<Tier, nat>, deleted: nat)
    requires i < |tiers| && Emptied(before, between, tiers[..i]) && Emptied(between, after, [tiers[i]])
    requires Counted(before, tiers[..i], cleared) && deleted == |KeysOf(between, tiers[i])|
    ensures Emptied(before, after, tiers[..i + 1])
    ensures Counted(before, tiers[..i + 1], cleared[tiers[i] := deleted])
  {
    assert tiers[..i + 1] == tiers[..i] + [tiers[i]];
    EmptyStep(before, between, after, tiers[..i], tiers[i]);
    CountStep(before, tiers[..i], cleared, tiers[i]);
  }

  class QueryCacheService {
    var store: map<string, string>
    var counters: map<Tier, Counters>

    ghost predicate Valid()
      reads this
    {
      forall t: Tier :: t in counters
    }

    constructor ()
      ensures Valid() && store == map[] && forall t: Tier :: counters[t] == Counters(0, 0, 0)
    {
      store := map[];
      var zero := Counters(0, 0, 0);
      counters := map[Embedding := zero, RagAnswer := zero, SqlGen := zero, SqlResult := zero, Intent := zero];
      new;
      forall t: Tier
        ensures t in counters && counters[t] == zero
      {
        match t
        case Embedding => case RagAnswer => case SqlGen => case SqlResult => case Intent =>
      }
    }

    method Get(t: Tier, key: string) returns (value: Option<string>)
      requires Valid()
      modifies this
      ensures Valid() && store == old(store) && value == Lookup(store, t, key)
      ensures counters == old(counters)[t :=
        if value.None? then old(counters)[t].(misses := old(counters)[t].misses + 1)
        else old(counters)[t].(hits := old(counters)[t].hits + 1)]
    {
      value := if Namespaced(t, key) in store then Some(store[Namespaced(t, key)]) else None;
      if value.None? {
        counters := counters[t := counters[t].(misses := counters[t].misses + 1)];
      } else {
        counters := counters[t := counters[t].(hits := counters[t].hits + 1)];
      }
    }

    /** A set is seen by its own tier under its own key and by nobody else. */
    method Set(t: Tier, key: string, value: string)
      requires Valid()
      modifies this
      ensures Valid() && Lookup(store, t, key) == Some(value)
      ensures forall u: Tier, k :: u != t || k != key ==> Lookup(store, u, k) == Lookup(old(store), u, k)
      ensures counters == old(counters)[t := old(counters)[t].(sets := old(counters)[t].sets + 1)]
    {
      store := store[Namespaced(t, key) := value];
      counters := counters[t := counters[t].(sets := counters[t].sets + 1)];
      forall u: Tier, k | u != t || k != key
        ensures Lookup(store, u, k) == Lookup(old(store), u, k)
      {
        if Namespaced(u, k) == Namespaced(t, key) { NamespacedInjective(u, k, t, key); }
      }
    }

    method DeletePrefix(prefix: string) returns (deleted: nat)
      modifies this`store
      ensures store == map k | k in old(store) && !(prefix <= k) :: old(store)[k]
      ensures deleted == |set k | k in old(store) && prefix <= k|
    {
      deleted := |set k | k in store && prefix <= k|;
      store := map k | k in store && !(prefix <= k) :: store[k];
    }

    method ClearTier(t: Tier) returns (deleted: nat)
      requires Valid()
      modifies this
      ensures Valid() && deleted == |KeysOf(old(store), t)|
      ensures Emptied(old(store), store, [t]) && Zeroed(old(counters), counters, [t])
    {
      deleted := DeletePrefix(Prefix(t));
      counters := counters[t := Counters(0, 0, 0)];
      forall u: Tier
        ensures KeysOf(store, u) == if u == t then {} else KeysOf(old(store), u)
      {
        DeletedKeys(old(store), t, u);
      }
      forall u: Tier, k
        ensures Lookup(store, u, k) == if u == t then None else Lookup(old(store), u, k)
      {
        PrefixesAreApart(t, u, k);
      }
    }

    /** Clearing empties exactly the named tiers and zeroes exactly their counters. The
        counts are per tier; a tier that is named again is empty by then, and reports that. */
    method ClearTiers(tiers: seq<Tier>) returns (cleared: map<Tier, nat>)
      requires Valid()
      modifies this
      ensures Valid() && Emptied(old(store), store, tiers) && Zeroed(old(counters), counters, tiers)
      ensures Counted(old(store), tiers, cleared)
    {
      cleared := map[];
      var i := 0;
      while i < |tiers|
        invariant 0 <= i <= |tiers| && Valid()
        invariant Emptied(old(store), store, tiers[..i]) && Zeroed(old(counters), counters, tiers[..i])
        invariant Counted(old(store), tiers[..i], cleared)
      {
        ghost var before, was := store, counters;
        var deleted := ClearTier(tiers[i]);
        ClearedStep(old(store), before, store, tiers, i, cleared, deleted);
        ZeroStep(old(counters), was, counters, tiers, i);
        cleared := cleared[tiers[i] := deleted];
        i := i + 1;
      }
      WholePrefix(tiers);
    }
  }
}
