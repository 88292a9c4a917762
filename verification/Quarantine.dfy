/** The document quarantine workflow over security rows and vector-store chunks. Each
    upload, approval and rejection runs to completion before the next one starts. */
module Quarantine {
  import opened Wrappers

  datatype Visibility = Active | Quarantined

  datatype Point = Point(source: string, text: string, visibility: Visibility)

  datatype Status = PendingScan | ScanPassed | ScanFailed | Approved | Live | Rejected

  /** One upload. `scanned` is what the scanner was shown, kept for the proofs only. */
  datatype Row = Row(
    source: string, status: Status, chunkCount: nat, blocked: bool, scanned: seq<string>,
    approvedBy: Option<string>, rejectedReason: Option<string>)

  datatype Refusal = Unsupported | NoContent | NotApprovable

  // ---------------------------------------------------------------- the vector store, as functions

  function DeleteSource(points: seq<Point>, source: string): (r: seq<Point>)
    ensures |r| <= |points|
  {
    if points == [] then []
    else if points[0].source == source then DeleteSource(points[1..], source)
    else [points[0]] + DeleteSource(points[1..], source)
  }

  function SetVisibility(points: seq<Point>, source: string, v: Visibility): (r: seq<Point>)
    ensures |r| == |points|
  {
    if points == [] then []
    else
      [if points[0].source == source then points[0].(visibility := v) else points[0]]
      + SetVisibility(points[1..], source, v)
  }

  function Fresh(source: string, texts: seq<string>, v: Visibility): (r: seq<Point>)
    ensures |r| == |texts| && forall i :: 0 <= i < |r| ==> r[i] == Point(source, texts[i], v)
  {
    seq(|texts|, i requires 0 <= i < |texts| => Point(source, texts[i], v))
  }

  /** `p` put in at place `k`, or at the end when there is no such place. */
  function Insert(points: seq<Point>, p: Point, k: nat): (r: seq<Point>)
    ensures |r| == |points| + 1
  {
    var at := if k <= |points| then k else |points|;
    points[..at] + [p] + points[at..]
  }

  /** A collection is listed in the order of its point ids. The ids of new points are random,
      so new point number `i` may turn up at any place `ids(i)`. */
  function InsertAll(points: seq<Point>, added: seq<Point>, ids: nat -> nat): (r: seq<Point>)
    ensures |r| == |points| + |added|
  {
    if added == [] then points
    else Insert(InsertAll(points, added[..|added| - 1], ids), added[|added| - 1], ids(|added| - 1))
  }

  function Matching(points: seq<Point>, v: Option<Visibility>): (r: seq<Point>)
    ensures |r| <= |points|
  {
    if points == [] then []
    else if v.None? || points[0].visibility == v.value then [points[0]] + Matching(points[1..], v)
    else Matching(points[1..], v)
  }

  /** One page of the collection: at most `limit` of the matching points. */
  function Scroll(points: seq<Point>, limit: nat, v: Option<Visibility>): (r: seq<Point>)
    ensures |r| <= limit
  {
    var all := Matching(points, v);
    if |all| <= limit then all else all[..limit]
  }

  /** The matching points that the page does not show. */
  function Unlisted(points: seq<Point>, limit: nat, v: Option<Visibility>): seq<Point> {
    var all := Matching(points, v);
    if |all| <= limit then [] else all[limit..]
  }

  function TextsOf(points: seq<Point>, source: string): seq<string> {
    if points == [] then []
    else if points[0].source == source then [points[0].text] + TextsOf(points[1..], source)
    else TextsOf(points[1..], source)
  }

  predicate HasSource(points: seq<Point>, source: string) {
    exists i :: 0 <= i < |points| && points[i].source == source
  }

  predicate AllSeen(points: seq<Point>, source: string, v: Visibility) {
    forall i :: 0 <= i < |points| && points[i].source == source ==> points[i].visibility == v
  }

  lemma FreshGrows(source: string, texts: seq<string>, v: Visibility, i: nat)
    requires i < |texts|
    ensures var more := Fresh(source, texts[..i + 1], v);
            more[..i] == Fresh(source, texts[..i], v) && more[i] == Point(source, texts[i], v)
            && more == Fresh(source, texts[..i], v) + [Point(source, texts[i], v)]
  {
  }

  lemma InsertKeepsAll(points: seq<Point>, p: Point, k: nat)
    ensures multiset(Insert(points, p, k)) == multiset(points) + multiset{p}
  {
    var at := if k <= |points| then k else |points|;
    assert points == points[..at] + points[at..];
  }

  /** Every point of the source takes the visibility, in place, and no other point changes. */
  lemma {:induction false} SetEach(points: seq<Point>, source: string, v: Visibility)
    ensures forall i :: 0 <= i < |points| ==>
      SetVisibility(points, source, v)[i] ==
        if points[i].source == source then points[i].(visibility := v) else points[i]
  {
    if points != [] {
      SetEach(points[1..], source, v);
      forall i | 0 < i < |points|
        ensures SetVisibility(points, source, v)[i] ==
          if points[i].source == source then points[i].(visibility := v) else points[i]
      {
        assert points[i] == points[1..][i - 1];
        assert SetVisibility(points, source, v)[i] == SetVisibility(points[1..], source, v)[i - 1];
      }
    }
  }

  /** `after` is `before` read at the ascending places `at`. */
  predicate Picks(before: seq<Point>, after: seq<Point>, at: seq<nat>) {
    && |at| == |after|
    && (forall i :: 0 <= i < |at| ==> at[i] < |before| && after[i] == before[at[i]])
    && (forall i, j :: 0 <= i < j < |at| ==> at[i] < at[j])
  }

  /** `after` is what is left of `before`, in order, without the points of one source. */
  ghost predicate IsThinned(before: seq<Point>, after: seq<Point>, source: string) {
    exists at :: Picks(before, after, at) && forall k: nat :: k in at <==> k < |before| && before[k].source != source
  }

  /** The places of the points that a deletion leaves. */
  function Spared(points: seq<Point>, source: string): (at: seq<nat>)
    ensures forall k: nat :: k in at <==> k < |points| && points[k].source != source
  {
    if points == [] then []
    else
      var n := |points| - 1;
      var most := Spared(points[..n], source);
      if points[n].source == source then most else most + [n]
  }

  lemma {:induction false} DeleteLast(points: seq<Point>, p: Point, source: string)
    ensures DeleteSource(points + [p], source) ==
            DeleteSource(points, source) + (if p.source == source then [] else [p])
  {
    if points != [] {
      assert (points + [p])[1..] == points[1..] + [p];
      DeleteLast(points[1..], p, source);
    }
  }

  lemma PicksLast(before: seq<Point>, after: seq<Point>, at: seq<nat>, p: Point)
    requires Picks(before, after, at)
    ensures Picks(before + [p], after, at) && Picks(before + [p], after + [p], at + [|before|])
  {
  }

  /** Deletion removes every point of the source and keeps every other one, in order. */
  lemma {:induction false} DeleteThins(points: seq<Point>, source: string)
    ensures Picks(points, DeleteSource(points, source), Spared(points, source))
  {
    if points != [] {
      var n := |points| - 1;
      assert points == points[..n] + [points[n]];
      DeleteThins(points[..n], source);
      DeleteLast(points[..n], points[n], source);
      PicksLast(points[..n], DeleteSource(points[..n], source), Spared(points[..n], source), points[n]);
    }
  }

  lemma DeleteEmpties(points: seq<Point>, source: string)
    ensures !HasSource(DeleteSource(points, source), source) && IsThinned(points, DeleteSource(points, source), source)
  {
    DeleteThins(points, source);
    var at, after := Spared(points, source), DeleteSource(points, source);
    assert forall i :: 0 <= i < |after| ==> at[i] in at && after[i].source != source;
  }

  const SCROLL_LIMIT: nat := 10_000

  class VectorStore {
    var points: seq<Point>

    constructor (seeded: seq<Point>)
      ensures points == seeded
    {
      points := seeded;
    }

    method UpsertChunks(source: string, texts: seq<string>, v: Visibility, ids: nat -> nat)
      modifies this
      ensures points == InsertAll(old(points), Fresh(source, texts, v), ids)
      ensures multiset(points) == multiset(old(points)) + multiset(Fresh(source, texts, v))
    {
      var i := 0;
      while i < |texts|
        invariant 0 <= i <= |texts|
        invariant points == InsertAll(old(points), Fresh(source, texts[..i], v), ids)
        invariant multiset(points) == multiset(old(points)) + multiset(Fresh(source, texts[..i], v))
      {
        FreshGrows(source, texts, v, i);
        InsertKeepsAll(points, Point(source, texts[i], v), ids(i));
        points := Insert(points, Point(source, texts[i], v), ids(i));
        i := i + 1;
      }
      assert texts[..i] == texts;
    }

    method SetIngestionStatus(source: string, v: Visibility)
      modifies this
      ensures |points| == |old(points)|
      ensures forall i :: 0 <= i < |points| ==>
        points[i] == if old(points[i]).source == source then old(points[i]).(visibility := v) else old(points[i])
      ensures points == SetVisibility(old(points), source, v)
    {
      SetEach(points, source, v);
      points := SetVisibility(points, source, v);
    }

    method DeleteBySource(source: string)
      modifies this
      ensures !HasSource(points, source) && IsThinned(old(points), points, source)
      ensures points == DeleteSource(old(points), source)
    {
      DeleteEmpties(points, source);
      points := DeleteSource(points, source);
    }

    method ScrollAllChunks(limit: nat, v: Option<Visibility>) returns (page: seq<Point>)
      ensures page == Scroll(points, limit, v)
    {
      page := Scroll(points, limit, v);
    }
  }

  // ---------------------------------------------------------------- the rows

  /** The index of the latest upload of a source; uploads are stamped by a strictly
      increasing clock, so the latest one is the one inserted last. */
  function Latest(rows: seq<Row>, source: string): (r: Option<nat>)
    ensures r.Some? ==> r.value < |rows| && rows[r.value].source == source
    ensures r.Some? ==> forall i :: r.value < i < |rows| ==> rows[i].source != source
    ensures r.None? ==> forall i :: 0 <= i < |rows| ==> rows[i].source != source
  {
    if rows == [] then None
    else if rows[|rows| - 1].source == source then Some(|rows| - 1)
    else Latest(rows[..|rows| - 1], source)
  }

  class SecurityRepository {
    var rows: seq<Row>

    constructor ()
      ensures rows == []
    {
      rows := [];
    }

    method CreatePending(source: string, chunkCount: nat) returns (id: nat)
      modifies this
      ensures id == |old(rows)| && rows == old(rows) + [Row(source, PendingScan, chunkCount, false, [], None, None)]
    {
      id := |rows|;
      rows := rows + [Row(source, PendingScan, chunkCount, false, [], None, None)];
    }

    method Update(id: nat, row: Row)
      requires id < |rows|
      modifies this
      ensures rows == old(rows)[id := row]
    {
      rows := rows[id := row];
    }

    method GetLatestForSource(source: string) returns (id: Option<nat>)
      ensures id.Some? ==> id.value < |rows| && rows[id.value].source == source
      ensures id.Some? ==> forall i :: id.value < i < |rows| ==> rows[i].source != source
      ensures id.None? ==> forall i :: 0 <= i < |rows| ==> rows[i].source != source
      ensures id == Latest(rows, source)
    {
      id := Latest(rows, source);
    }
  }

  // ---------------------------------------------------------------- the workflow, as functions

  datatype State = State(points: seq<Point>, rows: seq<Row>)

  /** An upload: its name, what the document processor extracts, where its chunks' random
      ids put them, and the scanner. */
  datatype Upload = Upload(
    source: string, supported: bool, texts: seq<string>, ids: nat -> nat, blocks: seq<string> -> bool)

  predicate Accepts(u: Upload) { u.supported && u.texts != [] }

  /** The upload finds the source on the page it lists, and so deletes its old chunks. */
  predicate Replaces(points: seq<Point>, limit: nat, u: Upload) {
    HasSource(Scroll(points, limit, None), u.source)
  }

  function Kept(points: seq<Point>, limit: nat, u: Upload): seq<Point> {
    if Replaces(points, limit, u) then DeleteSource(points, u.source) else points
  }

  /** The collection after the replace-then-insert of an accepted upload. */
  function Ingested(points: seq<Point>, limit: nat, u: Upload): seq<Point> {
    InsertAll(Kept(points, limit, u), Fresh(u.source, u.texts, Quarantined), u.ids)
  }

  /** What the scanner is shown: the quarantined chunks of the source, read back. */
  function ReadBack(points: seq<Point>, limit: nat, source: string): seq<string> {
    TextsOf(Scroll(points, limit, Some(Quarantined)), source)
  }

  function Verdict(blocked: bool): Status { if blocked then ScanFailed else ScanPassed }

  function Submitted(s: State, limit: nat, u: Upload): State {
    if !Accepts(u) then s
    else
      var points := Ingested(s.points, limit, u);
      var scanned := ReadBack(points, limit, u.source);
      var blocked := u.blocks(scanned);
      State(if blocked then DeleteSource(points, u.source) else points,
            s.rows + [Row(u.source, Verdict(blocked), |u.texts|, blocked, scanned, None, None)])
  }

  predicate MayApprove(rows: seq<Row>, source: string) {
    Latest(rows, source).Some? && rows[Latest(rows, source).value].status == ScanPassed
  }

  function ApprovedState(s: State, source: string, actor: string): State {
    if !MayApprove(s.rows, source) then s
    else
      var id := Latest(s.rows, source).value;
      var row := s.rows[id].(status := Live, approvedBy := Some(actor));
      State(SetVisibility(s.points, source, Active), s.rows[id := row])
  }

  predicate MayReject(rows: seq<Row>, source: string) {
    Latest(rows, source).Some? && rows[Latest(rows, source).value].status in {ScanPassed, ScanFailed}
  }

  function RejectedState(s: State, source: string, reason: string): State {
    if !MayReject(s.rows, source) then s
    else
      var id := Latest(s.rows, source).value;
      var row := s.rows[id].(status := Rejected, rejectedReason := Some(reason));
      State(DeleteSource(s.points, source), s.rows[id := row])
  }

  // ---------------------------------------------------------------- the service

  class PolicyIngestionService {
    const vectors: VectorStore

    constructor (vectors: VectorStore)
      ensures this.vectors == vectors
    {
      this.vectors := vectors;
    }

    /** The replace-then-insert of a document, with the number of chunks it now has. */
    method Ingest(u: Upload) returns (r: Result<nat, Refusal>)
      modifies vectors
      ensures r == if !u.supported then Failure(Unsupported)
                   else if u.texts == [] then Failure(NoContent) else Success(|u.texts|)
      ensures vectors.points ==
        if Accepts(u) then Ingested(old(vectors.points), SCROLL_LIMIT, u) else old(vectors.points)
    {
      if !u.supported { return Failure(Unsupported); }
      var existing := vectors.ScrollAllChunks(SCROLL_LIMIT, None);
      var replacing := HasSource(existing, u.source);
      if u.texts == [] { return Failure(NoContent); }
      if replacing { vectors.DeleteBySource(u.source); }
      vectors.UpsertChunks(u.source, u.texts, Quarantined, u.ids);
      return Success(|u.texts|);
    }
  }

  class PolicyIngestionSecurityService {
    const ingestion: PolicyIngestionService
    const vectors: VectorStore := ingestion.vectors
    const security: SecurityRepository

    ghost function Now(): State
      reads vectors, security
    {
      State(vectors.points, security.rows)
    }

    constructor (ingestion: PolicyIngestionService, security: SecurityRepository)
      ensures this.ingestion == ingestion && this.security == security
    {
      this.ingestion, this.security := ingestion, security;
    }

    method Submit(u: Upload) returns (r: Result<Status, Refusal>)
      modifies vectors, security
      ensures Now() == Submitted(old(Now()), SCROLL_LIMIT, u)
      ensures r.Success? <==> Accepts(u)
      ensures r.Success? ==> security.rows != [] && r.value == security.rows[|security.rows| - 1].status
    {
      var ingested := ingestion.Ingest(u);
      if ingested.Failure? { return Failure(ingested.error); }
      var id := security.CreatePending(u.source, ingested.value);
      var page := vectors.ScrollAllChunks(SCROLL_LIMIT, Some(Quarantined));
      var scanned := TextsOf(page, u.source);
      var blocked := u.blocks(scanned);
      security.Update(id, security.rows[id].(status := Verdict(blocked), blocked := blocked, scanned := scanned));
      assert security.rows ==
        old(security.rows) + [Row(u.source, Verdict(blocked), |u.texts|, blocked, scanned, None, None)];
      if blocked { vectors.DeleteBySource(u.source); }
      return Success(Verdict(blocked));
    }

    method Approve(source: string, actor: string) returns (r: Result<Row, Refusal>)
      modifies vectors, security
      ensures Now() == ApprovedState(old(Now()), source, actor)
      ensures r.Success? <==> MayApprove(old(security.rows), source)
    {
      var latest := security.GetLatestForSource(source);
      if latest.None? || security.rows[latest.value].status != ScanPassed { return Failure(NotApprovable); }
      var id := latest.value;
      security.Update(id, security.rows[id].(status := Status.Approved, approvedBy := Some(actor)));
      vectors.SetIngestionStatus(source, Active);
      security.Update(id, security.rows[id].(status := Live));
      return Success(security.rows[id]);
    }

    method Reject(source: string, reason: string) returns (r: Result<Row, Refusal>)
      modifies vectors, security
      ensures Now() == RejectedState(old(Now()), source, reason)
      ensures r.Success? <==> MayReject(old(security.rows), source)
    {
      var latest := security.GetLatestForSource(source);
      if latest.None? || security.rows[latest.value].status !in {ScanPassed, ScanFailed} {
        return Failure(NotApprovable);
      }
      vectors.DeleteBySource(source);
      var id := latest.value;
      security.Update(id, security.rows[id].(status := Rejected, rejectedReason := Some(reason)));
      return Success(security.rows[id]);
    }
  }

  // ---------------------------------------------------------------- what the functions do to a source

  lemma TextsCons(p: Point, rest: seq<Point>, source: string)
    ensures TextsOf([p] + rest, source) == (if p.source == source then [p.text] else []) + TextsOf(rest, source)
  {
    assert ([p] + rest)[1..] == rest;
  }

  lemma SeenCons(p: Point, rest: seq<Point>, source: string, v: Visibility)
    ensures AllSeen([p] + rest, source, v) <==> (p.source == source ==> p.visibility == v) && AllSeen(rest, source, v)
  {
    var all := [p] + rest;
    assert forall i :: 0 <= i < |rest| ==> all[i + 1] == rest[i];
    assert all[0] == p;
  }

  lemma {:induction false} DeleteLeaves(points: seq<Point>, source: string, other: string)
    ensures TextsOf(DeleteSource(points, source), other) == if other == source then [] else TextsOf(points, other)
  {
    if points != [] {
      DeleteLeaves(points[1..], source, other);
      TextsCons(points[0], DeleteSource(points[1..], source), other);
    }
  }

  lemma {:induction false} DeleteKeepsSeen(points: seq<Point>, source: string, other: string, v: Visibility)
    requires AllSeen(points, other, v)
    ensures AllSeen(DeleteSource(points, source), other, v)
  {
    if points != [] {
      assert points == [points[0]] + points[1..];
      SeenCons(points[0], points[1..], other, v);
      DeleteKeepsSeen(points[1..], source, other, v);
      SeenCons(points[0], DeleteSource(points[1..], source), other, v);
    }
  }

  lemma {:induction false} SetLeaves(points: seq<Point>, source: string, v: Visibility, other: string)
    ensures TextsOf(SetVisibility(points, source, v), other) == TextsOf(points, other)
  {
    if points != [] {
      SetLeaves(points[1..], source, v, other);
      var first := if points[0].source == source then points[0].(visibility := v) else points[0];
      TextsCons(first, SetVisibility(points[1..], source, v), other);
    }
  }

  lemma {:induction false} SetSeen(points: seq<Point>, source: string, v: Visibility, other: string, w: Visibility)
    requires if other == source then w == v else AllSeen(points, other, w)
    ensures AllSeen(SetVisibility(points, source, v), other, w)
  {
    if points != [] {
      assert points == [points[0]] + points[1..];
      SeenCons(points[0], points[1..], other, w);
      SetSeen(points[1..], source, v, other, w);
      var first := if points[0].source == source then points[0].(visibility := v) else points[0];
      SeenCons(first, SetVisibility(points[1..], source, v), other, w);
    }
  }

  lemma {:induction false} TextsConcat(a: seq<Point>, b: seq<Point>, source: string)
    ensures TextsOf(a + b, source) == TextsOf(a, source) + TextsOf(b, source)
  {
    if a == [] {
      assert a + b == b;
    } else {
      TextsConcat(a[1..], b, source);
      assert (a + b)[1..] == a[1..] + b && (a + b)[0] == a[0];
      var x, y := TextsOf(a[1..], source), TextsOf(b, source);
      assert [a[0].text] + (x + y) == [a[0].text] + x + y;
    }
  }

  lemma {:induction false} NoneThere(points: seq<Point>, source: string)
    ensures TextsOf(points, source) == [] <==> !HasSource(points, source)
  {
    if points != [] {
      NoneThere(points[1..], source);
      if HasSource(points, source) && points[0].source != source {
        var i :| 0 <= i < |points| && points[i].source == source;
        assert points[1..][i - 1].source == source;
      }
      if HasSource(points[1..], source) {
        var i :| 0 <= i < |points[1..]| && points[1..][i].source == source;
        assert points[i + 1].source == source;
      }
    }
  }

  lemma {:induction false} MatchingAll(points: seq<Point>)
    ensures Matching(points, None) == points
  {
    if points != [] { MatchingAll(points[1..]); }
  }

  lemma {:induction false} MatchingTexts(points: seq<Point>, v: Visibility, source: string)
    requires AllSeen(points, source, v)
    ensures TextsOf(Matching(points, Some(v)), source) == TextsOf(points, source)
  {
    if points != [] {
      assert AllSeen(points[1..], source, v);
      MatchingTexts(points[1..], v, source);
      TextsCons(points[0], Matching(points[1..], Some(v)), source);
    }
  }

  lemma {:induction false} MatchingConcat(a: seq<Point>, b: seq<Point>, v: Option<Visibility>)
    ensures Matching(a + b, v) == Matching(a, v) + Matching(b, v)
  {
    if a == [] {
      assert a + b == b;
    } else {
      MatchingConcat(a[1..], b, v);
      assert (a + b)[1..] == a[1..] + b && (a + b)[0] == a[0];
      var x, y := Matching(a[1..], v), Matching(b, v);
      assert [a[0]] + (x + y) == [a[0]] + x + y;
    }
  }

  lemma {:induction false} MatchingFresh(source: string, texts: seq<string>, v: Visibility)
    ensures Matching(Fresh(source, texts, v), Some(v)) == Fresh(source, texts, v)
  {
    if texts != [] {
      MatchingFresh(source, texts[1..], v);
      assert Fresh(source, texts, v)[1..] == Fresh(source, texts[1..], v);
    }
  }

  lemma TextsAround(low: seq<Point>, p: Point, high: seq<Point>, source: string)
    ensures TextsOf(low + [p] + high, source) ==
            TextsOf(low, source) + (if p.source == source then [p.text] else []) + TextsOf(high, source)
  {
    TextsConcat(low + [p], high, source);
    TextsConcat(low, [p], source);
    TextsCons(p, [], source);
  }

  lemma InsertTexts(points: seq<Point>, p: Point, k: nat, source: string)
    ensures p.source != source ==> TextsOf(Insert(points, p, k), source) == TextsOf(points, source)
    ensures p.source == source ==>
      multiset(TextsOf(Insert(points, p, k), source)) == multiset(TextsOf(points, source)) + multiset{p.text}
  {
    var at := if k <= |points| then k else |points|;
    var low, high := points[..at], points[at..];
    assert points == low + high;
    TextsConcat(low, high, source);
    TextsAround(low, p, high, source);
  }

  lemma InsertMatching(points: seq<Point>, p: Point, k: nat, v: Visibility)
    ensures |Matching(Insert(points, p, k), Some(v))| ==
            |Matching(points, Some(v))| + if p.visibility == v then 1 else 0
  {
    var at := if k <= |points| then k else |points|;
    var low, high := points[..at], points[at..];
    assert points == low + high;
    MatchingConcat(low, high, Some(v));
    MatchingConcat(low + [p], high, Some(v));
    MatchingConcat(low, [p], Some(v));
  }

  lemma InsertSeen(points: seq<Point>, p: Point, k: nat, source: string, v: Visibility)
    ensures AllSeen(Insert(points, p, k), source, v) <==>
            AllSeen(points, source, v) && (p.source == source ==> p.visibility == v)
  {
    var at := if k <= |points| then k else |points|;
    var all := Insert(points, p, k);
    assert forall i :: 0 <= i < at ==> all[i] == points[i];
    assert forall i :: at <= i < |points| ==> all[i + 1] == points[i];
    assert all[at] == p;
    if AllSeen(all, source, v) {
      forall i | 0 <= i < |points| && points[i].source == source
        ensures points[i].visibility == v
      {
        assert points[i] == all[if i < at then i else i + 1];
      }
    }
  }

  /** Wherever they land, new quarantined chunks of a source add their texts to that source
      and leave every other source as it was. */
  lemma {:induction false} AddedChunks(points: seq<Point>, source: string, texts: seq<string>, ids: nat -> nat)
    ensures var all := InsertAll(points, Fresh(source, texts, Quarantined), ids);
      && multiset(TextsOf(all, source)) == multiset(TextsOf(points, source)) + multiset(texts)
      && |Matching(all, Some(Quarantined))| == |Matching(points, Some(Quarantined))| + |texts|
      && (AllSeen(all, source, Quarantined) <==> AllSeen(points, source, Quarantined))
  {
    if texts != [] {
      var n := |texts| - 1;
      var most := InsertAll(points, Fresh(source, texts[..n], Quarantined), ids);
      var last := Point(source, texts[n], Quarantined);
      AddedChunks(points, source, texts[..n], ids);
      assert texts[..n + 1] == texts == texts[..n] + [texts[n]];
      FreshGrows(source, texts, Quarantined, n);
      InsertTexts(most, last, ids(n), source);
      InsertMatching(most, last, ids(n), Quarantined);
      InsertSeen(most, last, ids(n), source, Quarantined);
    }
  }

  lemma {:induction false} AddedElsewhere(
      points: seq<Point>, source: string, texts: seq<string>, ids: nat -> nat, other: string, v: Visibility)
    requires other != source
    ensures var all := InsertAll(points, Fresh(source, texts, Quarantined), ids);
      && TextsOf(all, other) == TextsOf(points, other)
      && (AllSeen(all, other, v) <==> AllSeen(points, other, v))
  {
    if texts != [] {
      var n := |texts| - 1;
      var most := InsertAll(points, Fresh(source, texts[..n], Quarantined), ids);
      var last := Point(source, texts[n], Quarantined);
      AddedElsewhere(points, source, texts[..n], ids, other, v);
      assert texts[..n + 1] == texts;
      FreshGrows(source, texts, Quarantined, n);
      InsertTexts(most, last, ids(n), other);
      InsertSeen(most, last, ids(n), other, v);
    }
  }

  /** Ids that happen to grow put the new points at the end. */
  lemma {:induction false} AddedAtEnd(points: seq<Point>, added: seq<Point>, ids: nat -> nat)
    requires forall i: nat :: ids(i) == |points| + i
    ensures InsertAll(points, added, ids) == points + added
  {
    if added != [] { AddedAtEnd(points, added[..|added| - 1], ids); }
  }

  // ---------------------------------------------------------------- the invariant

  /** What the latest row of a source says about the source's chunks. */
  predicate SourceOk(s: State, source: string) {
    match Latest(s.rows, source)
    case None => true
    case Some(id) =>
      var row, texts := s.rows[id], TextsOf(s.points, source);
      match row.status
      case ScanPassed => AllSeen(s.points, source, Quarantined) && texts == row.scanned && !row.blocked
      case Live => AllSeen(s.points, source, Active) && texts == row.scanned && !row.blocked && row.approvedBy.Some?
      case ScanFailed => texts == [] && row.blocked
      case Rejected => texts == []
      case _ => false
  }

  ghost predicate Inv(s: State) { forall source :: SourceOk(s, source) }

  lemma LatestAppended(rows: seq<Row>, row: Row, source: string)
    ensures Latest(rows + [row], source) == if row.source == source then Some(|rows|) else Latest(rows, source)
  {
    assert (rows + [row])[..|rows|] == rows;
  }

  lemma {:induction false} LatestUpdated(rows: seq<Row>, id: nat, row: Row, source: string)
    requires id < |rows| && row.source == rows[id].source
    ensures Latest(rows[id := row], source) == Latest(rows, source)
  {
    var n := |rows| - 1;
    if id < n {
      assert rows[id := row][..n] == rows[..n][id := row];
      LatestUpdated(rows[..n], id, row, source);
    } else {
      assert rows[id := row][..n] == rows[..n];
    }
  }

  /** A source whose chunks and latest row are untouched stays as it was. */
  lemma UntouchedSourceOk(s: State, s': State, source: string)
    requires SourceOk(s, source) && Latest(s'.rows, source) == Latest(s.rows, source)
    requires Latest(s.rows, source).Some? ==>
      s'.rows[Latest(s.rows, source).value] == s.rows[Latest(s.rows, source).value]
    requires TextsOf(s'.points, source) == TextsOf(s.points, source)
    requires forall v :: AllSeen(s.points, source, v) ==> AllSeen(s'.points, source, v)
    ensures SourceOk(s', source)
  {
  }

  lemma OthersIngested(s: State, limit: nat, u: Upload, other: string)
    requires other != u.source
    ensures TextsOf(Ingested(s.points, limit, u), other) == TextsOf(s.points, other)
    ensures forall v :: AllSeen(s.points, other, v) ==> AllSeen(Ingested(s.points, limit, u), other, v)
  {
    var kept := Kept(s.points, limit, u);
    DeleteLeaves(s.points, u.source, other);
    AddedElsewhere(kept, u.source, u.texts, u.ids, other, Quarantined);
    forall v | AllSeen(s.points, other, v)
      ensures AllSeen(Ingested(s.points, limit, u), other, v)
    {
      DeleteKeepsSeen(s.points, u.source, other, v);
      AddedElsewhere(kept, u.source, u.texts, u.ids, other, v);
    }
  }

  lemma SubmitKeepsOthers(s: State, limit: nat, u: Upload, other: string)
    requires SourceOk(s, other) && other != u.source
    ensures SourceOk(Submitted(s, limit, u), other)
  {
    if Accepts(u) {
      var s' := Submitted(s, limit, u);
      var points := Ingested(s.points, limit, u);
      OthersIngested(s, limit, u, other);
      DeleteLeaves(points, u.source, other);
      forall v | AllSeen(points, other, v)
        ensures AllSeen(DeleteSource(points, u.source), other, v)
      {
        DeleteKeepsSeen(points, u.source, other, v);
      }
      LatestAppended(s.rows, s'.rows[|s.rows|], other);
      UntouchedSourceOk(s, s', other);
    }
  }

  // ---------------------------------------------------------------- what the scanner is shown

  /** The read-back shows a source's quarantined chunks exactly when none is off the page. */
  lemma ShownIsWhole(points: seq<Point>, limit: nat, source: string)
    ensures ReadBack(points, limit, source) == TextsOf(Matching(points, Some(Quarantined)), source) <==>
            !HasSource(Unlisted(points, limit, Some(Quarantined)), source)
  {
    var all := Matching(points, Some(Quarantined));
    var page, rest := Scroll(points, limit, Some(Quarantined)), Unlisted(points, limit, Some(Quarantined));
    assert all == page + rest;
    TextsConcat(page, rest, source);
    NoneThere(rest, source);
    if TextsOf(rest, source) != [] { assert |TextsOf(all, source)| > |TextsOf(page, source)|; }
  }

  /** Replacement removes the old chunks exactly when one of them is on the page that is
      scrolled, or there are none; so past the limit it can leave them behind. */
  lemma ReplacementIsComplete(s: State, limit: nat, u: Upload)
    requires Accepts(u)
    ensures multiset(TextsOf(Ingested(s.points, limit, u), u.source)) == multiset(u.texts) <==>
            Replaces(s.points, limit, u) || !HasSource(s.points, u.source)
  {
    var kept := Kept(s.points, limit, u);
    AddedChunks(kept, u.source, u.texts, u.ids);
    DeleteLeaves(s.points, u.source, u.source);
    NoneThere(s.points, u.source);
    if TextsOf(kept, u.source) != [] {
      assert |multiset(TextsOf(kept, u.source)) + multiset(u.texts)| > |multiset(u.texts)|;
    }
  }

  /** After a complete replacement the scanner is shown exactly the uploaded texts when no
      new chunk is off the page, and not all of them otherwise. */
  lemma ScannerSeesUpload(s: State, limit: nat, u: Upload)
    requires Accepts(u) && (Replaces(s.points, limit, u) || !HasSource(s.points, u.source))
    ensures var points := Ingested(s.points, limit, u);
      multiset(ReadBack(points, limit, u.source)) == multiset(u.texts) <==>
      !HasSource(Unlisted(points, limit, Some(Quarantined)), u.source)
  {
    var points := Ingested(s.points, limit, u);
    KeptSeen(s, limit, u);
    ReplacementIsComplete(s, limit, u);
    AddedChunks(Kept(s.points, limit, u), u.source, u.texts, u.ids);
    MatchingTexts(points, Quarantined, u.source);
    ShownIsWhole(points, limit, u.source);
    if multiset(ReadBack(points, limit, u.source)) == multiset(u.texts) { ShownIsSome(points, limit, u.source); }
  }

  lemma ShownIsSome(points: seq<Point>, limit: nat, source: string)
    requires multiset(ReadBack(points, limit, source)) == multiset(TextsOf(Matching(points, Some(Quarantined)), source))
    ensures ReadBack(points, limit, source) == TextsOf(Matching(points, Some(Quarantined)), source)
  {
    var page, rest := Scroll(points, limit, Some(Quarantined)), Unlisted(points, limit, Some(Quarantined));
    assert Matching(points, Some(Quarantined)) == page + rest;
    TextsConcat(page, rest, source);
    assert |multiset(ReadBack(points, limit, source))| == |ReadBack(points, limit, source)|;
  }

  /** Before the insert the source has quarantined chunks only: its old chunks were
      deleted, or all of them were quarantined already. */
  lemma KeptSeen(s: State, limit: nat, u: Upload)
    ensures AllSeen(Kept(s.points, limit, u), u.source, Quarantined) <==>
            Replaces(s.points, limit, u) || AllSeen(s.points, u.source, Quarantined)
  {
    DeleteEmpties(s.points, u.source);
  }

  /** What an accepted upload needs: the scanner blocks what it is shown, or every chunk the
      source then has is quarantined and is on the page that is read back. */
  predicate Sound(s: State, limit: nat, u: Upload) {
    var points := Ingested(s.points, limit, u);
    || u.blocks(ReadBack(points, limit, u.source))
    || (&& (Replaces(s.points, limit, u) || AllSeen(s.points, u.source, Quarantined))
        && !HasSource(Unlisted(points, limit, Some(Quarantined)), u.source))
  }

  /** Exactly then does the upload leave its source as its row says. */
  lemma SubmitOwnExactly(s: State, limit: nat, u: Upload)
    requires Accepts(u)
    ensures SourceOk(Submitted(s, limit, u), u.source) <==> Sound(s, limit, u)
  {
    var s', points := Submitted(s, limit, u), Ingested(s.points, limit, u);
    LatestAppended(s.rows, s'.rows[|s.rows|], u.source);
    DeleteLeaves(points, u.source, u.source);
    KeptSeen(s, limit, u);
    AddedChunks(Kept(s.points, limit, u), u.source, u.texts, u.ids);
    ShownIsWhole(points, limit, u.source);
    if AllSeen(points, u.source, Quarantined) { MatchingTexts(points, Quarantined, u.source); }
  }

  /** An upload keeps the invariant of all sources exactly when it is refused or sound. */
  lemma SubmitKeepsInvExactly(s: State, limit: nat, u: Upload)
    requires Inv(s)
    ensures Inv(Submitted(s, limit, u)) <==> !Accepts(u) || Sound(s, limit, u)
  {
    if Accepts(u) {
      SubmitOwnExactly(s, limit, u);
      forall source | source != u.source
        ensures SourceOk(Submitted(s, limit, u), source)
      {
        assert SourceOk(s, source);
        SubmitKeepsOthers(s, limit, u, source);
      }
    }
  }

  function With(u: Upload, ids: nat -> nat, blocks: seq<string> -> bool): Upload {
    u.(ids := ids, blocks := blocks)
  }

  /** Sound whatever the ids turn out to be and whatever the scanner says. */
  ghost predicate AlwaysSound(s: State, limit: nat, u: Upload) {
    forall ids, blocks :: Sound(s, limit, With(u, ids, blocks))
  }

  /** The old chunks go or are quarantined, and the quarantined chunks then fit one page. */
  predicate Fits(s: State, limit: nat, u: Upload) {
    && (Replaces(s.points, limit, u) || AllSeen(s.points, u.source, Quarantined))
    && |Matching(Kept(s.points, limit, u), Some(Quarantined))| + |u.texts| <= limit
  }

  /** What can be checked before an upload: it is certain to be sound exactly when it fits. */
  lemma FittingIsExact(s: State, limit: nat, u: Upload)
    requires Accepts(u)
    ensures AlwaysSound(s, limit, u) <==> Fits(s, limit, u)
  {
    if Fits(s, limit, u) {
      forall ids, blocks
        ensures Sound(s, limit, With(u, ids, blocks))
      {
        AddedChunks(Kept(s.points, limit, u), u.source, u.texts, ids);
      }
    } else {
      var kept := Kept(s.points, limit, u);
      var ids := (i: nat) => |kept| + i;
      var worst := With(u, ids, shown => false);
      if |Matching(kept, Some(Quarantined))| + |u.texts| > limit { LastIsUnlisted(s.points, limit, worst); }
      assert !Sound(s, limit, worst);
    }
  }

  /** When the quarantined chunks do not fit, ids that grow leave the last new one off the page. */
  lemma LastIsUnlisted(points: seq<Point>, limit: nat, u: Upload)
    requires Accepts(u) && forall i: nat :: u.ids(i) == |Kept(points, limit, u)| + i
    requires |Matching(Kept(points, limit, u), Some(Quarantined))| + |u.texts| > limit
    ensures HasSource(Unlisted(Ingested(points, limit, u), limit, Some(Quarantined)), u.source)
  {
    var kept, added := Kept(points, limit, u), Fresh(u.source, u.texts, Quarantined);
    AddedAtEnd(kept, added, u.ids);
    MatchingConcat(kept, added, Some(Quarantined));
    MatchingFresh(u.source, u.texts, Quarantined);
    var rest := Unlisted(Ingested(points, limit, u), limit, Some(Quarantined));
    assert rest[|rest| - 1] == added[|added| - 1];
  }

  /** In particular, nothing can go wrong while the collection fits one page. */
  lemma WithinOnePage(s: State, limit: nat, u: Upload)
    requires Accepts(u) && |s.points| + |u.texts| <= limit
    ensures Fits(s, limit, u) && Sound(s, limit, u)
    ensures var points := Ingested(s.points, limit, u);
      multiset(TextsOf(points, u.source)) == multiset(u.texts) == multiset(ReadBack(points, limit, u.source))
  {
    MatchingAll(s.points);
    assert Scroll(s.points, limit, None) == s.points;
    FittingIsExact(s, limit, u);
    assert u == With(u, u.ids, u.blocks);
    ReplacementIsComplete(s, limit, u);
    AddedChunks(Kept(s.points, limit, u), u.source, u.texts, u.ids);
    ScannerSeesUpload(s, limit, u);
  }

  // ---------------------------------------------------------------- approval and rejection

  lemma ApproveKeepsInv(s: State, source: string, actor: string)
    requires Inv(s)
    ensures Inv(ApprovedState(s, source, actor))
  {
    if MayApprove(s.rows, source) {
      var s' := ApprovedState(s, source, actor);
      var id := Latest(s.rows, source).value;
      forall other
        ensures SourceOk(s', other)
      {
        assert SourceOk(s, other);
        LatestUpdated(s.rows, id, s'.rows[id], other);
        SetLeaves(s.points, source, Active, other);
        if other == source {
          SetSeen(s.points, source, Active, source, Active);
        } else {
          forall v | AllSeen(s.points, other, v)
            ensures AllSeen(s'.points, other, v)
          {
            SetSeen(s.points, source, Active, other, v);
          }
          UntouchedSourceOk(s, s', other);
        }
      }
    }
  }

  lemma RejectKeepsInv(s: State, source: string, reason: string)
    requires Inv(s)
    ensures Inv(RejectedState(s, source, reason))
  {
    if MayReject(s.rows, source) {
      var s' := RejectedState(s, source, reason);
      var id := Latest(s.rows, source).value;
      forall other
        ensures SourceOk(s', other)
      {
        assert SourceOk(s, other);
        LatestUpdated(s.rows, id, s'.rows[id], other);
        DeleteLeaves(s.points, source, other);
        if other != source {
          forall v | AllSeen(s.points, other, v)
            ensures AllSeen(s'.points, other, v)
          {
            DeleteKeepsSeen(s.points, source, other, v);
          }
          UntouchedSourceOk(s, s', other);
        }
      }
    }
  }

  // ---------------------------------------------------------------- every sequence of operations

  datatype Step = Submit(u: Upload) | Approve(source: string, actor: string) | Reject(source: string, reason: string)

  function Next(s: State, limit: nat, step: Step): State {
    match step
    case Submit(u) => Submitted(s, limit, u)
    case Approve(source, actor) => ApprovedState(s, source, actor)
    case Reject(source, reason) => RejectedState(s, source, reason)
  }

  /** From a seeded collection with no upload yet. */
  function Run(seeded: seq<Point>, limit: nat, steps: seq<Step>): State {
    if steps == [] then State(seeded, [])
    else Next(Run(seeded, limit, steps[..|steps| - 1]), limit, steps[|steps| - 1])
  }

  predicate StepIsSound(s: State, limit: nat, step: Step) {
    step.Submit? && Accepts(step.u) ==> Sound(s, limit, step.u)
  }

  /** Every upload of the run is refused or sound. */
  predicate StaysSound(seeded: seq<Point>, limit: nat, steps: seq<Step>) {
    steps == [] ||
    (&& StaysSound(seeded, limit, steps[..|steps| - 1])
     && StepIsSound(Run(seeded, limit, steps[..|steps| - 1]), limit, steps[|steps| - 1]))
  }

  lemma NextKeepsInvExactly(s: State, limit: nat, step: Step)
    requires Inv(s)
    ensures Inv(Next(s, limit, step)) <==> StepIsSound(s, limit, step)
  {
    match step
    case Submit(u) => SubmitKeepsInvExactly(s, limit, u);
    case Approve(source, actor) => ApproveKeepsInv(s, source, actor);
    case Reject(source, reason) => RejectKeepsInv(s, source, reason);
  }

  /** The invariant holds all the way through a run exactly when every upload is sound. */
  lemma {:induction false} RunKeepsInvExactly(seeded: seq<Point>, limit: nat, steps: seq<Step>)
    ensures StaysSound(seeded, limit, steps) <==> InvAllTheWay(seeded, limit, steps)
  {
    if steps != [] {
      var most := steps[..|steps| - 1];
      RunKeepsInvExactly(seeded, limit, most);
      if InvAllTheWay(seeded, limit, most) {
        NextKeepsInvExactly(Run(seeded, limit, most), limit, steps[|steps| - 1]);
      }
    }
  }

  ghost predicate InvAllTheWay(seeded: seq<Point>, limit: nat, steps: seq<Step>) {
    Inv(Run(seeded, limit, steps)) && (steps == [] || InvAllTheWay(seeded, limit, steps[..|steps| - 1]))
  }

  /** What chance and the scanner decide about one upload. */
  datatype Chance = Chance(ids: nat -> nat, blocks: seq<string> -> bool)

  function Chosen(step: Step, c: Chance): Step {
    if step.Submit? then Submit(With(step.u, c.ids, c.blocks)) else step
  }

  /** The same run with other ids and scanner verdicts. */
  function ChosenRun(steps: seq<Step>, chances: nat -> Chance): (r: seq<Step>)
    ensures |r| == |steps|
  {
    if steps == [] then []
    else
      var n := |steps| - 1;
      ChosenRun(steps[..n], chances) + [Chosen(steps[n], chances(n))]
  }

  predicate StepFits(s: State, limit: nat, step: Step) {
    step.Submit? && Accepts(step.u) ==> Fits(s, limit, step.u)
  }

  /** Every upload of the run is refused or fits, as can be checked before it. */
  predicate FitsAllTheWay(seeded: seq<Point>, limit: nat, steps: seq<Step>) {
    steps == [] ||
    (&& FitsAllTheWay(seeded, limit, steps[..|steps| - 1])
     && StepFits(Run(seeded, limit, steps[..|steps| - 1]), limit, steps[|steps| - 1]))
  }

  lemma FittingStepIsSound(s: State, limit: nat, step: Step)
    requires StepFits(s, limit, step)
    ensures StepIsSound(s, limit, step)
  {
    if step.Submit? && Accepts(step.u) {
      FittingIsExact(s, limit, step.u);
      assert step.u == With(step.u, step.u.ids, step.u.blocks);
    }
  }

  /** A run whose uploads all fit keeps the invariant all the way. */
  lemma {:induction false} FittingRunKeepsInv(seeded: seq<Point>, limit: nat, steps: seq<Step>)
    requires FitsAllTheWay(seeded, limit, steps)
    ensures InvAllTheWay(seeded, limit, steps)
  {
    if steps != [] {
      var most := steps[..|steps| - 1];
      FittingRunKeepsInv(seeded, limit, most);
      FittingStepIsSound(Run(seeded, limit, most), limit, steps[|steps| - 1]);
      NextKeepsInvExactly(Run(seeded, limit, most), limit, steps[|steps| - 1]);
    }
  }

  ghost predicate AlwaysInv(seeded: seq<Point>, limit: nat, steps: seq<Step>) {
    forall chances :: InvAllTheWay(seeded, limit, ChosenRun(steps, chances))
  }

  ghost predicate AlwaysFits(seeded: seq<Point>, limit: nat, steps: seq<Step>) {
    forall chances :: FitsAllTheWay(seeded, limit, ChosenRun(steps, chances))
  }

  function Instead(chances: nat -> Chance, n: nat, c: Chance): nat -> Chance {
    (i: nat) => if i == n then c else chances(i)
  }

  lemma {:induction false} EarlierStepsStay(steps: seq<Step>, chances: nat -> Chance, n: nat, c: Chance)
    requires |steps| <= n
    ensures ChosenRun(steps, Instead(chances, n, c)) == ChosenRun(steps, chances)
  {
    if steps != [] { EarlierStepsStay(steps[..|steps| - 1], chances, n, c); }
  }

  lemma ChosenPrefix(steps: seq<Step>, chances: nat -> Chance)
    requires steps != []
    ensures var n, run := |steps| - 1, ChosenRun(steps, chances);
      run[..n] == ChosenRun(steps[..n], chances) && run[n] == Chosen(steps[n], chances(n))
  {
  }

  /** If the last upload is sound whatever its ids and scanner, it fits. */
  lemma LastStepFits(seeded: seq<Point>, limit: nat, steps: seq<Step>, chances: nat -> Chance)
    requires steps != [] && AlwaysInv(seeded, limit, steps)
    ensures var n := |steps| - 1;
      StepFits(Run(seeded, limit, ChosenRun(steps[..n], chances)), limit, Chosen(steps[n], chances(n)))
  {
    var n := |steps| - 1;
    var before, step := Run(seeded, limit, ChosenRun(steps[..n], chances)), Chosen(steps[n], chances(n));
    if step.Submit? && Accepts(step.u) {
      forall ids, blocks
        ensures Sound(before, limit, With(step.u, ids, blocks))
      {
        LastUploadIsSound(seeded, limit, steps, chances, Chance(ids, blocks));
      }
      FittingIsExact(before, limit, step.u);
    }
  }

  lemma LastUploadIsSound(seeded: seq<Point>, limit: nat, steps: seq<Step>, chances: nat -> Chance, c: Chance)
    requires steps != [] && AlwaysInv(seeded, limit, steps)
    requires steps[|steps| - 1].Submit? && Accepts(steps[|steps| - 1].u)
    ensures var n := |steps| - 1;
      Sound(Run(seeded, limit, ChosenRun(steps[..n], chances)), limit, With(steps[n].u, c.ids, c.blocks))
  {
    var n := |steps| - 1;
    var other := Instead(chances, n, c);
    ChosenPrefix(steps, other);
    EarlierStepsStay(steps[..n], chances, n, c);
    assert InvAllTheWay(seeded, limit, ChosenRun(steps, other));
    assert InvAllTheWay(seeded, limit, ChosenRun(steps, other)[..n]);
    NextKeepsInvExactly(Run(seeded, limit, ChosenRun(steps[..n], chances)), limit, Chosen(steps[n], c));
  }

  /** Whatever the random ids and the scanner turn out to be, the invariant holds all through
      the run, if and only if every upload fits at its time. */
  lemma {:induction false} RunFitsExactly(seeded: seq<Point>, limit: nat, steps: seq<Step>)
    ensures AlwaysInv(seeded, limit, steps) <==> AlwaysFits(seeded, limit, steps)
  {
    if AlwaysFits(seeded, limit, steps) {
      forall chances
        ensures InvAllTheWay(seeded, limit, ChosenRun(steps, chances))
      {
        FittingRunKeepsInv(seeded, limit, ChosenRun(steps, chances));
      }
    }
    if AlwaysInv(seeded, limit, steps) && steps != [] {
      var n := |steps| - 1;
      EarlierAlwaysInv(seeded, limit, steps);
      RunFitsExactly(seeded, limit, steps[..n]);
      forall chances
        ensures FitsAllTheWay(seeded, limit, ChosenRun(steps, chances))
      {
        LongerRunFits(seeded, limit, steps, chances);
      }
    }
  }

  lemma LongerRunFits(seeded: seq<Point>, limit: nat, steps: seq<Step>, chances: nat -> Chance)
    requires steps != [] && AlwaysInv(seeded, limit, steps) && AlwaysFits(seeded, limit, steps[..|steps| - 1])
    ensures FitsAllTheWay(seeded, limit, ChosenRun(steps, chances))
  {
    ChosenPrefix(steps, chances);
    LastStepFits(seeded, limit, steps, chances);
    assert FitsAllTheWay(seeded, limit, ChosenRun(steps[..|steps| - 1], chances));
  }

  lemma EarlierAlwaysInv(seeded: seq<Point>, limit: nat, steps: seq<Step>)
    requires steps != [] && AlwaysInv(seeded, limit, steps)
    ensures AlwaysInv(seeded, limit, steps[..|steps| - 1])
  {
    var most := steps[..|steps| - 1];
    forall chances
      ensures InvAllTheWay(seeded, limit, ChosenRun(most, chances))
    {
      ChosenPrefix(steps, chances);
      assert InvAllTheWay(seeded, limit, ChosenRun(steps, chances));
    }
  }

  lemma {:induction false} TextIsThere(points: seq<Point>, i: nat)
    requires i < |points|
    ensures points[i].text in TextsOf(points, points[i].source)
  {
    if i > 0 { TextIsThere(points[1..], i - 1); }
  }

  /** Over every sequence of uploads, approvals and rejections, an uploaded chunk that
      search can see belongs to an upload that was scanned with that very text, passed,
      and was approved. */
  lemma SearchableWasScannedAndApproved(seeded: seq<Point>, limit: nat, steps: seq<Step>, i: nat)
    requires StaysSound(seeded, limit, steps) && i < |Run(seeded, limit, steps).points|
    requires Run(seeded, limit, steps).points[i].visibility == Active
    requires Latest(Run(seeded, limit, steps).rows, Run(seeded, limit, steps).points[i].source).Some?
    ensures var s := Run(seeded, limit, steps);
      var row := s.rows[Latest(s.rows, s.points[i].source).value];
      row.status == Live && !row.blocked && row.approvedBy.Some? && s.points[i].text in row.scanned
  {
    RunKeepsInvExactly(seeded, limit, steps);
    var s := Run(seeded, limit, steps);
    assert SourceOk(s, s.points[i].source);
    TextIsThere(s.points, i);
  }

  // ---------------------------------------------------------------- beyond one page

  /** One chunk more than a page is enough for an upload that leaves an old, searchable chunk
      behind: nobody looks past the page for something to replace. */
  lemma StaleChunkBeyondOnePage(limit: nat) returns (s: State, u: Upload)
    ensures |s.points| == limit + 1 && Inv(s) && Accepts(u) && !Inv(Submitted(s, limit, u))
    ensures !Replaces(s.points, limit, u) && HasSource(s.points, u.source)
  {
    s := State(PageAndOne(limit), []);
    u := Upload("policy.md", true, ["new"], i => 0, shown => false);
    OldIsUnlisted(limit);
    SubmitKeepsInvExactly(s, limit, u);
  }

  function PageAndOne(limit: nat): seq<Point> {
    Fresh("other.md", seq(limit, i => "kept"), Active) + [Point("policy.md", "old", Active)]
  }

  lemma OldIsUnlisted(limit: nat)
    ensures !HasSource(Scroll(PageAndOne(limit), limit, None), "policy.md")
    ensures HasSource(PageAndOne(limit), "policy.md") && !AllSeen(PageAndOne(limit), "policy.md", Quarantined)
  {
    var all := PageAndOne(limit);
    MatchingAll(all);
    assert Scroll(all, limit, None) == Fresh("other.md", seq(limit, i => "kept"), Active);
    assert all[limit].source == "policy.md" && all[limit].visibility == Active;
  }

  /** A page full of other documents waiting for approval is enough for an upload that is
      never scanned: the replacement is complete, the scanner is shown nothing, and after
      approval the new text is searchable. */
  lemma UnscannedBeyondOnePage(limit: nat, blocks: seq<string> -> bool, actor: string) returns (s: State, u: Upload)
    requires !blocks([])
    ensures |s.points| == limit && Inv(s) && Accepts(u) && u.blocks == blocks && !HasSource(s.points, u.source)
    ensures UnscannedIsSearchable(ApprovedState(Submitted(s, limit, u), u.source, actor), u.source, "new")
  {
    s, u := State(Waiting(limit), []), LateUpload(limit, blocks);
    LateUploadIsUnscanned(limit, blocks);
    var s' := Submitted(s, limit, u);
    SetEach(s'.points, "policy.md", Active);
    var done := ApprovedState(s', "policy.md", actor);
    assert done.points[limit] == Point("policy.md", "new", Active);
  }

  function Waiting(limit: nat): seq<Point> { Fresh("other.md", seq(limit, i => "kept"), Quarantined) }

  function LateUpload(limit: nat, blocks: seq<string> -> bool): Upload {
    Upload("policy.md", true, ["new"], i => limit + i, blocks)
  }

  lemma LateUploadIsUnscanned(limit: nat, blocks: seq<string> -> bool)
    requires !blocks([])
    ensures !HasSource(Waiting(limit), "policy.md")
    ensures Submitted(State(Waiting(limit), []), limit, LateUpload(limit, blocks)) ==
      State(Waiting(limit) + [Point("policy.md", "new", Quarantined)],
            [Row("policy.md", ScanPassed, 1, false, [], None, None)])
  {
    var waiting, u := Waiting(limit), LateUpload(limit, blocks);
    var added := Fresh("policy.md", ["new"], Quarantined);
    MatchingAll(waiting);
    assert Kept(waiting, limit, u) == waiting;
    AddedAtEnd(waiting, added, u.ids);
    MatchingConcat(waiting, added, Some(Quarantined));
    MatchingFresh("other.md", seq(limit, i => "kept"), Quarantined);
    assert Scroll(waiting + added, limit, Some(Quarantined)) == waiting;
    NoneThere(waiting, "policy.md");
  }

  /** Search can see the text, though the latest scan of its source did not. */
  predicate UnscannedIsSearchable(s: State, source: string, text: string) {
    && Point(source, text, Active) in s.points && Latest(s.rows, source).Some?
    && s.rows[Latest(s.rows, source).value].status == Live
    && text !in s.rows[Latest(s.rows, source).value].scanned
  }
}
