/**
 Reciprocal rank fusion over exact reals: scores added up list by list in a dictionary, then
 sorted by score and, among equals, by chunk id.
 */
module RankFusion {
  import opened Collections
  import opened Option

  /** One retriever's list, best first. */
  datatype Ranking = Ranking(weight: real, ids: seq<string>)

  datatype Hit = Hit(chunkId: string, score: real)

  // ------------------------------------------------------------------ scores

  /** What a list gives a chunk: `weight / (k + position)` for each place it stands in. */
  function Share(weight: real, ids: seq<string>, k: nat, id: string): real {
    if ids == [] then 0.0
    else
      Share(weight, ids[..|ids| - 1], k, id)
      + if ids[|ids| - 1] == id then weight / (k + |ids|) as real else 0.0
  }

  function Score(rankings: seq<Ranking>, k: nat, id: string): real {
    if rankings == [] then 0.0
    else
      var last := rankings[|rankings| - 1];
      Score(rankings[..|rankings| - 1], k, id) + Share(last.weight, last.ids, k, id)
  }

  predicate Listed(rankings: seq<Ranking>, id: string) {
    exists i :: 0 <= i < |rankings| && id in rankings[i].ids
  }

  // ------------------------------------------------------------------- order

  /** Python's order of strings. */
  predicate Before(a: string, b: string) {
    b != "" && (a == "" || a[0] < b[0] || (a[0] == b[0] && Before(a[1..], b[1..])))
  }

  predicate Outranks(a: Hit, b: Hit) {
    a.score > b.score || (a.score == b.score && Before(a.chunkId, b.chunkId))
  }

  predicate Ranked(hits: seq<Hit>) {
    forall i, j :: 0 <= i < j < |hits| ==> Outranks(hits[i], hits[j])
  }

  lemma {:induction false} BeforeIsTotal(a: string, b: string)
    ensures a == b || Before(a, b) || Before(b, a)
    ensures !(Before(a, b) && Before(b, a))
  {
    if a != "" && b != "" {
      BeforeIsTotal(a[1..], b[1..]);
      assert a == [a[0]] + a[1..] && b == [b[0]] + b[1..];
    }
  }

  lemma {:induction false} BeforeIsTransitive(a: string, b: string, c: string)
    requires Before(a, b) && Before(b, c)
    ensures Before(a, c)
  {
    if a != "" && a[0] == b[0] && b[0] == c[0] {
      BeforeIsTransitive(a[1..], b[1..], c[1..]);
    }
  }

  lemma OutranksIsTransitive(a: Hit, b: Hit, c: Hit)
    requires Outranks(a, b) && Outranks(b, c)
    ensures Outranks(a, c)
  {
    if a.score == b.score == c.score {
      BeforeIsTransitive(a.chunkId, b.chunkId, c.chunkId);
    }
  }

  lemma OutranksIsTotal(a: Hit, b: Hit)
    requires a.chunkId != b.chunkId
    ensures Outranks(a, b) || Outranks(b, a)
  {
    BeforeIsTotal(a.chunkId, b.chunkId);
  }

  // ------------------------------------------------------------------- fusing

  /** The dictionary after some rankings: one entry for each chunk listed, at its score. */
  ghost predicate Holds(fused: map<string, real>, rankings: seq<Ranking>, k: nat) {
    && (forall id <- fused :: Listed(rankings, id) && fused[id] == Score(rankings, k, id))
    && (forall id: string :: Listed(rankings, id) ==> id in fused)
  }

  /** Part way through a list. */
  ghost predicate Adding(
    fused: map<string, real>, before: map<string, real>, weight: real, ids: seq<string>, k: nat)
  {
    && (forall id <- fused :: id in before || id in ids)
    && (forall id <- before :: id in fused) && (forall id <- ids :: id in fused)
    && (forall id <- fused :: fused[id] == (if id in before then before[id] else 0.0) + Share(weight, ids, k, id))
  }

  lemma {:induction false} NoShare(weight: real, ids: seq<string>, k: nat, id: string)
    requires id !in ids
    ensures Share(weight, ids, k, id) == 0.0
  {
    if ids != [] {
      NoShare(weight, ids[..|ids| - 1], k, id);
    }
  }

  method AddRanking(fused0: map<string, real>, r: Ranking, k: nat) returns (fused: map<string, real>)
    ensures Adding(fused, fused0, r.weight, r.ids, k)
  {
    fused := fused0;
    for i := 0 to |r.ids|
      invariant Adding(fused, fused0, r.weight, r.ids[..i], k)
    {
      AddingNext(fused, fused0, r.weight, r.ids, i, k);
      var id := r.ids[i];
      var score := if id in fused then fused[id] else 0.0;
      fused := fused[id := score + r.weight / (k + i + 1) as real];
    }
    assert r.ids[..|r.ids|] == r.ids;
  }

  lemma AddingNext(fused: map<string, real>, before: map<string, real>, weight: real, ids: seq<string>, i: nat, k: nat)
    requires i < |ids| && Adding(fused, before, weight, ids[..i], k)
    ensures var score := if ids[i] in fused then fused[ids[i]] else 0.0;
            Adding(fused[ids[i] := score + weight / (k + i + 1) as real], before, weight, ids[..i + 1], k)
  {
    var now := ids[..i + 1];
    assert now[..i] == ids[..i] && now == ids[..i] + [ids[i]];
    if ids[i] !in fused {
      NoShare(weight, ids[..i], k, ids[i]);
    }
  }

  lemma ListNext(rankings: seq<Ranking>, i: nat, id: string)
    requires i < |rankings|
    ensures Listed(rankings[..i + 1], id) <==> Listed(rankings[..i], id) || id in rankings[i].ids
  {
    if Listed(rankings[..i + 1], id) && id !in rankings[i].ids {
      var j :| 0 <= j < i + 1 && id in rankings[..i + 1][j].ids;
      assert rankings[..i][j] == rankings[j];
    }
    if Listed(rankings[..i], id) {
      var j :| 0 <= j < i && id in rankings[..i][j].ids;
      assert rankings[..i + 1][j] == rankings[j];
    }
    if id in rankings[i].ids {
      assert rankings[..i + 1][i] == rankings[i];
    }
  }

  lemma {:induction false} NoScore(rankings: seq<Ranking>, k: nat, id: string)
    requires !Listed(rankings, id)
    ensures Score(rankings, k, id) == 0.0
  {
    if rankings != [] {
      var n := |rankings| - 1;
      assert rankings[..n + 1] == rankings;
      ListNext(rankings, n, id);
      NoScore(rankings[..n], k, id);
      NoShare(rankings[n].weight, rankings[n].ids, k, id);
    }
  }

  lemma AddedHolds(fused: map<string, real>, before: map<string, real>, rankings: seq<Ranking>, i: nat, k: nat)
    requires i < |rankings| && Holds(before, rankings[..i], k)
    requires Adding(fused, before, rankings[i].weight, rankings[i].ids, k)
    ensures Holds(fused, rankings[..i + 1], k)
  {
    assert rankings[..i + 1][..i] == rankings[..i];
    forall id: string
      ensures Listed(rankings[..i + 1], id) <==> Listed(rankings[..i], id) || id in rankings[i].ids
    {
      ListNext(rankings, i, id);
    }
    forall id | id in fused
      ensures fused[id] == Score(rankings[..i + 1], k, id)
    {
      if id !in before {
        NoScore(rankings[..i], k, id);
      }
    }
  }

  function Insert(sorted: seq<Hit>, hit: Hit): seq<Hit> {
    if sorted == [] || Outranks(hit, sorted[0]) then [hit] + sorted else [sorted[0]] + Insert(sorted[1..], hit)
  }

  predicate NewId(sorted: seq<Hit>, hit: Hit) {
    forall i :: 0 <= i < |sorted| ==> sorted[i].chunkId != hit.chunkId
  }

  lemma {:induction false} InsertRanks(sorted: seq<Hit>, hit: Hit)
    requires Ranked(sorted) && NewId(sorted, hit)
    ensures Ranked(Insert(sorted, hit))
    ensures forall h :: h in Insert(sorted, hit) <==> h in sorted || h == hit
  {
    if sorted != [] {
      if Outranks(hit, sorted[0]) {
        forall i | 0 <= i < |sorted|
          ensures Outranks(hit, sorted[i])
        {
          if i > 0 {
            OutranksIsTransitive(hit, sorted[0], sorted[i]);
          }
        }
      } else {
        var tail := Insert(sorted[1..], hit);
        assert forall i :: 0 <= i < |sorted[1..]| ==> sorted[1..][i] == sorted[i + 1];
        InsertRanks(sorted[1..], hit);
        OutranksIsTotal(hit, sorted[0]);
        HeadOutranks(sorted, hit, tail);
        assert sorted == [sorted[0]] + sorted[1..];
      }
    }
  }

  lemma HeadOutranks(sorted: seq<Hit>, hit: Hit, tail: seq<Hit>)
    requires sorted != [] && Ranked(sorted) && Outranks(sorted[0], hit)
    requires Ranked(tail) && forall h :: h in tail <==> h in sorted[1..] || h == hit
    ensures Ranked([sorted[0]] + tail)
  {
    forall i | 0 <= i < |tail|
      ensures Outranks(sorted[0], tail[i])
    {
      assert tail[i] in tail;
      if tail[i] in sorted[1..] {
        var j :| 0 <= j < |sorted[1..]| && sorted[1..][j] == tail[i];
        assert sorted[j + 1] == tail[i];
      }
    }
  }

  /** Exactly the chunks listed, each at its score. */
  ghost predicate Fused(hits: seq<Hit>, rankings: seq<Ranking>, k: nat) {
    && Ranked(hits)
    && (forall h <- hits :: Listed(rankings, h.chunkId) && h.score == Score(rankings, k, h.chunkId))
    && (forall id: string :: Listed(rankings, id) ==> Hit(id, Score(rankings, k, id)) in hits)
  }

  method SortHits(fused: map<string, real>) returns (hits: seq<Hit>)
    ensures Ranked(hits) && (forall h :: h in hits <==> h.chunkId in fused && fused[h.chunkId] == h.score)
  {
    hits := [];
    var waiting := fused.Keys;
    while waiting != {}
      invariant waiting <= fused.Keys && Ranked(hits)
      invariant forall h :: h in hits <==> h.chunkId in fused.Keys - waiting && fused[h.chunkId] == h.score
      decreases |waiting|
    {
      var id :| id in waiting;
      var hit := Hit(id, fused[id]);
      assert forall i :: 0 <= i < |hits| ==> hits[i] in hits;
      InsertRanks(hits, hit);
      hits := Insert(hits, hit);
      waiting := waiting - {id};
    }
  }

  /** `limit` of none, or of zero, keeps everything. */
  method Fuse(rankings: seq<Ranking>, k: nat, limit: Option<nat>) returns (results: seq<Hit>)
    ensures exists hits: seq<Hit> :: Fused(hits, rankings, k)
              && results == if limit.None? || limit.value == 0 || limit.value >= |hits| then hits
                            else hits[..limit.value]
  {
    var fused: map<string, real> := map[];
    for i := 0 to |rankings|
      invariant Holds(fused, rankings[..i], k)
    {
      var more := AddRanking(fused, rankings[i], k);
      AddedHolds(more, fused, rankings, i, k);
      fused := more;
    }
    assert rankings[..|rankings|] == rankings;
    var hits := SortHits(fused);
    assert Fused(hits, rankings, k);
    results := if limit.None? || limit.value == 0 || limit.value >= |hits| then hits else hits[..limit.value];
  }

  // ------------------------------------------------- independence of any order

  lemma OutranksOneWay(a: Hit, b: Hit)
    ensures !(Outranks(a, b) && Outranks(b, a))
  {
    BeforeIsTotal(a.chunkId, b.chunkId);
  }

  predicate SameHits(a: seq<Hit>, b: seq<Hit>) {
    (forall h <- a :: h in b) && (forall h <- b :: h in a)
  }

  /** Hits can be ranked in one way only. */
  lemma {:induction false} RankedIsUnique(a: seq<Hit>, b: seq<Hit>)
    requires Ranked(a) && Ranked(b) && SameHits(a, b)
    ensures a == b
    decreases |a|
  {
    assert b == [] || b[0] in b;
    if a != [] {
      assert a[0] in b;
      SameHead(a, b);
      SameTail(a, b);
      RankedIsUnique(a[1..], b[1..]);
      assert a == [a[0]] + a[1..] && b == [b[0]] + b[1..];
    }
  }

  lemma SameHead(a: seq<Hit>, b: seq<Hit>)
    requires Ranked(a) && Ranked(b) && SameHits(a, b) && a != [] && b != []
    ensures a[0] == b[0]
  {
    assert a[0] in b && b[0] in a;
    var i :| 0 <= i < |b| && b[i] == a[0];
    var j :| 0 <= j < |a| && a[j] == b[0];
    OutranksOneWay(a[0], b[0]);
  }

  lemma SameTail(a: seq<Hit>, b: seq<Hit>)
    requires Ranked(a) && Ranked(b) && SameHits(a, b) && a != [] && b != [] && a[0] == b[0]
    ensures SameHits(a[1..], b[1..])
  {
    forall h | h in a[1..]
      ensures h in b[1..]
    {
      TailMember(a, b, h);
    }
    forall h | h in b[1..]
      ensures h in a[1..]
    {
      TailMember(b, a, h);
    }
  }

  lemma TailMember(a: seq<Hit>, b: seq<Hit>, h: Hit)
    requires Ranked(a) && SameHits(a, b) && a != [] && b != [] && a[0] == b[0] && h in a[1..]
    ensures h in b[1..]
  {
    var i :| 0 <= i < |a[1..]| && a[1..][i] == h;
    assert a[i + 1] == h && h in b;
    OutranksOneWay(a[0], a[i + 1]);
    var j :| 0 <= j < |b| && b[j] == h;
    assert b[1..][j - 1] == h;
  }

  lemma {:induction false} ScoreConcat(a: seq<Ranking>, b: seq<Ranking>, k: nat, id: string)
    ensures Score(a + b, k, id) == Score(a, k, id) + Score(b, k, id)
  {
    if b == [] {
      assert a + b == a;
    } else {
      assert a + b == (a + b[..|b| - 1]) + [b[|b| - 1]];
      assert (a + b)[..|a + b| - 1] == a + b[..|b| - 1];
      ScoreConcat(a, b[..|b| - 1], k, id);
    }
  }

  lemma ScoreOfOne(r: Ranking, k: nat, id: string)
    ensures Score([r], k, id) == Share(r.weight, r.ids, k, id)
  {
    assert [r][..0] == [];
  }

  lemma {:induction false} ScorePermutes(a: seq<Ranking>, b: seq<Ranking>, k: nat, id: string)
    requires multiset(a) == multiset(b)
    ensures Score(a, k, id) == Score(b, k, id)
    decreases |a|
  {
    if a == [] {
      assert |multiset(b)| == 0;
    } else {
      var init, last := a[..|a| - 1], a[|a| - 1];
      assert a == init + [last];
      assert multiset(a) == multiset(init) + multiset{last};
      assert last in multiset(b);
      var j :| 0 <= j < |b| && b[j] == last;
      WithoutOne(b, j, k, id);
      CancelOne(multiset(init), multiset(b[..j] + b[j + 1..]), last);
      ScorePermutes(init, b[..j] + b[j + 1..], k, id);
    }
  }

  lemma CancelOne(a: multiset<Ranking>, b: multiset<Ranking>, x: Ranking)
    requires a + multiset{x} == b + multiset{x}
    ensures a == b
  {
    assert a == (a + multiset{x}) - multiset{x} && b == (b + multiset{x}) - multiset{x};
  }

  lemma WithoutOne(b: seq<Ranking>, j: nat, k: nat, id: string)
    requires j < |b|
    ensures var rest := b[..j] + b[j + 1..];
            && multiset(b) == multiset(rest) + multiset{b[j]}
            && Score(b, k, id) == Score(rest, k, id) + Share(b[j].weight, b[j].ids, k, id)
  {
    assert b == b[..j] + [b[j]] + b[j + 1..];
    ScoreConcat(b[..j], b[j + 1..], k, id);
    ScoreConcat(b[..j], [b[j]], k, id);
    ScoreConcat(b[..j] + [b[j]], b[j + 1..], k, id);
    ScoreOfOne(b[j], k, id);
  }

  lemma ListedPermutes(a: seq<Ranking>, b: seq<Ranking>, id: string)
    requires multiset(a) == multiset(b) && Listed(a, id)
    ensures Listed(b, id)
  {
    var i :| 0 <= i < |a| && id in a[i].ids;
    assert a[i] in multiset(b);
    var j :| 0 <= j < |b| && b[j] == a[i];
  }

  /** Fusing the lists in another order gives the same result: it depends on the scores alone. */
  lemma FusionIsOrderFree(a: seq<Ranking>, b: seq<Ranking>, k: nat, x: seq<Hit>, y: seq<Hit>)
    requires multiset(a) == multiset(b) && Fused(x, a, k) && Fused(y, b, k)
    ensures x == y
  {
    forall id: string
      ensures Score(a, k, id) == Score(b, k, id) && (Listed(a, id) <==> Listed(b, id))
    {
      ScorePermutes(a, b, k, id);
      if Listed(a, id) {
        ListedPermutes(a, b, id);
      }
      if Listed(b, id) {
        ListedPermutes(b, a, id);
      }
    }
    assert forall h <- x :: h == Hit(h.chunkId, h.score);
    assert forall h <- y :: h == Hit(h.chunkId, h.score);
    RankedIsUnique(x, y);
  }

  // ------------------------------------------------- found by both, or by one

  predicate NoRepeats(ids: seq<string>) {
    forall i, j :: 0 <= i < j < |ids| ==> ids[i] != ids[j]
  }

  lemma {:induction false} ShareAt(weight: real, ids: seq<string>, k: nat, i: nat)
    requires NoRepeats(ids) && i < |ids|
    ensures Share(weight, ids, k, ids[i]) == weight / (k + i + 1) as real
  {
    var init, last := ids[..|ids| - 1], ids[|ids| - 1];
    if i == |ids| - 1 {
      NoShare(weight, init, k, last);
    } else {
      ShareAt(weight, init, k, i);
    }
  }

  lemma Quotients(w: real, a: nat, b: nat)
    requires w > 0.0 && 0 < a <= b
    ensures w / a as real >= w / b as real > 0.0
  {
    var x, y := w / a as real, w / b as real;
    assert x * a as real == w && y * b as real == w;
    assert y * a as real <= y * b as real;
  }

  /** The least a chunk in both lists scores, and the most a chunk in one scores. */
  lemma ShareBounds(weight: real, ids: seq<string>, k: nat, most: nat, id: string)
    requires weight > 0.0 && NoRepeats(ids) && |ids| <= most && id in ids
    ensures weight / (k + most) as real <= Share(weight, ids, k, id) <= weight / (k + 1) as real
  {
    var i :| 0 <= i < |ids| && ids[i] == id;
    ShareAt(weight, ids, k, i);
    Quotients(weight, k + i + 1, k + most);
    Quotients(weight, k + 1, k + i + 1);
  }

  function MaxReal(a: real, b: real): real {
    if a < b then b else a
  }

  /** Appearing in both lists beats the best place in either. */
  predicate BothBeatsOne(w1: real, w2: real, k: nat, most: nat) {
    (w1 + w2) * (k + 1) as real > MaxReal(w1, w2) * (k + most) as real
  }

  lemma TwoShares(dense: Ranking, sparse: Ranking, k: nat, id: string)
    ensures Score([dense, sparse], k, id)
            == Share(dense.weight, dense.ids, k, id) + Share(sparse.weight, sparse.ids, k, id)
  {
    assert [dense, sparse] == [dense] + [sparse];
    ScoreConcat([dense], [sparse], k, id);
    ScoreOfOne(dense, k, id);
    ScoreOfOne(sparse, k, id);
  }

  lemma CrossMultiply(sum: real, top: real, a: nat, b: nat)
    requires a > 0 && b > 0
    ensures sum / b as real > top / a as real <==> sum * a as real > top * b as real
  {
    var x, y := sum / b as real, top / a as real;
    assert x * b as real == sum && y * a as real == top;
    assert sum * a as real == x * (a as real * b as real);
    assert top * b as real == y * (a as real * b as real);
    assert a as real * b as real > 0.0;
  }

  lemma AddQuotients(x: real, y: real, n: nat)
    requires n > 0
    ensures x / n as real + y / n as real == (x + y) / n as real
  {
  }

  lemma QuotientGrows(x: real, y: real, n: nat)
    requires x <= y && n > 0
    ensures x / n as real <= y / n as real
  {
  }

  lemma BothAtLeast(dense: Ranking, sparse: Ranking, k: nat, most: nat, id: string)
    requires dense.weight > 0.0 && sparse.weight > 0.0 && NoRepeats(dense.ids) && NoRepeats(sparse.ids)
    requires |dense.ids| <= most && |sparse.ids| <= most && id in dense.ids && id in sparse.ids
    ensures most > 0 && Score([dense, sparse], k, id) >= (dense.weight + sparse.weight) / (k + most) as real
  {
    TwoShares(dense, sparse, k, id);
    ShareBounds(dense.weight, dense.ids, k, most, id);
    ShareBounds(sparse.weight, sparse.ids, k, most, id);
    AddQuotients(dense.weight, sparse.weight, k + most);
  }

  lemma OneAtMost(dense: Ranking, sparse: Ranking, k: nat, most: nat, id: string)
    requires dense.weight > 0.0 && sparse.weight > 0.0 && NoRepeats(dense.ids) && NoRepeats(sparse.ids)
    requires |dense.ids| <= most && |sparse.ids| <= most && (id in dense.ids <==> id !in sparse.ids)
    ensures Score([dense, sparse], k, id) <= MaxReal(dense.weight, sparse.weight) / (k + 1) as real
  {
    var top := MaxReal(dense.weight, sparse.weight);
    TwoShares(dense, sparse, k, id);
    if id in dense.ids {
      NoShare(sparse.weight, sparse.ids, k, id);
      ShareBounds(dense.weight, dense.ids, k, most, id);
      QuotientGrows(dense.weight, top, k + 1);
    } else {
      NoShare(dense.weight, dense.ids, k, id);
      ShareBounds(sparse.weight, sparse.ids, k, most, id);
      QuotientGrows(sparse.weight, top, k + 1);
    }
  }

  /** Every chunk found by both retrievers outscores every chunk found by one. */
  lemma BothOutrankOne(dense: Ranking, sparse: Ranking, k: nat, most: nat, both: string, one: string)
    requires dense.weight > 0.0 && sparse.weight > 0.0 && BothBeatsOne(dense.weight, sparse.weight, k, most)
    requires NoRepeats(dense.ids) && NoRepeats(sparse.ids) && |dense.ids| <= most && |sparse.ids| <= most
    requires both in dense.ids && both in sparse.ids && (one in dense.ids <==> one !in sparse.ids)
    ensures Score([dense, sparse], k, both) > Score([dense, sparse], k, one)
  {
    BothAtLeast(dense, sparse, k, most, both);
    OneAtMost(dense, sparse, k, most, one);
    CrossMultiply(dense.weight + sparse.weight, MaxReal(dense.weight, sparse.weight), k + 1, k + most);
  }

  // ------------------------------------------------------------ and no further

  /** `n` ids, all different. */
  function Filler(c: char, n: nat): string {
    if n == 0 then [] else Filler(c, n - 1) + [c]
  }

  function Fillers(c: char, n: nat): (r: seq<string>)
    ensures |r| == n
  {
    if n == 0 then [] else Fillers(c, n - 1) + [Filler(c, n)]
  }

  lemma {:induction false} FillersAt(c: char, n: nat)
    ensures forall i :: 0 <= i < n ==> |Fillers(c, n)[i]| == i + 1 && Fillers(c, n)[i][0] == c
  {
    if n > 0 {
      FillersAt(c, n - 1);
      FillerShape(c, n);
    }
  }

  lemma {:induction false} FillerShape(c: char, n: nat)
    ensures |Filler(c, n)| == n && (n > 0 ==> Filler(c, n)[0] == c)
  {
    if n > 0 {
      FillerShape(c, n - 1);
    }
  }

  /** A chunk at the top of one list, another at the bottom of both. */
  lemma Extremes(w1: real, w2: real, k: nat, most: nat) returns (heavy: Ranking, light: Ranking)
    requires w1 >= w2 > 0.0 && most >= 2
    ensures heavy.weight == w1 && light.weight == w2 && NoRepeats(heavy.ids) && NoRepeats(light.ids)
    ensures |heavy.ids| == |light.ids| == most
    ensures "y" in heavy.ids && "y" !in light.ids && "x" in heavy.ids && "x" in light.ids
    ensures Score([heavy, light], k, "x") == (w1 + w2) / (k + most) as real
    ensures Score([heavy, light], k, "y") == w1 / (k + 1) as real
  {
    var heavyIds := HeavyIds(most);
    var lightIds := LightIds(most);
    heavy, light := Ranking(w1, heavyIds), Ranking(w2, lightIds);
    ShareAt(w1, heavyIds, k, 0);
    ShareAt(w1, heavyIds, k, most - 1);
    ShareAt(w2, lightIds, k, most - 1);
    NoShare(w2, lightIds, k, "y");
    TwoShares(heavy, light, k, "x");
    TwoShares(heavy, light, k, "y");
    AddQuotients(w1, w2, k + most);
  }

  lemma HeavyIds(most: nat) returns (ids: seq<string>)
    requires most >= 2
    ensures |ids| == most && NoRepeats(ids) && ids[0] == "y" && ids[most - 1] == "x"
  {
    FillersAt('p', most - 2);
    ids := ["y"] + Fillers('p', most - 2) + ["x"];
    forall i | 0 < i < most - 1
      ensures |ids[i]| == i && ids[i][0] == 'p'
    {
      assert ids[i] == Fillers('p', most - 2)[i - 1];
    }
  }

  lemma LightIds(most: nat) returns (ids: seq<string>)
    requires most >= 2
    ensures |ids| == most && NoRepeats(ids) && "y" !in ids && ids[most - 1] == "x"
  {
    FillersAt('q', most - 1);
    ids := Fillers('q', most - 1) + ["x"];
    forall i | 0 <= i < most - 1
      ensures |ids[i]| == i + 1 && ids[i][0] == 'q'
    {
      assert ids[i] == Fillers('q', most - 1)[i];
    }
  }

  /** For lists of two or more the condition is exact: without it, two lists break the rule. */
  lemma BothBeatsOneIsExact(w1: real, w2: real, k: nat, most: nat) returns (heavy: Ranking, light: Ranking)
    requires w1 >= w2 > 0.0 && most >= 2
    ensures heavy.weight == w1 && light.weight == w2 && NoRepeats(heavy.ids) && NoRepeats(light.ids)
    ensures |heavy.ids| == |light.ids| == most
    ensures "y" in heavy.ids && "y" !in light.ids && "x" in heavy.ids && "x" in light.ids
    ensures Score([heavy, light], k, "x") > Score([heavy, light], k, "y") <==> BothBeatsOne(w1, w2, k, most)
  {
    heavy, light := Extremes(w1, w2, k, most);
    CrossMultiply(w1 + w2, w1, k + 1, k + most);
  }

  const RRF_K := 60
  const DENSE_WEIGHT := 1.0
  const SPARSE_WEIGHT := 0.8

  /** The retriever's weights carry lists of up to 49; it asks for 40. */
  lemma RetrieverSettings(most: nat)
    ensures BothBeatsOne(DENSE_WEIGHT, SPARSE_WEIGHT, RRF_K, most) <==> most < 50
  {
    assert (60 + most) as real == 60.0 + most as real;
  }

  // --------------------------------------------------- as sums over positions

  /** What position `i` of a list gives a chunk. */
  function Given(r: Ranking, k: nat, id: string): nat -> real {
    (i: nat) => if i < |r.ids| && r.ids[i] == id then r.weight / (k + i + 1) as real else 0.0
  }

  lemma {:induction false} ShareIsTotal(r: Ranking, k: nat, id: string)
    ensures Share(r.weight, r.ids, k, id) == Total(Given(r, k, id), |r.ids|)
    decreases |r.ids|
  {
    if r.ids != [] {
      var init := r.(ids := r.ids[..|r.ids| - 1]);
      ShareIsTotal(init, k, id);
      SameTotal(Given(init, k, id), Given(r, k, id), |init.ids|);
    }
  }

  function GivenBy(rankings: seq<Ranking>, k: nat, id: string): nat -> real {
    (i: nat) => if i < |rankings| then Total(Given(rankings[i], k, id), |rankings[i].ids|) else 0.0
  }

  /** A chunk's score is the sum, over all the lists and all the places it stands in, of weight / (k + rank). */
  lemma {:induction false} ScoreIsTotal(rankings: seq<Ranking>, k: nat, id: string)
    ensures Score(rankings, k, id) == Total(GivenBy(rankings, k, id), |rankings|)
  {
    if rankings != [] {
      var init, last := rankings[..|rankings| - 1], rankings[|rankings| - 1];
      ScoreIsTotal(init, k, id);
      ShareIsTotal(last, k, id);
      SameTotal(GivenBy(init, k, id), GivenBy(rankings, k, id), |init|);
    }
  }

  /** The strings agree up to `i`, and there the first has the smaller character. */
  predicate SmallerAt(a: string, b: string, i: nat) {
    i < |a| && i < |b| && a[..i] == b[..i] && a[i] < b[i]
  }

  /** Where two strings first differ, the smaller character comes first; a string comes before its extensions. */
  predicate ComesFirst(a: string, b: string) {
    a < b || exists i: nat :: i <= |a| && SmallerAt(a, b, i)
  }

  lemma SmallerFurtherOn(c: char, a: string, b: string, i: nat)
    ensures SmallerAt([c] + a, [c] + b, i + 1) <==> SmallerAt(a, b, i)
    ensures !SmallerAt([c] + a, [c] + b, 0)
  {
    if i < |a| && i < |b| {
      assert ([c] + a)[..i + 1] == [c] + a[..i] && ([c] + b)[..i + 1] == [c] + b[..i];
      assert a[..i] == ([c] + a[..i])[1..] && b[..i] == ([c] + b[..i])[1..];
    }
  }

  lemma OneCharacterOn(c: char, a: string, b: string)
    ensures ComesFirst([c] + a, [c] + b) <==> ComesFirst(a, b)
  {
    forall i: nat
      ensures SmallerAt([c] + a, [c] + b, i + 1) <==> SmallerAt(a, b, i)
    {
      SmallerFurtherOn(c, a, b, i);
    }
    SmallerFurtherOn(c, a, b, 0);
    if ComesFirst(a, b) && !(a < b) {
      var i: nat :| i <= |a| && SmallerAt(a, b, i);
      assert SmallerAt([c] + a, [c] + b, i + 1);
    }
    if ComesFirst([c] + a, [c] + b) && !([c] + a < [c] + b) {
      var i: nat :| i <= |a| + 1 && SmallerAt([c] + a, [c] + b, i);
      assert i > 0 && SmallerAt(a, b, i - 1);
    }
    PrefixFurtherOn(c, a, b);
  }

  lemma PrefixFurtherOn(c: char, a: string, b: string)
    ensures [c] + a < [c] + b <==> a < b
  {
    if a < b {
      assert b == a + b[|a|..];
    }
    if [c] + a < [c] + b {
      assert forall k :: 0 <= k < |a| ==> a[k] == ([c] + a)[k + 1] && b[k] == ([c] + b)[k + 1];
    }
  }

  lemma {:induction false} BeforeIsLexicographic(a: string, b: string)
    ensures Before(a, b) <==> ComesFirst(a, b)
  {
    if a != "" && b != "" {
      if a[0] == b[0] {
        BeforeIsLexicographic(a[1..], b[1..]);
        OneCharacterOn(a[0], a[1..], b[1..]);
        assert a == [a[0]] + a[1..] && b == [b[0]] + b[1..];
      } else {
        FirstDiffers(a, b);
      }
    }
  }

  lemma FirstDiffers(a: string, b: string)
    requires a != "" && b != "" && a[0] != b[0]
    ensures ComesFirst(a, b) <==> a[0] < b[0]
  {
    assert a[..0] == b[..0] && (SmallerAt(a, b, 0) <==> a[0] < b[0]);
    if ComesFirst(a, b) && !(a < b) {
      var i: nat :| i <= |a| && SmallerAt(a, b, i);
      FirstOfPrefix(a, b, i);
    }
  }

  lemma FirstOfPrefix(a: string, b: string, i: nat)
    requires i < |a| && i < |b| && a[..i] == b[..i]
    ensures i > 0 ==> a[0] == b[0]
  {
    if i > 0 {
      assert a[..i][0] == a[0] && b[..i][0] == b[0];
    }
  }

  /** Hits come by falling score, and equal scores by id. */
  lemma RankedByScoreThenId(hits: seq<Hit>, i: nat, j: nat)
    requires Ranked(hits) && i < j < |hits|
    ensures hits[i].score > hits[j].score
         || (hits[i].score == hits[j].score && ComesFirst(hits[i].chunkId, hits[j].chunkId))
  {
    BeforeIsLexicographic(hits[i].chunkId, hits[j].chunkId);
  }
}
