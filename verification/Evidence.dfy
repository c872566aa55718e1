/**
 The evidence a run gathers. Every search adds to it: what the searches of a run have found is
 merged into one list, with one item a chunk at the best score any search gave it, and best
 score first. The merge of the code keeps a dictionary and sorts it.
 */
module Evidence {
  import opened Option

  datatype Item = Item(chunkId: string, score: real, text: string)

  predicate Has(items: seq<Item>, chunkId: string) {
    exists i :: 0 <= i < |items| && items[i].chunkId == chunkId
  }

  predicate Distinct(items: seq<Item>) {
    forall i, j :: 0 <= i < j < |items| ==> items[i].chunkId != items[j].chunkId
  }

  predicate BestFirst(items: seq<Item>) {
    forall i, j :: 0 <= i < j < |items| ==> items[i].score >= items[j].score
  }

  // ---------------------------------------------- a dictionary in key order

  /** `d[x.chunk_id] = x`: a key keeps the place where it was first put. */
  function Put(d: seq<Item>, x: Item): seq<Item> {
    if d == [] then [x]
    else if d[0].chunkId == x.chunkId then [x] + d[1..]
    else [d[0]] + Put(d[1..], x)
  }

  function Get(d: seq<Item>, chunkId: string): Option<Item> {
    if d == [] then None
    else if d[0].chunkId == chunkId then Some(d[0])
    else Get(d[1..], chunkId)
  }

  function PutAll(items: seq<Item>): seq<Item> {
    if items == [] then [] else Put(PutAll(items[..|items| - 1]), items[|items| - 1])
  }

  function Absorb(d: seq<Item>, x: Item): seq<Item> {
    var current := Get(d, x.chunkId);
    if current.None? || x.score > current.value.score then Put(d, x) else d
  }

  function AbsorbAll(d: seq<Item>, items: seq<Item>): seq<Item> {
    if items == [] then d else Absorb(AbsorbAll(d, items[..|items| - 1]), items[|items| - 1])
  }

  // ------------------------------------------------------------ a stable sort

  function Insert(sorted: seq<Item>, x: Item): seq<Item> {
    if sorted == [] || sorted[0].score < x.score then [x] + sorted
    else [sorted[0]] + Insert(sorted[1..], x)
  }

  function Sorted(items: seq<Item>): seq<Item> {
    if items == [] then [] else Insert(Sorted(items[..|items| - 1]), items[|items| - 1])
  }

  function Merge(existing: seq<Item>, incoming: seq<Item>): seq<Item> {
    Sorted(AbsorbAll(PutAll(existing), incoming))
  }

  method MergeEvidence(existing: seq<Item>, incoming: seq<Item>) returns (evidence: seq<Item>)
    ensures evidence == Merge(existing, incoming)
  {
    var merged: seq<Item> := [];
    for i := 0 to |existing|
      invariant merged == PutAll(existing[..i])
    {
      assert existing[..i + 1][..i] == existing[..i];
      merged := Put(merged, existing[i]);
    }
    assert existing[..|existing|] == existing;
    for i := 0 to |incoming|
      invariant merged == AbsorbAll(PutAll(existing), incoming[..i])
    {
      assert incoming[..i + 1][..i] == incoming[..i];
      var current := Get(merged, incoming[i].chunkId);
      if current.None? || incoming[i].score > current.value.score {
        merged := Put(merged, incoming[i]);
      }
    }
    assert incoming[..|incoming|] == incoming;
    evidence := Sorted(merged);
  }

  // ------------------------------------------------------------------- lemmas

  /** What `d` answers for a key after a put. */
  lemma {:induction false} PutGets(d: seq<Item>, x: Item, chunkId: string)
    ensures Get(Put(d, x), chunkId) == if chunkId == x.chunkId then Some(x) else Get(d, chunkId)
  {
    if d != [] && d[0].chunkId != x.chunkId {
      PutGets(d[1..], x, chunkId);
    }
  }

  lemma {:induction false} GetMeansHas(d: seq<Item>, chunkId: string)
    ensures Get(d, chunkId).Some? <==> Has(d, chunkId)
    ensures Get(d, chunkId).Some? ==> Get(d, chunkId).value in d && Get(d, chunkId).value.chunkId == chunkId
  {
    if d != [] {
      GetMeansHas(d[1..], chunkId);
      if Has(d, chunkId) && d[0].chunkId != chunkId {
        var i :| 0 <= i < |d| && d[i].chunkId == chunkId;
        assert d[1..][i - 1].chunkId == chunkId;
      }
      if Has(d[1..], chunkId) {
        var i :| 0 <= i < |d[1..]| && d[1..][i].chunkId == chunkId;
        assert d[i + 1].chunkId == chunkId;
      }
    }
  }

  lemma {:induction false} PutKeepsDistinct(d: seq<Item>, x: Item)
    requires Distinct(d)
    ensures Distinct(Put(d, x))
    ensures forall i :: 0 <= i < |Put(d, x)| ==> Put(d, x)[i].chunkId == x.chunkId || Put(d, x)[i] in d
  {
    if d != [] && d[0].chunkId != x.chunkId {
      PutKeepsDistinct(d[1..], x);
      var tail := Put(d[1..], x);
      forall i | 0 <= i < |tail|
        ensures tail[i].chunkId != d[0].chunkId
      {
        if tail[i] in d[1..] {
          var k :| 0 <= k < |d[1..]| && d[1..][k] == tail[i];
          assert d[k + 1] == tail[i];
        }
      }
    }
  }

  lemma {:induction false} GetByIndex(d: seq<Item>, i: nat)
    requires Distinct(d) && i < |d|
    ensures Get(d, d[i].chunkId) == Some(d[i])
  {
    if i > 0 {
      assert d[0].chunkId != d[i].chunkId;
      GetByIndex(d[1..], i - 1);
    }
  }

  lemma {:induction false} PutNewAppends(d: seq<Item>, x: Item)
    requires !Has(d, x.chunkId)
    ensures Put(d, x) == d + [x]
  {
    if d != [] {
      assert d[0].chunkId != x.chunkId;
      assert forall i :: 0 <= i < |d[1..]| ==> d[1..][i] == d[i + 1];
      PutNewAppends(d[1..], x);
    }
  }

  /** Evidence that has one item a chunk goes through the dictionary unchanged. */
  lemma {:induction false} PutAllDistinct(items: seq<Item>)
    requires Distinct(items)
    ensures PutAll(items) == items
  {
    if items != [] {
      var init, last := items[..|items| - 1], items[|items| - 1];
      PutAllDistinct(init);
      assert !Has(init, last.chunkId);
      PutNewAppends(init, last);
    }
  }

  /** One item a chunk, each one that was seen, none beaten by another that was seen. */
  ghost predicate BestOf(d: seq<Item>, seen: seq<Item>) {
    && Distinct(d)
    && (forall i :: 0 <= i < |d| ==> d[i] in seen)
    && (forall x <- seen :: Beaten(d, x))
  }

  predicate Beaten(d: seq<Item>, x: Item) {
    Get(d, x.chunkId).Some? && Get(d, x.chunkId).value.score >= x.score
  }

  lemma AbsorbKeepsBest(d: seq<Item>, seen: seq<Item>, x: Item)
    requires BestOf(d, seen)
    ensures BestOf(Absorb(d, x), seen + [x])
  {
    var r := Absorb(d, x);
    PutKeepsDistinct(d, x);
    forall y | y in seen + [x]
      ensures Beaten(r, y)
    {
      PutGets(d, x, y.chunkId);
      if y in seen {
        assert Beaten(d, y);
      }
    }
    forall i | 0 <= i < |r|
      ensures r[i] in seen + [x]
    {
      if r != d {
        GetByIndex(r, i);
        PutGets(d, x, r[i].chunkId);
        if r[i] in d {
          var k :| 0 <= k < |d| && d[k] == r[i];
        }
      }
    }
  }

  lemma {:induction false} AbsorbAllKeepsBest(d: seq<Item>, seen: seq<Item>, items: seq<Item>)
    requires BestOf(d, seen)
    ensures BestOf(AbsorbAll(d, items), seen + items)
  {
    if items == [] {
      assert seen + items == seen;
    } else {
      var init, last := items[..|items| - 1], items[|items| - 1];
      AbsorbAllKeepsBest(d, seen, init);
      AbsorbKeepsBest(AbsorbAll(d, init), seen + init, last);
      assert (seen + init) + [last] == seen + items;
    }
  }

  // ---------------------------------------------------------------- sorting

  lemma {:induction false} InsertGets(sorted: seq<Item>, x: Item, chunkId: string)
    requires !Has(sorted, x.chunkId)
    ensures Get(Insert(sorted, x), chunkId) == if chunkId == x.chunkId then Some(x) else Get(sorted, chunkId)
  {
    if sorted == [] || sorted[0].score < x.score {
      assert ([x] + sorted)[1..] == sorted;
      GetMeansHas(sorted, x.chunkId);
    } else {
      assert sorted[0].chunkId != x.chunkId;
      assert forall i :: 0 <= i < |sorted[1..]| ==> sorted[1..][i] == sorted[i + 1];
      InsertGets(sorted[1..], x, chunkId);
    }
  }

  /** Where the items of a sorted list with one more item come from. */
  lemma {:induction false} InsertItems(sorted: seq<Item>, x: Item)
    ensures |Insert(sorted, x)| == |sorted| + 1
    ensures forall i :: 0 <= i < |Insert(sorted, x)| ==> Insert(sorted, x)[i] == x || Insert(sorted, x)[i] in sorted
  {
    if sorted != [] && sorted[0].score >= x.score {
      InsertItems(sorted[1..], x);
    }
  }

  lemma {:induction false} InsertKeepsOrder(sorted: seq<Item>, x: Item)
    requires BestFirst(sorted)
    ensures BestFirst(Insert(sorted, x))
  {
    if sorted != [] && sorted[0].score >= x.score {
      var tail := sorted[1..];
      InsertKeepsOrder(tail, x);
      InsertItems(tail, x);
      BestFirstCons(sorted[0], Insert(tail, x), sorted, x);
    }
  }

  lemma BestFirstCons(head: Item, tail: seq<Item>, sorted: seq<Item>, x: Item)
    requires BestFirst(tail) && BestFirst(sorted) && sorted != [] && head == sorted[0] && head.score >= x.score
    requires forall i :: 0 <= i < |tail| ==> tail[i] == x || tail[i] in sorted[1..]
    ensures BestFirst([head] + tail)
  {
    forall i | 0 <= i < |tail|
      ensures head.score >= tail[i].score
    {
      if tail[i] != x {
        var k :| 0 <= k < |sorted[1..]| && sorted[1..][k] == tail[i];
        assert sorted[k + 1] == tail[i];
      }
    }
  }

  lemma {:induction false} InsertKeepsDistinct(sorted: seq<Item>, x: Item)
    requires Distinct(sorted) && !Has(sorted, x.chunkId)
    ensures Distinct(Insert(sorted, x))
  {
    if sorted != [] && sorted[0].score >= x.score {
      var tail := sorted[1..];
      assert forall i :: 0 <= i < |tail| ==> tail[i] == sorted[i + 1];
      InsertKeepsDistinct(tail, x);
      InsertItems(tail, x);
      DistinctCons(sorted, Insert(tail, x), x);
    }
  }

  lemma DistinctCons(sorted: seq<Item>, tail: seq<Item>, x: Item)
    requires Distinct(tail) && Distinct(sorted) && sorted != [] && sorted[0].chunkId != x.chunkId
    requires forall i :: 0 <= i < |tail| ==> tail[i] == x || tail[i] in sorted[1..]
    ensures Distinct([sorted[0]] + tail)
  {
    forall i | 0 <= i < |tail|
      ensures sorted[0].chunkId != tail[i].chunkId
    {
      if tail[i] != x {
        var k :| 0 <= k < |sorted[1..]| && sorted[1..][k] == tail[i];
        assert sorted[k + 1] == tail[i];
      }
    }
  }

  lemma {:induction false} GetSnoc(d: seq<Item>, x: Item, chunkId: string)
    requires !Has(d, x.chunkId)
    ensures Get(d + [x], chunkId) == if chunkId == x.chunkId then Some(x) else Get(d, chunkId)
  {
    PutNewAppends(d, x);
    PutGets(d, x, chunkId);
  }

  /** Sorting changes the order and nothing else. */
  lemma {:induction false} SortedKeeps(items: seq<Item>, chunkId: string)
    requires Distinct(items)
    ensures Distinct(Sorted(items)) && BestFirst(Sorted(items)) && Get(Sorted(items), chunkId) == Get(items, chunkId)
  {
    if items != [] {
      var init, last := items[..|items| - 1], items[|items| - 1];
      assert !Has(init, last.chunkId) && items == init + [last];
      SortedKeeps(init, chunkId);
      SortedKeeps(init, last.chunkId);
      GetMeansHas(init, last.chunkId);
      GetMeansHas(Sorted(init), last.chunkId);
      InsertGets(Sorted(init), last, chunkId);
      InsertKeepsDistinct(Sorted(init), last);
      InsertKeepsOrder(Sorted(init), last);
      GetSnoc(init, last, chunkId);
    }
  }

  /**
   Merging what a search found into the best of what was seen gives the best of both, best
   score first.
   */
  lemma MergeKeepsBest(evidence: seq<Item>, seen: seq<Item>, found: seq<Item>)
    requires BestOf(evidence, seen)
    ensures BestOf(Merge(evidence, found), seen + found) && BestFirst(Merge(evidence, found))
  {
    PutAllDistinct(evidence);
    AbsorbAllKeepsBest(evidence, seen, found);
    SortedIsBest(AbsorbAll(evidence, found), seen + found);
  }

  lemma SortedIsBest(d: seq<Item>, seen: seq<Item>)
    requires BestOf(d, seen)
    ensures BestOf(Sorted(d), seen) && BestFirst(Sorted(d))
  {
    var r := Sorted(d);
    SortedKeeps(d, "");
    forall x | x in seen
      ensures Beaten(r, x)
    {
      assert Beaten(d, x);
      SortedKeeps(d, x.chunkId);
    }
    forall i | 0 <= i < |r|
      ensures r[i] in seen
    {
      SortedKeeps(d, r[i].chunkId);
      GetByIndex(r, i);
      GetMeansHas(d, r[i].chunkId);
    }
  }

  // ---------------------------------------------------------------- equal scores

  /** The items with one score, as they stand. */
  function Scoring(items: seq<Item>, score: real): seq<Item> {
    if items == [] then [] else IfScores(items[0], score) + Scoring(items[1..], score)
  }

  function IfScores(x: Item, score: real): seq<Item> {
    if x.score == score then [x] else []
  }

  lemma {:induction false} ScoringSnoc(items: seq<Item>, last: Item, score: real)
    ensures Scoring(items + [last], score) == Scoring(items, score) + IfScores(last, score)
  {
    if items == [] {
      assert items + [last] == [last] && [last][1..] == [];
    } else {
      assert (items + [last])[1..] == items[1..] + [last];
      ScoringSnoc(items[1..], last, score);
      assert IfScores(items[0], score) + (Scoring(items[1..], score) + IfScores(last, score))
          == (IfScores(items[0], score) + Scoring(items[1..], score)) + IfScores(last, score);
    }
  }

  lemma {:induction false} NoneScores(sorted: seq<Item>, x: Item)
    requires BestFirst(sorted) && (sorted != [] ==> sorted[0].score < x.score)
    ensures Scoring(sorted, x.score) == []
  {
    if sorted != [] {
      NoneScores(sorted[1..], x);
    }
  }

  lemma {:induction false} InsertIsStable(sorted: seq<Item>, x: Item, score: real)
    requires BestFirst(sorted)
    ensures Scoring(Insert(sorted, x), score) == Scoring(sorted, score) + IfScores(x, score)
  {
    if sorted == [] || sorted[0].score < x.score {
      assert ([x] + sorted)[1..] == sorted;
      if x.score == score {
        NoneScores(sorted, x);
      }
    } else {
      InsertIsStable(sorted[1..], x, score);
      assert IfScores(sorted[0], score) + (Scoring(sorted[1..], score) + IfScores(x, score))
          == (IfScores(sorted[0], score) + Scoring(sorted[1..], score)) + IfScores(x, score);
      assert ([sorted[0]] + Insert(sorted[1..], x))[1..] == Insert(sorted[1..], x);
    }
  }

  /** Sorting puts the best first, and leaves items of one score in their order. */
  lemma {:induction false} SortIsStable(items: seq<Item>, score: real)
    ensures BestFirst(Sorted(items)) && Scoring(Sorted(items), score) == Scoring(items, score)
  {
    if items != [] {
      var init, last := items[..|items| - 1], items[|items| - 1];
      assert items == init + [last];
      SortIsStable(init, score);
      InsertKeepsOrder(Sorted(init), last);
      InsertIsStable(Sorted(init), last, score);
      ScoringSnoc(init, last, score);
    }
  }

  /** `e` is what a dictionary holds for its chunk, and nothing in `found` scores above it. */
  predicate Unbeaten(d: seq<Item>, e: Item, found: seq<Item>) {
    Get(d, e.chunkId) == Some(e) && forall x <- found :: x.chunkId == e.chunkId ==> x.score <= e.score
  }

  lemma {:induction false} UnbeatenStays(d: seq<Item>, e: Item, found: seq<Item>)
    requires Unbeaten(d, e, found)
    ensures Get(AbsorbAll(d, found), e.chunkId) == Some(e)
  {
    if found != [] {
      var init, last := found[..|found| - 1], found[|found| - 1];
      assert found == init + [last];
      UnbeatenStays(d, e, init);
      PutGets(AbsorbAll(d, init), last, e.chunkId);
    }
  }

  /** A search that finds a chunk again replaces what was known of it only by a better score. */
  lemma TiesKeepTheEarlier(evidence: seq<Item>, found: seq<Item>, i: nat)
    requires Distinct(evidence) && i < |evidence|
    requires forall x <- found :: x.chunkId == evidence[i].chunkId ==> x.score <= evidence[i].score
    ensures evidence[i] in Merge(evidence, found)
  {
    var e := evidence[i];
    GetByIndex(evidence, i);
    PutAllDistinct(evidence);
    UnbeatenStays(evidence, e, found);
    DistinctBest(evidence, found);
    SortedKeeps(AbsorbAll(evidence, found), e.chunkId);
    GetMeansHas(Merge(evidence, found), e.chunkId);
  }

  lemma DistinctBest(evidence: seq<Item>, found: seq<Item>)
    requires Distinct(evidence)
    ensures Distinct(AbsorbAll(evidence, found))
  {
    forall x | x in evidence
      ensures Beaten(evidence, x)
    {
      var i :| 0 <= i < |evidence| && evidence[i] == x;
      GetByIndex(evidence, i);
    }
    AbsorbAllKeepsBest(evidence, evidence, found);
  }
}
