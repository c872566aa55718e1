/**
 Citation markers turned into numbers. An answer is a sequence of prose and markers: a
 marker names sources either by the number each was shown with, or by chunk id. Ids are
 compared case-folded; the folding is a parameter.
 */
module Citations {
  import opened Option

  datatype Token = Prose(text: string) | Ordinal(position: nat, raw: string) | Ids(ids: seq<string>)

  datatype Piece = Words(text: string) | Number(n: nat)

  datatype Ref = Found(chunkId: string) | Missing(text: string)

  type Fold = string -> string

  // ------------------------------------------------------- what markers name

  /** The last piece of evidence whose folded id is the key, as building a dictionary leaves it. */
  function Lookup(evidence: seq<string>, fold: Fold, key: string): Option<string> {
    if evidence == [] then None
    else if fold(evidence[|evidence| - 1]) == key then Some(evidence[|evidence| - 1])
    else Lookup(evidence[..|evidence| - 1], fold, key)
  }

  function RefOf(id: string, evidence: seq<string>, fold: Fold): Ref {
    match Lookup(evidence, fold, fold(id)) case None => Missing(id) case Some(chunkId) => Found(chunkId)
  }

  function RefsOfIds(ids: seq<string>, evidence: seq<string>, fold: Fold): seq<Ref> {
    if ids == [] then [] else RefsOfIds(ids[..|ids| - 1], evidence, fold) + [RefOf(ids[|ids| - 1], evidence, fold)]
  }

  function Refs(token: Token, evidence: seq<string>, fold: Fold): seq<Ref> {
    match token
    case Prose(_) => []
    case Ordinal(position, raw) =>
      if 1 <= position <= |evidence| then [Found(evidence[position - 1])] else [Missing(raw)]
    case Ids(ids) => RefsOfIds(ids, evidence, fold)
  }

  function AllRefs(tokens: seq<Token>, evidence: seq<string>, fold: Fold): seq<Ref> {
    if tokens == [] then []
    else AllRefs(tokens[..|tokens| - 1], evidence, fold) + Refs(tokens[|tokens| - 1], evidence, fold)
  }

  /** The chunks named, in order. */
  function Named(refs: seq<Ref>): seq<string> {
    if refs == [] then []
    else if refs[|refs| - 1].Found? then Named(refs[..|refs| - 1]) + [refs[|refs| - 1].chunkId]
    else Named(refs[..|refs| - 1])
  }

  /** The references to nothing, in order. */
  function Unresolved(refs: seq<Ref>): seq<string> {
    if refs == [] then []
    else if refs[|refs| - 1].Missing? then Unresolved(refs[..|refs| - 1]) + [refs[|refs| - 1].text]
    else Unresolved(refs[..|refs| - 1])
  }

  // ------------------------------------------------------------- numbering

  function Cite(cited: seq<string>, ref: Ref): seq<string> {
    if ref.Missing? || ref.chunkId in cited then cited else cited + [ref.chunkId]
  }

  /** The reference list after some references: each chunk once, where it is first named. */
  function CiteAll(cited: seq<string>, refs: seq<Ref>): seq<string> {
    if refs == [] then cited else Cite(CiteAll(cited, refs[..|refs| - 1]), refs[|refs| - 1])
  }

  /** Where `id` stands in the reference list, from 1; 0 if it is not there. */
  function NumberIn(cited: seq<string>, id: string): nat {
    if cited == [] then 0
    else if id in cited[..|cited| - 1] then NumberIn(cited[..|cited| - 1], id)
    else if cited[|cited| - 1] == id then |cited|
    else 0
  }

  function RenderRef(ref: Ref, cited: seq<string>): seq<Piece> {
    match ref case Missing(_) => [] case Found(chunkId) => [Number(NumberIn(cited, chunkId))]
  }

  function RenderRefs(refs: seq<Ref>, cited: seq<string>): seq<Piece> {
    if refs == [] then [] else RenderRefs(refs[..|refs| - 1], cited) + RenderRef(refs[|refs| - 1], cited)
  }

  function RenderToken(token: Token, evidence: seq<string>, fold: Fold, cited: seq<string>): seq<Piece> {
    match token case Prose(text) => [Words(text)] case _ => RenderRefs(Refs(token, evidence, fold), cited)
  }

  /** The answer, given the whole reference list. */
  function Render(tokens: seq<Token>, evidence: seq<string>, fold: Fold, cited: seq<string>): seq<Piece> {
    if tokens == [] then []
    else
      Render(tokens[..|tokens| - 1], evidence, fold, cited)
      + RenderToken(tokens[|tokens| - 1], evidence, fold, cited)
  }

  predicate Distinct(cited: seq<string>) {
    forall i, j :: 0 <= i < j < |cited| ==> cited[i] != cited[j]
  }

  lemma {:induction false} NumberIsPosition(cited: seq<string>, id: string)
    ensures NumberIn(cited, id) <= |cited|
    ensures NumberIn(cited, id) > 0 <==> id in cited
    ensures id in cited ==> cited[NumberIn(cited, id) - 1] == id
  {
    if cited != [] {
      NumberIsPosition(cited[..|cited| - 1], id);
    }
  }

  /** A number, once given, does not change. */
  lemma {:induction false} NumbersStay(cited: seq<string>, more: seq<string>, id: string)
    requires id in cited
    ensures NumberIn(cited + more, id) == NumberIn(cited, id)
  {
    if more == [] {
      assert cited + more == cited;
    } else {
      var init := more[..|more| - 1];
      NumbersStay(cited, init, id);
      assert (cited + more)[..|cited + more| - 1] == cited + init;
      assert id in cited + init;
    }
  }

  lemma NumberOfNew(cited: seq<string>, id: string)
    requires id !in cited
    ensures NumberIn(cited + [id], id) == |cited| + 1
  {
    assert (cited + [id])[..|cited|] == cited;
  }

  // ------------------------------------------------------------ the closures

  class Resolver {
    var numbers: map<string, nat>
    var citations: seq<string>
    var unresolved: seq<string>

    /** `numbers` is the reference list, read by chunk. */
    ghost predicate Valid()
      reads this
    {
      && |numbers| == |citations|
      && numbers.Keys == set id | id in citations
      && forall id <- numbers :: numbers[id] == NumberIn(citations, id)
    }

    constructor ()
      ensures Valid() && citations == [] && unresolved == []
    {
      numbers, citations, unresolved := map[], [], [];
    }

    /** The number this source carries in the finished answer. */
    method NumberFor(id: string) returns (n: nat)
      requires Valid()
      modifies this`numbers, this`citations
      ensures Valid() && citations == Cite(old(citations), Found(id)) && n == NumberIn(citations, id)
    {
      if id !in numbers {
        NumberOfNew(citations, id);
        forall other | other in numbers
          ensures NumberIn(citations + [id], other) == NumberIn(citations, other)
        {
          NumbersStay(citations, [id], other);
        }
        numbers := numbers[id := |numbers| + 1];
        citations := citations + [id];
      }
      n := numbers[id];
    }

    method Refer(ref: Ref) returns (pieces: seq<Piece>)
      requires Valid()
      modifies this
      ensures Valid() && citations == Cite(old(citations), ref) && pieces == RenderRef(ref, citations)
      ensures unresolved == old(unresolved) + (match ref case Missing(text) => [text] case _ => [])
    {
      match ref
      case Missing(text) =>
        unresolved := unresolved + [text];
        pieces := [];
      case Found(id) =>
        var n := NumberFor(id);
        pieces := [Number(n)];
    }

    /** What one marker becomes. */
    method Replace(token: Token, evidence: seq<string>, fold: Fold) returns (pieces: seq<Piece>)
      requires Valid() && !token.Prose?
      modifies this
      ensures Valid()
      ensures Replaced(Refs(token, evidence, fold), old(citations), old(unresolved), citations, unresolved, pieces)
      ensures token.Ordinal? && 1 <= token.position <= |evidence| ==>
                unresolved == old(unresolved) &&
                exists n: nat :: pieces == [Number(n)] && 1 <= n <= |citations| &&
                            citations[n - 1] == evidence[token.position - 1]
      ensures token.Ordinal? && !(1 <= token.position <= |evidence|) ==>
                pieces == [] && citations == old(citations) && unresolved == old(unresolved) + [token.raw]
    {
      if token.Ordinal? {
        var known := 1 <= token.position <= |evidence|;
        var ref := if known then Found(evidence[token.position - 1]) else Missing(token.raw);
        ReplacedOne(ref, citations, unresolved);
        pieces := Refer(ref);
        if known {
          NumberIsPosition(citations, ref.chunkId);
          assert pieces == [Number(NumberIn(citations, ref.chunkId))];
        }
      } else {
        pieces := ReplaceIds(token.ids, evidence, fold);
      }
    }

    method ReplaceIds(ids: seq<string>, evidence: seq<string>, fold: Fold) returns (pieces: seq<Piece>)
      requires Valid()
      modifies this
      ensures Valid()
      ensures Replaced(RefsOfIds(ids, evidence, fold), old(citations), old(unresolved), citations, unresolved, pieces)
    {
      pieces := [];
      ghost var before, reported := citations, unresolved;
      ReplacedNone(before, reported);
      for i := 0 to |ids|
        invariant Valid()
        invariant Replaced(RefsOfIds(ids[..i], evidence, fold), before, reported, citations, unresolved, pieces)
      {
        RefsOfIdsNext(ids, i, evidence, fold);
        var item := Lookup(evidence, fold, fold(ids[i]));
        var ref := if item.None? then Missing(ids[i]) else Found(item.value);
        ReplacedNext(RefsOfIds(ids[..i], evidence, fold), ref, before, reported, citations, unresolved, pieces);
        var more := Refer(ref);
        pieces := pieces + more;
      }
      assert ids[..|ids|] == ids;
    }

    /** The whole answer, in one pass: what rendering it with the finished reference list would give. */
    method Resolve(tokens: seq<Token>, evidence: seq<string>, fold: Fold) returns (answer: seq<Piece>)
      requires Valid() && citations == [] && unresolved == []
      modifies this
      ensures Valid()
      ensures citations == CiteAll([], AllRefs(tokens, evidence, fold))
      ensures unresolved == Unresolved(AllRefs(tokens, evidence, fold))
      ensures answer == Render(tokens, evidence, fold, citations)
    {
      answer := [];
      for i := 0 to |tokens|
        invariant Valid() && Resolved(tokens[..i], evidence, fold, citations, unresolved, answer)
      {
        assert tokens[..i + 1][..i] == tokens[..i];
        ghost var before, reported := citations, unresolved;
        var more: seq<Piece>;
        if tokens[i].Prose? {
          more := [Words(tokens[i].text)];
          ReplacedNone(before, reported);
        } else {
          more := Replace(tokens[i], evidence, fold);
        }
        ResolvedNext(tokens[..i], tokens[i], evidence, fold, before, reported, answer, citations, unresolved, more);
        assert tokens[..i] + [tokens[i]] == tokens[..i + 1];
        answer := answer + more;
      }
      assert tokens[..|tokens|] == tokens;
    }
  }

  // ------------------------------------------------------- one pass suffices

  lemma RefsOfIdsNext(ids: seq<string>, i: nat, evidence: seq<string>, fold: Fold)
    requires i < |ids|
    ensures RefsOfIds(ids[..i + 1], evidence, fold)
            == RefsOfIds(ids[..i], evidence, fold) + [RefOf(ids[i], evidence, fold)]
  {
    assert ids[..i + 1][..i] == ids[..i];
  }

  lemma ReplacedOne(ref: Ref, citations: seq<string>, unresolved: seq<string>)
    ensures var now := Cite(citations, ref);
            Replaced([ref], citations, unresolved, now,
                     unresolved + (match ref case Missing(text) => [text] case _ => []), RenderRef(ref, now))
  {
    ReplacedNone(citations, unresolved);
    ReplacedNext([], ref, citations, unresolved, citations, unresolved, []);
    assert [] + [ref] == [ref];
    assert [] + RenderRef(ref, Cite(citations, ref)) == RenderRef(ref, Cite(citations, ref));
  }

  /** Some references have been dealt with, from one state to another. */
  predicate Replaced(
    refs: seq<Ref>, before: seq<string>, reported: seq<string>, citations: seq<string>, unresolved: seq<string>,
    pieces: seq<Piece>)
  {
    && citations == CiteAll(before, refs)
    && unresolved == reported + Unresolved(refs)
    && pieces == RenderRefs(refs, citations)
  }

  predicate Resolved(
    tokens: seq<Token>, evidence: seq<string>, fold: Fold, citations: seq<string>, unresolved: seq<string>,
    answer: seq<Piece>)
  {
    && citations == CiteAll([], AllRefs(tokens, evidence, fold))
    && unresolved == Unresolved(AllRefs(tokens, evidence, fold))
    && answer == Render(tokens, evidence, fold, citations)
  }

  lemma ReplacedNone(citations: seq<string>, unresolved: seq<string>)
    ensures Replaced([], citations, unresolved, citations, unresolved, [])
  {
    assert unresolved + [] == unresolved;
  }

  predicate AllCited(refs: seq<Ref>, cited: seq<string>) {
    forall i :: 0 <= i < |refs| && refs[i].Found? ==> refs[i].chunkId in cited
  }

  lemma {:induction false} CiteAllGrows(cited: seq<string>, refs: seq<Ref>)
    ensures cited <= CiteAll(cited, refs) && AllCited(refs, CiteAll(cited, refs))
    ensures Distinct(cited) ==> Distinct(CiteAll(cited, refs))
  {
    if refs != [] {
      CiteAllGrows(cited, refs[..|refs| - 1]);
      assert forall i :: 0 <= i < |refs| - 1 ==> refs[i] == refs[..|refs| - 1][i];
    }
  }

  lemma {:induction false} RenderingStays(refs: seq<Ref>, cited: seq<string>, later: seq<string>)
    requires AllCited(refs, cited) && cited <= later
    ensures RenderRefs(refs, later) == RenderRefs(refs, cited)
  {
    if refs != [] {
      var init, last := refs[..|refs| - 1], refs[|refs| - 1];
      assert AllCited(init, cited);
      RenderingStays(init, cited, later);
      if last.Found? {
        assert later == cited + later[|cited|..];
        NumbersStay(cited, later[|cited|..], last.chunkId);
      }
    }
  }

  lemma ReplacedNext(
    refs: seq<Ref>, ref: Ref, before: seq<string>, reported: seq<string>, citations: seq<string>,
    unresolved: seq<string>, pieces: seq<Piece>)
    requires Replaced(refs, before, reported, citations, unresolved, pieces)
    ensures var now := Cite(citations, ref);
            Replaced(refs + [ref], before, reported, now,
                     unresolved + (match ref case Missing(text) => [text] case _ => []), pieces + RenderRef(ref, now))
  {
    assert (refs + [ref])[..|refs|] == refs;
    CiteAllGrows(before, refs);
    RenderingStays(refs, citations, Cite(citations, ref));
    assert unresolved + [] == unresolved;
    assert forall text: string :: reported + Unresolved(refs) + [text] == reported + (Unresolved(refs) + [text]);
  }

  lemma {:induction false} CiteAllConcat(cited: seq<string>, a: seq<Ref>, b: seq<Ref>)
    ensures CiteAll(cited, a + b) == CiteAll(CiteAll(cited, a), b)
    ensures Unresolved(a + b) == Unresolved(a) + Unresolved(b)
    ensures Named(a + b) == Named(a) + Named(b)
  {
    if b == [] {
      assert a + b == a;
    } else {
      var init, last := b[..|b| - 1], b[|b| - 1];
      assert a + b == (a + init) + [last];
      assert (a + b)[..|a + b| - 1] == a + init;
      CiteAllConcat(cited, a, init);
    }
  }

  lemma AllRefsSnoc(tokens: seq<Token>, token: Token, evidence: seq<string>, fold: Fold, cited: seq<string>)
    ensures AllRefs(tokens + [token], evidence, fold) == AllRefs(tokens, evidence, fold) + Refs(token, evidence, fold)
    ensures Render(tokens + [token], evidence, fold, cited)
            == Render(tokens, evidence, fold, cited) + RenderToken(token, evidence, fold, cited)
  {
    assert (tokens + [token])[..|tokens|] == tokens;
  }

  lemma AllCitedParts(a: seq<Ref>, b: seq<Ref>, cited: seq<string>)
    requires AllCited(a + b, cited)
    ensures AllCited(a, cited) && AllCited(b, cited)
  {
    assert forall i :: 0 <= i < |a| ==> (a + b)[i] == a[i];
    assert forall i :: 0 <= i < |b| ==> (a + b)[|a| + i] == b[i];
  }

  lemma {:induction false} AnswerStays(
    tokens: seq<Token>, evidence: seq<string>, fold: Fold, cited: seq<string>, later: seq<string>)
    requires AllCited(AllRefs(tokens, evidence, fold), cited) && cited <= later
    ensures Render(tokens, evidence, fold, later) == Render(tokens, evidence, fold, cited)
  {
    if tokens != [] {
      var init, last := tokens[..|tokens| - 1], tokens[|tokens| - 1];
      AllCitedParts(AllRefs(init, evidence, fold), Refs(last, evidence, fold), cited);
      AnswerStays(init, evidence, fold, cited, later);
      RenderingStays(Refs(last, evidence, fold), cited, later);
    }
  }

  lemma ResolvedNext(
    tokens: seq<Token>, token: Token, evidence: seq<string>, fold: Fold, before: seq<string>, reported: seq<string>,
    answer: seq<Piece>, citations: seq<string>, unresolved: seq<string>, more: seq<Piece>)
    requires Resolved(tokens, evidence, fold, before, reported, answer)
    requires citations == CiteAll(before, Refs(token, evidence, fold))
    requires unresolved == reported + Unresolved(Refs(token, evidence, fold))
    requires more == RenderToken(token, evidence, fold, citations)
    ensures Resolved(tokens + [token], evidence, fold, citations, unresolved, answer + more)
  {
    var refs := AllRefs(tokens, evidence, fold);
    AllRefsSnoc(tokens, token, evidence, fold, citations);
    CiteAllConcat([], refs, Refs(token, evidence, fold));
    CiteAllGrows([], refs);
    CiteAllGrows(before, Refs(token, evidence, fold));
    AnswerStays(tokens, evidence, fold, before, citations);
  }

  // ------------------------------------------------------------ main results

  function NumbersIn(pieces: seq<Piece>): seq<nat> {
    if pieces == [] then []
    else if pieces[|pieces| - 1].Number? then NumbersIn(pieces[..|pieces| - 1]) + [pieces[|pieces| - 1].n]
    else NumbersIn(pieces[..|pieces| - 1])
  }

  function WordsIn(pieces: seq<Piece>): seq<string> {
    if pieces == [] then []
    else if pieces[|pieces| - 1].Words? then WordsIn(pieces[..|pieces| - 1]) + [pieces[|pieces| - 1].text]
    else WordsIn(pieces[..|pieces| - 1])
  }

  function ProseIn(tokens: seq<Token>): seq<string> {
    if tokens == [] then []
    else if tokens[|tokens| - 1].Prose? then ProseIn(tokens[..|tokens| - 1]) + [tokens[|tokens| - 1].text]
    else ProseIn(tokens[..|tokens| - 1])
  }

  lemma {:induction false} PiecesConcat(a: seq<Piece>, b: seq<Piece>)
    ensures NumbersIn(a + b) == NumbersIn(a) + NumbersIn(b)
    ensures WordsIn(a + b) == WordsIn(a) + WordsIn(b)
  {
    if b == [] {
      assert a + b == a;
    } else {
      var init, last := b[..|b| - 1], b[|b| - 1];
      assert a + b == (a + init) + [last];
      assert (a + b)[..|a + b| - 1] == a + init;
      PiecesConcat(a, init);
    }
  }

  /** Each number is the place in the reference list of the chunk it stands for. */
  predicate NumbersFor(numbers: seq<nat>, named: seq<string>, cited: seq<string>) {
    |numbers| == |named| &&
    forall i :: 0 <= i < |numbers| ==> 1 <= numbers[i] <= |cited| && cited[numbers[i] - 1] == named[i]
  }

  lemma RenderedRefs(refs: seq<Ref>, cited: seq<string>)
    requires AllCited(refs, cited)
    ensures WordsIn(RenderRefs(refs, cited)) == []
    ensures NumbersFor(NumbersIn(RenderRefs(refs, cited)), Named(refs), cited)
  {
    RefsHaveNoWords(refs, cited);
    RefsHaveNumbers(refs, cited);
  }

  lemma {:induction false} RefsHaveNoWords(refs: seq<Ref>, cited: seq<string>)
    ensures WordsIn(RenderRefs(refs, cited)) == []
  {
    if refs != [] {
      var init, last := refs[..|refs| - 1], refs[|refs| - 1];
      RefsHaveNoWords(init, cited);
      PiecesConcat(RenderRefs(init, cited), RenderRef(last, cited));
      if last.Found? {
        OneNumber(NumberIn(cited, last.chunkId));
      }
    }
  }

  lemma {:induction false} RefsHaveNumbers(refs: seq<Ref>, cited: seq<string>)
    requires AllCited(refs, cited)
    ensures NumbersFor(NumbersOf(refs, cited), Named(refs), cited)
  {
    if refs != [] {
      var init, last := refs[..|refs| - 1], refs[|refs| - 1];
      assert AllCited(init, cited);
      RefsHaveNumbers(init, cited);
      NumbersOfNext(refs, cited);
      if last.Found? {
        NumbersForNext(NumbersOf(init, cited), Named(init), cited, last.chunkId);
      }
    }
  }

  lemma NumbersForNext(numbers: seq<nat>, named: seq<string>, cited: seq<string>, id: string)
    requires NumbersFor(numbers, named, cited) && id in cited
    ensures NumbersFor(numbers + [NumberIn(cited, id)], named + [id], cited)
  {
    NumberIsPosition(cited, id);
  }

  lemma OneNumber(n: nat)
    ensures NumbersIn([Number(n)]) == [n] && WordsIn([Number(n)]) == []
  {
    assert [Number(n)][..0] == [] && NumbersIn([]) == [] && WordsIn([]) == [];
  }

  lemma OneWord(text: string)
    ensures NumbersIn([Words(text)]) == [] && WordsIn([Words(text)]) == [text]
  {
    assert [Words(text)][..0] == [] && NumbersIn([]) == [] && WordsIn([]) == [];
  }

  lemma NumbersForConcat(a: seq<nat>, an: seq<string>, b: seq<nat>, bn: seq<string>, cited: seq<string>)
    requires NumbersFor(a, an, cited) && NumbersFor(b, bn, cited)
    ensures NumbersFor(a + b, an + bn, cited)
  {
  }

  lemma {:induction false} Rendered(tokens: seq<Token>, evidence: seq<string>, fold: Fold, cited: seq<string>)
    requires AllCited(AllRefs(tokens, evidence, fold), cited)
    ensures WordsIn(Render(tokens, evidence, fold, cited)) == ProseIn(tokens)
    ensures NumbersFor(NumbersIn(Render(tokens, evidence, fold, cited)), Named(AllRefs(tokens, evidence, fold)), cited)
  {
    if tokens != [] {
      var init, last := tokens[..|tokens| - 1], tokens[|tokens| - 1];
      var refs := Refs(last, evidence, fold);
      AllCitedParts(AllRefs(init, evidence, fold), refs, cited);
      Rendered(init, evidence, fold, cited);
      PiecesConcat(Render(init, evidence, fold, cited), RenderToken(last, evidence, fold, cited));
      CiteAllConcat([], AllRefs(init, evidence, fold), refs);
      RenderedToken(last, evidence, fold, cited);
      NumbersForConcat(NumbersIn(Render(init, evidence, fold, cited)), Named(AllRefs(init, evidence, fold)),
                       NumbersIn(RenderToken(last, evidence, fold, cited)), Named(refs), cited);
    }
  }

  lemma RenderedToken(token: Token, evidence: seq<string>, fold: Fold, cited: seq<string>)
    requires AllCited(Refs(token, evidence, fold), cited)
    ensures var pieces := RenderToken(token, evidence, fold, cited);
            && WordsIn(pieces) == (match token case Prose(text) => [text] case _ => [])
            && NumbersFor(NumbersIn(pieces), Named(Refs(token, evidence, fold)), cited)
  {
    match token
    case Prose(text) => OneWord(text);
    case _ => RenderedRefs(Refs(token, evidence, fold), cited);
  }

  function HighWater(numbers: seq<nat>): nat {
    if numbers == [] then 0
    else
      var before := HighWater(numbers[..|numbers| - 1]);
      if numbers[|numbers| - 1] > before then numbers[|numbers| - 1] else before
  }

  /** New numbers appear as 1, 2, 3, and so on. */
  predicate RestrictedGrowth(numbers: seq<nat>) {
    numbers == []
    || (RestrictedGrowth(numbers[..|numbers| - 1])
        && 1 <= numbers[|numbers| - 1] <= HighWater(numbers[..|numbers| - 1]) + 1)
  }

  /** A numbering of the chunks named: distinct references, each used, numbered as they appear. */
  predicate Numbering(numbers: seq<nat>, named: seq<string>, cited: seq<string>) {
    && Distinct(cited) && NumbersFor(numbers, named, cited)
    && RestrictedGrowth(numbers) && HighWater(numbers) == |cited|
  }

  predicate Grown(numbers: seq<nat>, count: nat) {
    RestrictedGrowth(numbers) && HighWater(numbers) == count
  }

  lemma GrownNext(numbers: seq<nat>, count: nat, n: nat)
    requires Grown(numbers, count) && 1 <= n <= count + 1
    ensures Grown(numbers + [n], if n == count + 1 then n else count)
  {
    assert (numbers + [n])[..|numbers|] == numbers;
  }

  lemma CiteNumber(before: seq<string>, id: string)
    ensures var cited := Cite(before, Found(id));
            var n := NumberIn(cited, id);
            1 <= n <= |before| + 1 && |cited| == if n == |before| + 1 then n else |before|
  {
    NumberIsPosition(Cite(before, Found(id)), id);
    if id !in before {
      NumberOfNew(before, id);
    }
  }

  function NumbersOf(refs: seq<Ref>, cited: seq<string>): seq<nat> {
    NumbersIn(RenderRefs(refs, cited))
  }

  lemma NumbersOfNext(refs: seq<Ref>, cited: seq<string>)
    requires refs != []
    ensures var init, last := refs[..|refs| - 1], refs[|refs| - 1];
            NumbersOf(refs, cited)
            == if last.Found? then NumbersOf(init, cited) + [NumberIn(cited, last.chunkId)] else NumbersOf(init, cited)
  {
    var init, last := refs[..|refs| - 1], refs[|refs| - 1];
    PiecesConcat(RenderRefs(init, cited), RenderRef(last, cited));
    if last.Found? {
      OneNumber(NumberIn(cited, last.chunkId));
    }
  }

  lemma NumbersOfStay(refs: seq<Ref>, cited: seq<string>, ref: Ref)
    requires AllCited(refs, cited)
    ensures NumbersOf(refs, Cite(cited, ref)) == NumbersOf(refs, cited)
  {
    RenderingStays(refs, cited, Cite(cited, ref));
  }

  lemma {:induction false} NumbersGrow(refs: seq<Ref>)
    ensures Grown(NumbersOf(refs, CiteAll([], refs)), |CiteAll([], refs)|)
  {
    if refs != [] {
      var init, last := refs[..|refs| - 1], refs[|refs| - 1];
      var before := CiteAll([], init);
      NumbersGrow(init);
      CiteAllGrows([], init);
      NumbersOfStay(init, before, last);
      NumbersOfNext(refs, Cite(before, last));
      if last.Found? {
        CiteNumber(before, last.chunkId);
        GrownNext(NumbersOf(init, before), |before|, NumberIn(Cite(before, last), last.chunkId));
      }
    }
  }

  /**
   The finished answer: its prose untouched, its numbers a numbering of exactly the chunks
   its markers name.
   */
  lemma AnswerIsFaithful(tokens: seq<Token>, evidence: seq<string>, fold: Fold)
    ensures var refs := AllRefs(tokens, evidence, fold);
            var cited := CiteAll([], refs);
            var answer := Render(tokens, evidence, fold, cited);
            WordsIn(answer) == ProseIn(tokens) && Numbering(NumbersIn(answer), Named(refs), cited)
  {
    var refs := AllRefs(tokens, evidence, fold);
    CiteAllGrows([], refs);
    Rendered(tokens, evidence, fold, CiteAll([], refs));
    NumbersGrow(refs);
    NumbersTogether(tokens, evidence, fold, CiteAll([], refs));
  }

  lemma {:induction false} RenderRefsConcat(a: seq<Ref>, b: seq<Ref>, cited: seq<string>)
    ensures RenderRefs(a + b, cited) == RenderRefs(a, cited) + RenderRefs(b, cited)
  {
    if b == [] {
      assert a + b == a;
    } else {
      var init, last := b[..|b| - 1], b[|b| - 1];
      assert a + b == (a + init) + [last];
      assert (a + b)[..|a + b| - 1] == a + init;
      RenderRefsConcat(a, init, cited);
      assert RenderRefs(a, cited) + (RenderRefs(init, cited) + RenderRef(last, cited))
          == (RenderRefs(a, cited) + RenderRefs(init, cited)) + RenderRef(last, cited);
    }
  }

  /** Prose takes no numbers. */
  lemma {:induction false} NumbersTogether(tokens: seq<Token>, evidence: seq<string>, fold: Fold, cited: seq<string>)
    ensures NumbersIn(Render(tokens, evidence, fold, cited)) == NumbersOf(AllRefs(tokens, evidence, fold), cited)
  {
    if tokens != [] {
      var init, last := tokens[..|tokens| - 1], tokens[|tokens| - 1];
      NumbersTogether(init, evidence, fold, cited);
      PiecesConcat(Render(init, evidence, fold, cited), RenderToken(last, evidence, fold, cited));
      RenderRefsConcat(AllRefs(init, evidence, fold), Refs(last, evidence, fold), cited);
      PiecesConcat(RenderRefs(AllRefs(init, evidence, fold), cited), RenderRefs(Refs(last, evidence, fold), cited));
      if last.Prose? {
        OneWord(last.text);
        assert RenderRefs([], cited) == [];
      }
    }
  }

  lemma {:induction false} HighWaterBounds(numbers: seq<nat>)
    ensures forall i :: 0 <= i < |numbers| ==> numbers[i] <= HighWater(numbers)
  {
    if numbers != [] {
      HighWaterBounds(numbers[..|numbers| - 1]);
    }
  }

  lemma NumberingInit(numbers: seq<nat>, named: seq<string>, cited: seq<string>)
    requires Numbering(numbers, named, cited) && numbers != []
    ensures var n, high := numbers[|numbers| - 1], HighWater(numbers[..|numbers| - 1]);
            && high <= |cited|
            && Numbering(numbers[..|numbers| - 1], named[..|named| - 1], cited[..high])
            && (n <= high ==> high == |cited|) && (n == high + 1 ==> n == |cited|)
  {
    var init := numbers[..|numbers| - 1];
    HighWaterBounds(init);
  }

  /** There is only one such numbering. */
  lemma {:induction false} NumberingIsUnique(
    named: seq<string>, numbers: seq<nat>, cited: seq<string>, numbers2: seq<nat>, cited2: seq<string>)
    requires Numbering(numbers, named, cited) && Numbering(numbers2, named, cited2)
    ensures numbers == numbers2 && cited == cited2
    decreases |named|
  {
    if named != [] {
      var init, init2 := numbers[..|numbers| - 1], numbers2[..|numbers2| - 1];
      NumberingInit(numbers, named, cited);
      NumberingInit(numbers2, named, cited2);
      NumberingIsUnique(named[..|named| - 1], init, cited[..HighWater(init)], init2, cited2[..HighWater(init2)]);
      LastIsUnique(numbers, named, cited, numbers2, cited2);
    }
  }

  lemma LastIsUnique(numbers: seq<nat>, named: seq<string>, cited: seq<string>, numbers2: seq<nat>, cited2: seq<string>)
    requires Numbering(numbers, named, cited) && Numbering(numbers2, named, cited2) && named != []
    requires numbers[..|numbers| - 1] == numbers2[..|numbers2| - 1]
    requires var high := HighWater(numbers[..|numbers| - 1]);
             high <= |cited| && high <= |cited2| && cited[..high] == cited2[..high]
    ensures numbers == numbers2 && cited == cited2
  {
    var k := |named| - 1;
    NumberingInit(numbers, named, cited);
    NumberingInit(numbers2, named, cited2);
    SameLast(cited, cited2, HighWater(numbers[..k]), numbers[k], numbers2[k]);
    SameWithLast(numbers, numbers2);
  }

  lemma SameWithLast(a: seq<nat>, b: seq<nat>)
    requires a != [] && |a| == |b| && a[..|a| - 1] == b[..|b| - 1] && a[|a| - 1] == b[|b| - 1]
    ensures a == b
  {
    assert a == a[..|a| - 1] + [a[|a| - 1]] && b == b[..|b| - 1] + [b[|b| - 1]];
  }

  lemma SameLast(cited: seq<string>, cited2: seq<string>, high: nat, n: nat, n2: nat)
    requires Distinct(cited) && Distinct(cited2) && high <= |cited| && high <= |cited2|
    requires cited[..high] == cited2[..high]
    requires 1 <= n <= |cited| && 1 <= n2 <= |cited2| && cited[n - 1] == cited2[n2 - 1]
    requires n <= high + 1 && n2 <= high + 1
    requires (n <= high ==> high == |cited|) && (n == high + 1 ==> n == |cited|)
    requires (n2 <= high ==> high == |cited2|) && (n2 == high + 1 ==> n2 == |cited2|)
    ensures n == n2 && cited == cited2
  {
    if n <= high {
      assert cited[n - 1] == cited[..high][n - 1] == cited2[..high][n - 1] == cited2[n - 1];
      assert n == n2;
      assert cited == cited[..high] && cited2 == cited2[..high];
    } else {
      if n2 <= high {
        assert false;
      }
      assert cited == cited[..high] + [cited[high]] && cited2 == cited2[..high] + [cited2[high]];
    }
  }

  /** The last piece of evidence whose folded id is the key. */
  predicate LastMatch(evidence: seq<string>, fold: Fold, key: string, i: nat) {
    && i < |evidence| && fold(evidence[i]) == key
    && forall j :: i < j < |evidence| ==> fold(evidence[j]) != key
  }

  /** An id resolves to the last piece of evidence whose folded id it shares, and to nothing only if there is none. */
  lemma {:induction false} LookupFindsLast(evidence: seq<string>, fold: Fold, key: string)
    ensures match Lookup(evidence, fold, key)
            case None => forall i :: 0 <= i < |evidence| ==> fold(evidence[i]) != key
            case Some(id) => exists i: nat :: LastMatch(evidence, fold, key, i) && evidence[i] == id
  {
    if evidence != [] {
      var last := |evidence| - 1;
      if fold(evidence[last]) == key {
        assert LastMatch(evidence, fold, key, last);
      } else {
        LookupFindsLast(evidence[..last], fold, key);
        if Lookup(evidence[..last], fold, key).Some? {
          var i: nat :| LastMatch(evidence[..last], fold, key, i)
                        && evidence[..last][i] == Lookup(evidence[..last], fold, key).value;
          MatchInLonger(evidence, fold, key, i);
        }
      }
    }
  }

  lemma MatchInLonger(evidence: seq<string>, fold: Fold, key: string, i: nat)
    requires evidence != [] && fold(evidence[|evidence| - 1]) != key
    requires LastMatch(evidence[..|evidence| - 1], fold, key, i)
    ensures LastMatch(evidence, fold, key, i)
  {
    assert forall j :: 0 <= j < |evidence| - 1 ==> evidence[..|evidence| - 1][j] == evidence[j];
  }

  /** A retrieved chunk is found under its own id exactly when no later chunk's id folds to the same key. */
  lemma OwnIdResolves(evidence: seq<string>, fold: Fold, i: nat)
    requires i < |evidence| && Distinct(evidence)
    ensures RefOf(evidence[i], evidence, fold) == Found(evidence[i])
            <==> forall j :: i < j < |evidence| ==> fold(evidence[j]) != fold(evidence[i])
  {
    var key := fold(evidence[i]);
    LookupFindsLast(evidence, fold, key);
    var id := Lookup(evidence, fold, key).value;
    var k: nat :| LastMatch(evidence, fold, key, k) && evidence[k] == id;
  }

  /** The reference is to the last piece of evidence the id matches, or to nothing if it matches none. */
  ghost predicate RefersTo(ref: Ref, id: string, evidence: seq<string>, fold: Fold) {
    if exists i :: 0 <= i < |evidence| && fold(evidence[i]) == fold(id)
    then ref.Found? && exists i: nat :: LastMatch(evidence, fold, fold(id), i) && evidence[i] == ref.chunkId
    else ref == Missing(id)
  }

  lemma RefersByFold(id: string, evidence: seq<string>, fold: Fold)
    ensures RefersTo(RefOf(id, evidence, fold), id, evidence, fold)
  {
    LookupFindsLast(evidence, fold, fold(id));
  }

  /**
   A marker by number names the source shown with that number, or nothing if none was; a
   marker by ids names, for each in turn, the last source whose id folds alike, or nothing.
   */
  lemma {:induction false} MarkersNameSources(token: Token, evidence: seq<string>, fold: Fold)
    ensures var refs := Refs(token, evidence, fold);
            match token
            case Prose(_) => refs == []
            case Ordinal(position, raw) =>
              |refs| == 1 &&
              refs[0] == if position == 0 || position > |evidence| then Missing(raw) else Found(evidence[position - 1])
            case Ids(ids) =>
              |refs| == |ids| && forall k :: 0 <= k < |ids| ==> RefersTo(refs[k], ids[k], evidence, fold)
    decreases if token.Ids? then |token.ids| else 0
  {
    if token.Ids? && token.ids != [] {
      var init := token.ids[..|token.ids| - 1];
      MarkersNameSources(Ids(init), evidence, fold);
      RefersByFold(token.ids[|init|], evidence, fold);
    }
  }
}
