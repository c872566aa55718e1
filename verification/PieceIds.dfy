/** When the pieces of one block of prose carry distinct ids. */
module PieceIds {
  import opened Text
  import opened Splitting
  import opened ProseWords
  import opened WordLimit

  /**
   What is numbered together: one run of sentences, or all the parts of one sentence
   that was cut. `units` says how many pieces each makes.
   */
  datatype Tally = Tally(units: seq<nat>, waiting: seq<string>)

  function TallyFlushed(t: Tally): seq<nat> {
    t.units + if t.waiting == [] then [] else [1]
  }

  function TallyStep(t: Tally, next: string, budget: int): Tally {
    if Estimate(next) > budget then Tally(TallyFlushed(t) + [|HardSplit(next, budget)|], [])
    else if t.waiting != [] && Cost(t.waiting) + Estimate(next) > budget then Tally(TallyFlushed(t), [next])
    else Tally(t.units, t.waiting + [next])
  }

  function TallyFold(sentences: seq<string>, budget: int): Tally {
    if sentences == [] then Tally([], [])
    else TallyStep(TallyFold(sentences[..|sentences| - 1], budget), sentences[|sentences| - 1], budget)
  }

  function Units(text: string, budget: int): seq<nat> {
    TallyFlushed(TallyFold(Sentences(text), budget))
  }

  /** The numbers of one unit: the list of pieces grows while its own length is read. */
  function Twos(made: nat, count: nat): (r: seq<nat>)
    ensures |r| == count
  {
    seq(count, k requires 0 <= k < count => made + 2 * k)
  }

  function Numbers(units: seq<nat>): seq<nat> {
    if units == [] then []
    else
      var made := Numbers(units[..|units| - 1]);
      made + Twos(|made|, units[|units| - 1])
  }

  lemma NumbersSnoc(units: seq<nat>, last: nat)
    ensures Numbers(units + [last]) == Numbers(units) + Twos(|Numbers(units)|, last)
  {
    assert (units + [last])[..|units|] == units;
  }

  /** The pieces carry these numbers. */
  predicate AreNumbered(block: Block, pieces: seq<Block>, numbers: seq<nat>) {
    |pieces| == |numbers| && forall i :: 0 <= i < |pieces| ==> pieces[i].id == ProsePiece(block.id, numbers[i])
  }

  predicate Tallied(block: Block, st: Progress, t: Tally) {
    st.current == t.waiting && AreNumbered(block, st.pieces, Numbers(t.units))
  }

  lemma FlushedNumbers(block: Block, st: Progress, t: Tally)
    requires Tallied(block, st, t)
    ensures AreNumbered(block, Flushed(block, st), Numbers(TallyFlushed(t)))
  {
    if t.waiting == [] {
      assert TallyFlushed(t) == t.units;
    } else {
      NumbersSnoc(t.units, 1);
    }
  }

  lemma HardNumbers(block: Block, made: seq<Block>, units: seq<nat>, parts: seq<string>)
    requires AreNumbered(block, made, Numbers(units))
    ensures AreNumbered(block, made + HardPieces(block, parts, |made|), Numbers(units + [|parts|]))
  {
    NumbersSnoc(units, |parts|);
    TwosNumber(block, parts, |made|);
    NumberedConcat(block, made, HardPieces(block, parts, |made|), Numbers(units), Twos(|made|, |parts|));
  }

  lemma TwosNumber(block: Block, parts: seq<string>, made: nat)
    ensures AreNumbered(block, HardPieces(block, parts, made), Twos(made, |parts|))
  {
  }

  lemma NumberedConcat(block: Block, a: seq<Block>, b: seq<Block>, m: seq<nat>, n: seq<nat>)
    requires AreNumbered(block, a, m) && AreNumbered(block, b, n)
    ensures AreNumbered(block, a + b, m + n)
  {
  }

  lemma TallyStepNumbers(block: Block, st: Progress, t: Tally, next: string, budget: int)
    requires Tallied(block, st, t)
    ensures Tallied(block, ProseStep(block, st, next, budget), TallyStep(t, next, budget))
  {
    FlushedNumbers(block, st, t);
    if Estimate(next) > budget {
      HardNumbers(block, Flushed(block, st), TallyFlushed(t), HardSplit(next, budget));
    }
  }

  lemma {:induction false} TallyFoldNumbers(block: Block, sentences: seq<string>, budget: int)
    ensures Tallied(block, ProseFold(block, sentences, budget), TallyFold(sentences, budget))
  {
    if sentences != [] {
      var init, last := sentences[..|sentences| - 1], sentences[|sentences| - 1];
      TallyFoldNumbers(block, init, budget);
      TallyStepNumbers(block, ProseFold(block, init, budget), TallyFold(init, budget), last, budget);
    }
  }

  /** The numbers in the ids of a block's pieces. */
  lemma PiecesAreNumbered(block: Block, budget: int)
    ensures AreNumbered(block, SplitProse(block, budget), Numbers(Units(block.text, budget)))
  {
    var sentences := Sentences(block.text);
    TallyFoldNumbers(block, sentences, budget);
    FlushedNumbers(block, ProseFold(block, sentences, budget), TallyFold(sentences, budget));
    ProseStepMakesSomething(block, ProseFold(block, sentences[..|sentences| - 1], budget),
                              sentences[|sentences| - 1], budget);
  }

  // ---------------------------------------------------- when numbers repeat

  predicate Distinct<T(==)>(s: seq<T>) {
    forall a, b :: 0 <= a < b < |s| ==> s[a] != s[b]
  }

  predicate Positive(units: seq<nat>) {
    forall i :: 0 <= i < |units| ==> units[i] >= 1
  }

  /** The number of the first piece of a unit: how many pieces come before it. */
  function Start(units: seq<nat>, i: nat): nat
    requires i <= |units|
  {
    if i == 0 then 0 else Start(units, i - 1) + units[i - 1]
  }

  lemma {:induction false} StartOfInit(units: seq<nat>, last: nat, i: nat)
    requires i <= |units|
    ensures Start(units + [last], i) == Start(units, i)
  {
    if i > 0 {
      StartOfInit(units, last, i - 1);
    }
  }

  lemma {:induction false} NumbersCount(units: seq<nat>)
    ensures |Numbers(units)| == Start(units, |units|)
  {
    if units != [] {
      var init, last := units[..|units| - 1], units[|units| - 1];
      assert units == init + [last];
      NumbersCount(init);
      StartOfInit(units[..|units| - 1], last, |units| - 1);
    }
  }

  /** A unit of parts numbered in twos runs past the start of a later one, and meets it. */
  predicate Meets(units: seq<nat>, i: nat, j: nat)
    requires i < j < |units|
  {
    var apart := Start(units, j) - Start(units, i);
    apart % 2 == 0 && apart + 2 <= 2 * units[i]
  }

  predicate MeetsBefore(units: seq<nat>, j: nat)
    requires j < |units|
  {
    exists i :: 0 <= i < j && Meets(units, i, j)
  }

  predicate SomeMeet(units: seq<nat>) {
    exists j :: 0 <= j < |units| && MeetsBefore(units, j)
  }

  /** `n` is one of the numbers of unit `i`. */
  predicate InUnit(units: seq<nat>, i: nat, n: nat)
    requires i < |units|
  {
    n >= Start(units, i) && (n - Start(units, i)) % 2 == 0 && n + 2 <= Start(units, i) + 2 * units[i]
  }

  lemma InTwos(made: nat, count: nat, n: nat)
    ensures n in Twos(made, count) <==> n >= made && (n - made) % 2 == 0 && n + 2 <= made + 2 * count
  {
    if n >= made && (n - made) % 2 == 0 && n + 2 <= made + 2 * count {
      assert Twos(made, count)[(n - made) / 2] == n;
    }
  }

  lemma {:induction false} InNumbers(units: seq<nat>, n: nat)
    ensures n in Numbers(units) <==> exists i :: 0 <= i < |units| && InUnit(units, i, n)
  {
    if units != [] {
      var init, last := units[..|units| - 1], units[|units| - 1];
      assert units == init + [last];
      InNumbers(init, n);
      NumbersCount(init);
      InTwos(|Numbers(init)|, last, n);
      SameStarts(init, last);
      assert forall i :: 0 <= i < |init| ==> InUnit(units, i, n) == InUnit(init, i, n);
      assert InUnit(units, |init|, n) <==> n in Twos(|Numbers(init)|, last);
    }
  }

  lemma DistinctParts(a: seq<nat>, b: seq<nat>)
    requires Distinct(a + b)
    ensures Distinct(a) && Distinct(b) && forall n :: n in a ==> n !in b
  {
    var all := a + b;
    assert forall i :: 0 <= i < |a| ==> a[i] == all[i];
    assert forall j :: 0 <= j < |b| ==> b[j] == all[|a| + j];
  }

  lemma DistinctJoined(a: seq<nat>, b: seq<nat>)
    requires Distinct(a) && Distinct(b) && forall n :: n in a ==> n !in b
    ensures Distinct(a + b)
  {
    var all := a + b;
    forall i, j | 0 <= i < j < |all|
      ensures all[i] != all[j]
    {
      if i < |a| <= j {
        assert all[i] in a && all[j] == b[j - |a|];
      }
    }
  }

  lemma DistinctConcat(a: seq<nat>, b: seq<nat>)
    ensures Distinct(a + b) <==> Distinct(a) && Distinct(b) && forall n :: n in a ==> n !in b
  {
    if Distinct(a + b) {
      DistinctParts(a, b);
    } else if Distinct(a) && Distinct(b) && forall n :: n in a ==> n !in b {
      DistinctJoined(a, b);
    }
  }

  lemma TwosDistinct(made: nat, count: nat)
    ensures Distinct(Twos(made, count))
  {
  }

  lemma SameStarts(init: seq<nat>, last: nat)
    ensures forall i :: 0 <= i <= |init| ==> Start(init + [last], i) == Start(init, i)
  {
    forall i | 0 <= i <= |init|
      ensures Start(init + [last], i) == Start(init, i)
    {
      StartOfInit(init, last, i);
    }
  }

  lemma EvenGap(from: nat, to: nat, n: nat)
    requires (n - from) % 2 == 0 && (n - to) % 2 == 0
    ensures (to - from) % 2 == 0
  {
  }

  lemma {:induction false} RepeatMeets(init: seq<nat>, last: nat, n: nat)
    requires n in Numbers(init) && n in Twos(Start(init, |init|), last)
    ensures MeetsBefore(init + [last], |init|)
  {
    InNumbers(init, n);
    InTwos(Start(init, |init|), last, n);
    var i :| 0 <= i < |init| && InUnit(init, i, n);
    SameStarts(init, last);
    EvenGap(Start(init, i), Start(init, |init|), n);
    assert Meets(init + [last], i, |init|);
  }

  lemma {:induction false} MeetRepeats(init: seq<nat>, last: nat)
    requires last >= 1 && MeetsBefore(init + [last], |init|)
    ensures Start(init, |init|) in Numbers(init) && Start(init, |init|) in Twos(Start(init, |init|), last)
  {
    var i :| 0 <= i < |init| && Meets(init + [last], i, |init|);
    SameStarts(init, last);
    StartGrows(init, i, |init|);
    assert InUnit(init, i, Start(init, |init|));
    InNumbers(init, Start(init, |init|));
    InTwos(Start(init, |init|), last, Start(init, |init|));
  }

  /** The last unit repeats a number if and only if some unit meets it. */
  lemma LastUnit(init: seq<nat>, last: nat)
    requires last >= 1
    ensures (exists n :: n in Numbers(init) && n in Twos(|Numbers(init)|, last)) <==> MeetsBefore(init + [last], |init|)
  {
    NumbersCount(init);
    if n :| n in Numbers(init) && n in Twos(|Numbers(init)|, last) {
      RepeatMeets(init, last, n);
    }
    if MeetsBefore(init + [last], |init|) {
      MeetRepeats(init, last);
    }
  }

  lemma {:induction false} StartGrows(units: seq<nat>, i: nat, j: nat)
    requires i <= j <= |units|
    ensures Start(units, i) <= Start(units, j)
  {
    if i < j {
      StartGrows(units, i, j - 1);
    }
  }

  lemma MeetsInInit(init: seq<nat>, last: nat, j: nat)
    requires j < |init|
    ensures MeetsBefore(init + [last], j) <==> MeetsBefore(init, j)
  {
    SameStarts(init, last);
    assert forall i :: 0 <= i < j ==> Meets(init + [last], i, j) == Meets(init, i, j);
  }

  lemma SomeMeetSnoc(init: seq<nat>, last: nat)
    ensures SomeMeet(init + [last]) <==> SomeMeet(init) || MeetsBefore(init + [last], |init|)
  {
    forall j | 0 <= j < |init|
      ensures MeetsBefore(init + [last], j) <==> MeetsBefore(init, j)
    {
      MeetsInInit(init, last, j);
    }
  }

  lemma {:induction false} NumbersDistinct(units: seq<nat>)
    requires Positive(units)
    ensures Distinct(Numbers(units)) <==> !SomeMeet(units)
  {
    if units != [] {
      var init, last := units[..|units| - 1], units[|units| - 1];
      assert units == init + [last];
      NumbersDistinct(init);
      TwosDistinct(|Numbers(init)|, last);
      DistinctConcat(Numbers(init), Twos(|Numbers(init)|, last));
      LastUnit(init, last);
      SomeMeetSnoc(init, last);
    }
  }

  lemma {:induction false} TallyIsPositive(sentences: seq<string>, budget: int)
    ensures Positive(TallyFold(sentences, budget).units)
  {
    if sentences != [] {
      TallyIsPositive(sentences[..|sentences| - 1], budget);
    }
  }

  predicate DistinctIds(pieces: seq<Block>) {
    forall a, b :: 0 <= a < b < |pieces| ==> pieces[a].id != pieces[b].id
  }

  lemma NumberedIds(block: Block, pieces: seq<Block>, numbers: seq<nat>)
    requires AreNumbered(block, pieces, numbers)
    ensures DistinctIds(pieces) <==> Distinct(numbers)
  {
    if DistinctIds(pieces) {
      forall a, b | 0 <= a < b < |numbers|
        ensures numbers[a] != numbers[b]
      {
        assert pieces[a].id != pieces[b].id;
      }
    }
  }

  /**
   The pieces of a block have distinct ids if and only if no sentence cut into parts is
   followed by a piece, or by another such sentence, that starts at an even distance
   inside the stretch its own numbers cover.
   */
  lemma IdsAreDistinct(block: Block, budget: int)
    ensures DistinctIds(SplitProse(block, budget)) <==> !SomeMeet(Units(block.text, budget))
  {
    PiecesAreNumbered(block, budget);
    TallyIsPositive(Sentences(block.text), budget);
    NumbersDistinct(Units(block.text, budget));
    NumberedIds(block, SplitProse(block, budget), Numbers(Units(block.text, budget)));
  }

  // ------------------------------------------------------ the usual causes

  /** An even number of parts, and anything after them. */
  lemma EvenPartsRepeat(units: seq<nat>, i: nat)
    requires i + 1 < |units| && units[i] >= 2 && units[i] % 2 == 0
    ensures SomeMeet(units)
  {
    assert Meets(units, i, i + 1);
    assert MeetsBefore(units, i + 1);
  }

  /** An odd number of parts, one piece after them, and anything after that. */
  lemma OddPartsRepeat(units: seq<nat>, i: nat)
    requires i + 2 < |units| && units[i] >= 3 && units[i] % 2 == 1 && units[i + 1] == 1
    ensures SomeMeet(units)
  {
    assert Start(units, i + 2) == Start(units, i + 1) + units[i + 1];
    assert Meets(units, i, i + 2);
    assert MeetsBefore(units, i + 2);
  }

  predicate Ones(units: seq<nat>) {
    forall i :: 0 <= i < |units| ==> units[i] == 1
  }

  lemma {:induction false} OnesDoNotMeet(units: seq<nat>, last: nat)
    requires Ones(units)
    ensures !SomeMeet(units + [last])
  {
    var all := units + [last];
    forall i, j | 0 <= i < j < |all|
      ensures !Meets(all, i, j)
    {
      StartGrows(all, i + 1, j);
    }
  }

  /** Every sentence over budget is left in one part. */
  predicate Uncut(sentences: seq<string>, budget: int) {
    forall i :: 0 <= i < |sentences| && Estimate(sentences[i]) > budget ==> |HardSplit(sentences[i], budget)| == 1
  }

  lemma {:induction false} UncutAreOnes(sentences: seq<string>, budget: int)
    requires Uncut(sentences, budget)
    ensures Ones(TallyFold(sentences, budget).units)
  {
    if sentences != [] {
      UncutAreOnes(sentences[..|sentences| - 1], budget);
    }
  }

  /** Ids are distinct whenever no sentence but the last is cut. */
  lemma CutLastIsDistinct(block: Block, budget: int)
    requires var sentences := Sentences(block.text); Uncut(sentences[..|sentences| - 1], budget)
    ensures DistinctIds(SplitProse(block, budget))
  {
    var sentences := Sentences(block.text);
    var init, last := sentences[..|sentences| - 1], sentences[|sentences| - 1];
    var t := TallyFold(init, budget);
    UncutAreOnes(init, budget);
    var units := Units(block.text, budget);
    var next := TallyStep(t, last, budget);
    assert units == TallyFlushed(next);
    var before := if Estimate(last) > budget then TallyFlushed(t) else next.units;
    assert Ones(before);
    OnesDoNotMeet(before, units[|units| - 1]);
    assert units == before + [units[|units| - 1]];
    IdsAreDistinct(block, budget);
  }

  lemma CutThenKept(block: Block, long: string, short: string, budget: int)
    requires Estimate(long) > budget >= Estimate(short) && Sentences(block.text) == [long, short]
    ensures var parts := HardPieces(block, HardSplit(long, budget), 0);
            SplitProse(block, budget) == parts + [ProsePart(block, [short], |parts|)]
  {
    var sentences := [long, short];
    var parts := HardPieces(block, HardSplit(long, budget), 0);
    assert sentences[..1] == [long] && [long][..0] == [];
    assert ProseFold(block, [], budget) == Progress([], []);
    assert ProseFold(block, [long], budget) == Progress([] + parts, []);
    assert ProseFold(block, sentences, budget) == Progress(parts, [] + [short]);
  }

  /** Two sentences, the first cut in two: the second piece and the third, with different texts, share an id. */
  lemma IdsRepeat()
    ensures var pieces := SplitProse(Prose("aaa bbb. c"), 1);
            && |pieces| == 3 && pieces[1].text == "bbb." && pieces[2].text == "c" && pieces[1].id == pieces[2].id
  {
    var block := Prose("aaa bbb. c");
    TwoSentences();
    CutInTwo();
    CutThenKept(block, "aaa bbb.", "c", 1);
    TrimmedStaysWhole("c");
    TrimmedStaysWhole("bbb.");
  }

  lemma TwoSentences()
    ensures Sentences("aaa bbb. c") == ["aaa bbb.", "c"]
  {
    FullStopEnds("aaa bbb", "c");
    assert "aaa bbb" + "." + " " + "c" == "aaa bbb. c" && "aaa bbb" + "." == "aaa bbb.";
    OneSentence("c");
  }

  lemma CutInTwo()
    ensures HardSplit("aaa bbb.", 1) == ["aaa", "bbb."]
  {
    var words := ["aaa", "bbb."];
    assert IsWord("aaa") && IsWord("bbb.") && AreWords(words);
    assert words[1..] == ["bbb."] && words[..1] == ["aaa"] && Join(words, " ") == "aaa bbb.";
    WordsOfJoin(words, " ");
    WordsOfWords(words);
    assert WordRuns(["bbb."], 1) == ["bbb."] && WordRuns(words, 1) == ["aaa"] + WordRuns(["bbb."], 1);
  }
}
