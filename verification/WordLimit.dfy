/** How large a piece of prose can get when its words are bounded, and what repairs a piece that is over budget. */
module WordLimit {
  import opened Collections
  import opened Text
  import opened Splitting
  import opened ProseWords

  /**
   There is no hard ceiling: text without white space is never broken up, so a
   piece can estimate to any number of tokens at all, whatever the budget.
   */
  lemma OneWordIsNeverSplit(block: Block, budget: int)
    requires block.text != "" && SpaceFree(block.text) && Estimate(block.text) > budget
    ensures SplitProse(block, budget) == [ProsePart(block, [block.text], 0)]
    ensures ProsePart(block, [block.text], 0).text == block.text
  {
    var text := block.text;
    SpaceFreeIsOneWord(text, "");
    assert "" + text == text;
    assert HardSplit(text, budget) == [text];
    assert ProseFold(block, [text][..0], budget) == Progress([], []);
    assert !IsSpace(text[0]) && !IsSpace(text[|text| - 1]);
  }

  predicate AllWithin(words: seq<string>, limit: nat) {
    forall w <- words :: |w| <= limit
  }

  /** No word of the text is longer than the limit. */
  predicate WordsWithin(text: string, limit: nat) {
    AllWithin(Words(text), limit)
  }

  // --------------------------------------------------------- the upper bound

  /** The longest that words of a sentence can be, as many as go into a piece. */
  function CutLength(budget: int, limit: nat): int {
    PerPiece(budget) * (limit + 1) - 1
  }

  lemma Scaled(a: nat, b: nat, factor: nat)
    requires a <= b
    ensures a * factor <= b * factor
  {
  }

  lemma OneMore(n: nat, limit: nat)
    ensures n * limit + limit == (n + 1) * limit
  {
  }

  lemma WithinTail(words: seq<string>, limit: nat)
    requires AllWithin(words, limit) && words != []
    ensures |words[0]| <= limit && AllWithin(words[1..], limit)
  {
    assert words[0] in words && forall w <- words[1..] :: w in words;
  }

  lemma {:induction false} TotalWithin(words: seq<string>, limit: nat)
    requires AllWithin(words, limit)
    ensures TotalLength(words) <= |words| * limit
  {
    if words != [] {
      WithinTail(words, limit);
      TotalWithin(words[1..], limit);
      OneMore(|words| - 1, limit);
    }
  }

  lemma JoinWithin(words: seq<string>, limit: nat, perPiece: nat)
    requires AllWithin(words, limit) && 1 <= |words| <= perPiece
    ensures |Join(words, " ")| <= perPiece * (limit + 1) - 1
  {
    TotalWithin(words, limit);
    JoinLength(words, " ");
    Scaled(|words|, perPiece, limit + 1);
    assert |words| * (limit + 1) == |words| * limit + |words|;
  }

  lemma {:induction false} RunsWithin(words: seq<string>, perPiece: nat, limit: nat)
    requires perPiece >= 1 && AllWithin(words, limit)
    ensures AllWithin(WordRuns(words, perPiece), perPiece * (limit + 1) - 1)
  {
    if words != [] {
      if |words| <= perPiece {
        JoinWithin(words, limit, perPiece);
      } else {
        assert AllWithin(words[..perPiece], limit) && AllWithin(words[perPiece..], limit);
        JoinWithin(words[..perPiece], limit, perPiece);
        RunsWithin(words[perPiece..], perPiece, limit);
      }
    }
  }

  /** A part of a hard split, as it stands in a piece. */
  lemma PartLength(text: string, budget: int, limit: nat, part: string)
    requires limit >= 1 && WordsWithin(text, limit) && part in HardSplit(text, budget)
    ensures |Strip(part)| <= CutLength(budget, limit)
  {
    StripKeepsInk(part);
    RunsWithin(Words(text), PerPiece(budget), limit);
    Scaled(1, PerPiece(budget), limit + 1);
    if WordRuns(Words(text), PerPiece(budget)) == [] {
      assert Words(text) == [];
      NoWordsIsBlank(text);
    }
  }

  lemma NoWordsIsBlank(text: string)
    requires Words(text) == []
    ensures Strip(text) == ""
  {
    WordsKeepInk(text, "");
    StripKeepsInk(text);
  }

  lemma {:induction false} InAllWords(texts: seq<string>, text: string, w: string)
    requires text in texts && w in Words(text)
    ensures w in AllWords(texts)
  {
    var init, last := texts[..|texts| - 1], texts[|texts| - 1];
    assert texts == init + [last];
    if text in init {
      InAllWords(init, text, w);
    }
  }

  lemma SentenceWithin(text: string, sentence: string, limit: nat)
    requires sentence in Sentences(text) && WordsWithin(text, limit)
    ensures WordsWithin(sentence, limit)
  {
    WordsOfSentences(text, "");
    assert "" + text == text;
    forall w | w in Words(sentence)
      ensures |w| <= limit
    {
      InAllWords(Sentences(text), sentence, w);
    }
  }

  /** Every piece is packed within the budget, or as long as its words allow. */
  lemma PieceWithin(block: Block, budget: int, limit: nat, piece: Block)
    requires limit >= 1 && WordsWithin(block.text, limit) && piece in SplitProse(block, budget)
    ensures (budget >= 1 && 5 * |piece.text| <= 40 * budget - 5) || |piece.text| <= CutLength(budget, limit)
  {
    ProsePiecesPackedOrCut(block, budget);
    if Packed(block, piece, budget) {
      PackedLength(block, piece, budget);
    } else {
      var sentence: string, part: string, index: nat :|
        && sentence in Sentences(block.text) && Estimate(sentence) > budget && part in HardSplit(sentence, budget)
        && piece == ProsePart(block, [part], index);
      SentenceWithin(block.text, sentence, limit);
      PartLength(sentence, budget, limit, part);
    }
  }

  // ----------------------------------------------------- texts that reach it

  /** As many words as `n`, each as long as the limit. */
  function Wordy(n: nat, limit: nat): string {
    Join(Repeat(Letters(limit), n), " ")
  }

  lemma LettersIsWord(limit: nat)
    requires limit >= 1
    ensures IsWord(Letters(limit)) && Trimmed(Letters(limit))
  {
    LettersTrimmed(limit);
    forall i | 0 <= i < limit
      ensures !IsSpace(Letters(limit)[i])
    {
      assert Letters(limit)[i] in Letters(limit);
    }
  }

  lemma RepeatAreWords(w: string, n: nat)
    requires IsWord(w)
    ensures AreWords(Repeat(w, n))
  {
    forall i | 0 <= i < n
      ensures IsWord(Repeat(w, n)[i])
    {
      assert Repeat(w, n)[i] in Repeat(w, n);
    }
  }

  lemma WordsOfWordy(n: nat, limit: nat)
    requires limit >= 1
    ensures Words(Wordy(n, limit)) == Repeat(Letters(limit), n) && WordsWithin(Wordy(n, limit), limit)
  {
    LettersIsWord(limit);
    RepeatAreWords(Letters(limit), n);
    WordsOfJoin(Repeat(Letters(limit), n), " ");
    WordsOfWords(Repeat(Letters(limit), n));
  }

  lemma {:induction false} TotalOfRepeat(x: string, n: nat)
    ensures TotalLength(Repeat(x, n)) == n * |x|
  {
    if n > 0 {
      TotalOfRepeat(x, n - 1);
      TotalLengthSnoc(Repeat(x, n - 1), x);
      assert (n - 1) * |x| + |x| == n * |x|;
    }
  }

  /** Repeated text joined: its length, and that there is nothing to strip. */
  lemma RepeatedText(x: string, n: nat, sep: string)
    requires n >= 1 && Trimmed(x) && |sep| == 1
    ensures var s := Join(Repeat(x, n), sep);
            |s| == n * (|x| + 1) - 1 && Trimmed(s) && Strip(s) == s
  {
    TotalOfRepeat(x, n);
    JoinLength(Repeat(x, n), sep);
    JoinTrimmed(Repeat(x, n), sep);
    TrimmedStaysWhole(Join(Repeat(x, n), sep));
    assert n * (|x| + 1) == n * |x| + n;
  }

  lemma {:induction false} RepeatPrefix<T>(x: T, n: nat, m: nat)
    requires n <= m
    ensures Repeat(x, m)[..n] == Repeat(x, n)
  {
    if n < m {
      RepeatPrefix(x, n, m - 1);
      assert Repeat(x, m)[..n] == Repeat(x, m - 1)[..n];
    }
  }

  /** Cutting a wordy text leaves a part as long as a part can be. */
  lemma WordyPart(n: nat, budget: int, limit: nat)
    requires limit >= 1 && n >= PerPiece(budget)
    ensures var part := Wordy(PerPiece(budget), limit);
            && part in HardSplit(Wordy(n, limit), budget) && Strip(part) == part && |part| == CutLength(budget, limit)
  {
    var words, per := Repeat(Letters(limit), n), PerPiece(budget);
    WordsOfWordy(n, limit);
    RepeatPrefix(Letters(limit), per, n);
    LettersIsWord(limit);
    RepeatedText(Letters(limit), per, " ");
    assert words[..per] == Repeat(Letters(limit), per);
    assert WordRuns(words, per)[0] == Join(words[..per], " ");
  }

  predicate PartsFit(text: string, budget: int, window: int) {
    forall part <- HardSplit(text, budget) :: Estimate(Strip(part)) <= window
  }

  lemma Fits(text: string, length: nat, window: int)
    requires |text| <= length && window >= 1 && 5 * length < 18 * (window + 1)
    ensures Estimate(text) <= window
  {
  }

  lemma Overruns(text: string, window: int)
    requires window < 1 || 5 * |text| >= 18 * (window + 1)
    ensures Estimate(text) > window
  {
  }

  /**
   Cutting text by words brings it within a window, whatever the text, if and only if
   as many of its longest words as go into a piece fit there.
   */
  lemma HardSplitNeedsShortWords(budget: int, limit: nat, window: int)
    requires limit >= 1
    ensures (forall text :: WordsWithin(text, limit) ==> PartsFit(text, budget, window))
       <==> window >= 1 && 5 * CutLength(budget, limit) < 18 * (window + 1)
  {
    if window >= 1 && 5 * CutLength(budget, limit) < 18 * (window + 1) {
      forall text, part | WordsWithin(text, limit) && part in HardSplit(text, budget)
        ensures Estimate(Strip(part)) <= window
      {
        PartLength(text, budget, limit, part);
        Fits(Strip(part), CutLength(budget, limit), window);
      }
    } else {
      var text := Wordy(PerPiece(budget), limit);
      WordsOfWordy(PerPiece(budget), limit);
      WordyPart(PerPiece(budget), budget, limit);
      Overruns(text, window);
      assert !PartsFit(text, budget, window);
    }
  }

  // ----------------------------------------------------------- whole blocks

  predicate PiecesFit(block: Block, budget: int, window: int) {
    forall piece <- SplitProse(block, budget) :: Estimate(piece.text) <= window
  }

  /** Every block of prose over budget, with no word over the limit, is split into pieces within the window. */
  ghost predicate SplittingFits(budget: int, limit: nat, window: int) {
    forall block: Block ::
      Estimate(block.text) > budget && WordsWithin(block.text, limit) ==> PiecesFit(block, budget, window)
  }

  predicate WindowHolds(budget: int, limit: nat, window: int) {
    && window >= 1
    && (budget >= 1 ==> 40 * budget - 5 < 18 * (window + 1))
    && 5 * CutLength(budget, limit) < 18 * (window + 1)
  }

  lemma HoldingIsEnough(budget: int, limit: nat, window: int)
    requires limit >= 1 && WindowHolds(budget, limit, window)
    ensures SplittingFits(budget, limit, window)
  {
    forall block: Block, piece | WordsWithin(block.text, limit) && piece in SplitProse(block, budget)
      ensures Estimate(piece.text) <= window
    {
      PieceWithin(block, budget, limit, piece);
      assert 5 * |piece.text| < 18 * (window + 1);
    }
  }

  /** No character ends a sentence. */
  predicate Quiet(s: string) {
    forall i :: 0 <= i < |s| ==> s[i] !in {'.', '!', '?'}
  }

  lemma {:induction false} QuietRuns(a: string, b: string, sentence: string)
    requires Quiet(a) && Quiet(sentence)
    ensures SentencesFrom(a + b, sentence) == SentencesFrom(b, sentence + a)
  {
    if a == "" {
      assert a + b == b && sentence + a == sentence;
    } else {
      assert (a + b)[0] == a[0] && (a + b)[1..] == a[1..] + b;
      assert sentence + [a[0]] + a[1..] == sentence + a;
      QuietRuns(a[1..], b, sentence + [a[0]]);
    }
  }

  lemma OneSentence(s: string)
    requires Quiet(s)
    ensures Sentences(s) == [s]
  {
    QuietRuns(s, "", "");
    assert s + "" == s && "" + s == s;
  }

  lemma {:induction false} QuietJoin(parts: seq<string>)
    requires forall part <- parts :: Quiet(part)
    ensures Quiet(Join(parts, " "))
  {
    if parts != [] {
      assert parts[0] in parts && forall part <- parts[1..] :: part in parts;
      QuietJoin(parts[1..]);
    }
  }

  function Prose(text: string): Block {
    Block(Named("b"), 1, Paragraph, text, 0, 1)
  }

  lemma WordySplit(n: nat, budget: int, limit: nat, part: string)
    requires limit >= 1 && Estimate(Wordy(n, limit)) > budget && part in HardSplit(Wordy(n, limit), budget)
    ensures exists piece <- SplitProse(Prose(Wordy(n, limit)), budget) :: piece.text == Strip(part)
  {
    var text := Wordy(n, limit);
    var block := Prose(text);
    var parts := HardSplit(text, budget);
    WordyIsQuiet(n, limit);
    OneSentence(text);
    assert [text][..0] == [] && ProseFold(block, [text][..0], budget) == Progress([], []);
    assert ProseFold(block, [text], budget) == Progress([] + HardPieces(block, parts, 0), []);
    assert SplitProse(block, budget) == HardPieces(block, parts, 0);
    var k :| 0 <= k < |parts| && parts[k] == part;
    assert HardPieces(block, parts, 0)[k].text == Strip(Join([part], " "));
  }

  lemma WordyIsQuiet(n: nat, limit: nat)
    ensures Quiet(Wordy(n, limit))
  {
    forall i | 0 <= i < limit
      ensures Letters(limit)[i] == 'a'
    {
      assert Letters(limit)[i] in Letters(limit);
    }
    QuietJoin(Repeat(Letters(limit), n));
  }

  /** Enough words to go over any budget. */
  function Enough(budget: int): (n: nat)
    ensures n >= PerPiece(budget) && (budget > 0 ==> n >= 2 * budget + 4)
  {
    PerPiece(budget) + if budget > 0 then 2 * budget + 3 else 3
  }

  lemma LongIsOver(text: string, budget: int)
    requires budget > 0 ==> |text| >= 4 * budget + 7
    ensures Estimate(text) > budget
  {
  }

  lemma WordyLength(n: nat, limit: nat)
    requires limit >= 1 && n >= 1
    ensures |Wordy(n, limit)| >= 2 * n - 1
  {
    LettersIsWord(limit);
    RepeatedText(Letters(limit), n, " ");
    Doubled(n, |Letters(limit)| + 1);
  }

  lemma Doubled(n: nat, size: nat)
    requires size >= 2
    ensures n * size >= 2 * n
  {
  }

  lemma EnoughIsOver(budget: int, limit: nat)
    requires limit >= 1
    ensures Estimate(Wordy(Enough(budget), limit)) > budget
  {
    WordyLength(Enough(budget), limit);
    LongIsOver(Wordy(Enough(budget), limit), budget);
  }

  /** Words too long for the window, though every word is within the limit. */
  lemma WordsOverrun(budget: int, limit: nat, window: int)
    requires limit >= 1 && (window < 1 || 5 * CutLength(budget, limit) >= 18 * (window + 1))
    ensures !SplittingFits(budget, limit, window)
  {
    var n, part := Enough(budget), Wordy(PerPiece(budget), limit);
    var block := Prose(Wordy(n, limit));
    EnoughIsOver(budget, limit);
    WordsOfWordy(n, limit);
    WordyPart(n, budget, limit);
    WordySplit(n, budget, limit, part);
    var piece :| piece in SplitProse(block, budget) && piece.text == Strip(part);
    Overruns(piece.text, window);
    assert !PiecesFit(block, budget, window);
  }

  // ------------------------------------------------- many short sentences

  /** A sentence whose estimate loses the most to rounding, with words of one character. */
  const SHORT := "a a a ."

  function Shorts(n: nat): string {
    Join(Repeat(SHORT, n), " ")
  }

  lemma ShortWords()
    ensures Words(SHORT) == ["a", "a", "a", "."]
  {
    var words := ["a", "a", "a", "."];
    assert IsWord("a") && IsWord(".");
    assert AreWords(words);
    assert words[1..] == ["a", "a", "."] && ["a", "a", "."][1..] == ["a", "."] && ["a", "."][1..] == ["."];
    assert Join(words, " ") == SHORT;
    WordsOfJoin(words, " ");
    WordsOfWords(words);
  }

  lemma {:induction false} AllShortWords(n: nat, limit: nat)
    requires limit >= 1
    ensures AllWithin(AllWords(Repeat(SHORT, n)), limit)
  {
    if n > 0 {
      AllShortWords(n - 1, limit);
      RepeatInit(SHORT, n);
      ShortWords();
    }
  }

  lemma ShortsWithin(n: nat, limit: nat)
    requires limit >= 1
    ensures WordsWithin(Shorts(n), limit)
  {
    WordsOfJoin(Repeat(SHORT, n), " ");
    AllShortWords(n, limit);
  }

  /** Up to its full stop a sentence is read through. */
  lemma FullStopIsRead(quiet: string, after: string)
    requires Quiet(quiet)
    ensures Sentences(quiet + ("." + after)) == SentencesFrom(after, quiet + ".")
  {
    var rest := "." + after;
    assert "" + quiet == quiet;
    QuietRuns(quiet, rest, "");
    assert rest[0] == '.' && rest[1..] == after;
  }

  lemma SpaceBreaks(sentence: string, rest: string)
    requires EndsSentence(sentence) && rest != "" && !IsSpace(rest[0])
    ensures SentencesFrom(" " + rest, sentence) == [sentence] + Sentences(rest)
  {
    var after := " " + rest;
    assert after[0] == ' ' && after[1..] == rest;
    assert DropSpaces(after) == rest;
  }

  /** A sentence with a full stop, and what follows it after a space. */
  lemma FullStopEnds(quiet: string, rest: string)
    requires Quiet(quiet) && rest != "" && !IsSpace(rest[0])
    ensures Sentences(quiet + "." + " " + rest) == [quiet + "."] + Sentences(rest)
  {
    FullStopIsRead(quiet, " " + rest);
    assert quiet + "." + " " + rest == quiet + ("." + (" " + rest));
    SpaceBreaks(quiet + ".", rest);
  }

  lemma ShortAlone()
    ensures Sentences(SHORT) == [SHORT]
  {
    FullStopIsRead("a a a ", "");
    assert "a a a " + ("." + "") == SHORT && "a a a " + "." == SHORT;
  }

  lemma ShortsTrimmed(n: nat)
    requires n >= 1
    ensures Trimmed(Shorts(n))
  {
    assert Trimmed(SHORT);
    JoinTrimmed(Repeat(SHORT, n), " ");
  }

  lemma ShortsNext(n: nat)
    requires n >= 2
    ensures Shorts(n) == SHORT + " " + Shorts(n - 1)
  {
    RepeatTail(SHORT, n);
  }

  lemma {:induction false} SentencesOfShorts(n: nat)
    requires n >= 1
    ensures Sentences(Shorts(n)) == Repeat(SHORT, n)
  {
    if n == 1 {
      ShortAlone();
      assert Repeat(SHORT, 1) == [SHORT];
    } else {
      SentencesOfShorts(n - 1);
      ShortsTrimmed(n - 1);
      ShortsNext(n);
      ShortEnds(Shorts(n - 1));
      RepeatTail(SHORT, n);
      assert Repeat(SHORT, n) == [SHORT] + Repeat(SHORT, n - 1);
    }
  }

  lemma ShortEnds(rest: string)
    requires rest != "" && !IsSpace(rest[0])
    ensures Sentences(SHORT + " " + rest) == [SHORT] + Sentences(rest)
  {
    FullStopEnds("a a a ", rest);
    assert "a a a " + "." == SHORT;
  }

  lemma {:induction false} FoldOfShorts(block: Block, n: nat, budget: int)
    requires n <= budget
    ensures ProseFold(block, Repeat(SHORT, n), budget) == Progress([], Repeat(SHORT, n)) && Cost(Repeat(SHORT, n)) == n
  {
    if n > 0 {
      FoldOfShorts(block, n - 1, budget);
      RepeatInit(SHORT, n);
      assert Estimate(SHORT) == 1;
      CostSnoc(Repeat(SHORT, n - 1), SHORT);
    }
  }

  lemma ShortsLength(n: nat)
    requires n >= 1
    ensures |Shorts(n)| == 8 * n - 1 && Strip(Shorts(n)) == Shorts(n)
  {
    assert |SHORT| == 7 && Trimmed(SHORT);
    RepeatedText(SHORT, n, " ");
  }

  lemma ShortsSplit(budget: nat)
    requires budget >= 1
    ensures SplitProse(Prose(Shorts(budget)), budget) == [ProsePart(Prose(Shorts(budget)), Repeat(SHORT, budget), 0)]
  {
    var block := Prose(Shorts(budget));
    SentencesOfShorts(budget);
    FoldOfShorts(block, budget, budget);
    assert SplitProse(block, budget) == [] + [ProsePart(block, Repeat(SHORT, budget), 0)];
  }

  /** A budget of short sentences is packed into one piece that is too long for the window. */
  lemma SentencesOverrun(budget: int, limit: nat, window: int)
    requires limit >= 1 && budget >= 2 && 40 * budget - 5 >= 18 * (window + 1)
    ensures !SplittingFits(budget, limit, window)
  {
    var block := Prose(Shorts(budget));
    ShortsWithin(budget, limit);
    ShortsLength(budget);
    ShortsSplit(budget);
    var piece := ProsePart(block, Repeat(SHORT, budget), 0);
    assert piece in SplitProse(block, budget) && piece.text == Shorts(budget);
    Overruns(piece.text, window);
    assert !PiecesFit(block, budget, window);
  }

  /**
   Splitting brings every oversized block of prose within a window if and only if the
   budget's own margin and as many longest words as go into a piece fit there.
   */
  lemma SplittingNeedsShortWords(budget: int, limit: nat, window: int)
    requires limit >= 1
    ensures SplittingFits(budget, limit, window) <==> WindowHolds(budget, limit, window)
  {
    if WindowHolds(budget, limit, window) {
      HoldingIsEnough(budget, limit, window);
    } else if window < 1 || 5 * CutLength(budget, limit) >= 18 * (window + 1) {
      WordsOverrun(budget, limit, window);
    } else {
      SentencesOverrun(budget, limit, window);
    }
  }
}
