/**
 Splitting prose, word by word. Sentences and pieces are both cut at white space alone, so
 the words of the pieces are those of the block: none is broken, merged, lost or moved, and
 what repairs a long sentence is only how many words go into a piece.
 */
module ProseWords {
  import opened Collections
  import opened Text
  import opened Splitting

  function AllWords(texts: seq<string>): seq<string> {
    if texts == [] then [] else AllWords(texts[..|texts| - 1]) + Words(texts[|texts| - 1])
  }

  lemma AllWordsSnoc(texts: seq<string>, last: string)
    ensures AllWords(texts + [last]) == AllWords(texts) + Words(last)
  {
    assert (texts + [last])[..|texts|] == texts;
  }

  lemma AllWordsOfOne(text: string)
    ensures AllWords([text]) == Words(text)
  {
    AllWordsSnoc([], text);
    assert [] + [text] == [text];
  }

  lemma {:induction false} AllWordsConcat(a: seq<string>, b: seq<string>)
    ensures AllWords(a + b) == AllWords(a) + AllWords(b)
  {
    if b == [] {
      assert a + b == a;
    } else {
      var init, last := b[..|b| - 1], b[|b| - 1];
      assert a + b == (a + init) + [last];
      AllWordsSnoc(a + init, last);
      AllWordsConcat(a, init);
      Assoc(AllWords(a), AllWords(init), Words(last));
    }
  }

  // -------------------------------------------------- words of one text

  /** White space ends a word: what follows it is read afresh. */
  lemma {:induction false} WordsBreak(a: string, b: string, run: string)
    requires b != "" && IsSpace(b[0])
    ensures WordsFrom(a + b, run) == WordsFrom(a, run) + WordsFrom(b[1..], "")
  {
    if a == "" {
      assert a + b == b;
    } else {
      assert (a + b)[0] == a[0] && (a + b)[1..] == a[1..] + b;
      if IsSpace(a[0]) {
        WordsBreak(a[1..], b, "");
        Assoc(NonEmpty(run), WordsFrom(a[1..], ""), WordsFrom(b[1..], ""));
      } else {
        WordsBreak(a[1..], b, run + [a[0]]);
      }
    }
  }

  lemma {:induction false} WordsOfDropped(s: string)
    ensures Words(DropSpaces(s)) == Words(s)
  {
    if s != "" && IsSpace(s[0]) {
      WordsOfDropped(s[1..]);
    }
  }

  lemma {:induction false} WordsOfTrailing(s: string)
    ensures Words(DropTrailing(s)) == Words(s)
  {
    if s != "" && IsSpace(s[|s| - 1]) {
      var init, last := s[..|s| - 1], [s[|s| - 1]];
      assert s == init + last;
      WordsBreak(init, last, "");
      WordsOfTrailing(init);
    }
  }

  lemma WordsOfStrip(s: string)
    ensures Words(Strip(s)) == Words(s)
  {
    WordsOfDropped(s);
    WordsOfTrailing(DropSpaces(s));
  }

  lemma {:induction false} WordsOfJoin(parts: seq<string>, sep: string)
    requires |sep| == 1 && IsSpace(sep[0])
    ensures Words(Join(parts, sep)) == AllWords(parts)
  {
    if |parts| == 1 {
      AllWordsOfOne(parts[0]);
    } else if |parts| > 1 {
      var rest := Join(parts[1..], sep);
      WordsOfJoin(parts[1..], sep);
      WordsBreak(parts[0], sep + rest, "");
      assert parts[0] + sep + rest == parts[0] + (sep + rest) && (sep + rest)[1..] == rest;
      AllWordsOfOne(parts[0]);
      AllWordsConcat([parts[0]], parts[1..]);
      assert parts == [parts[0]] + parts[1..];
    }
  }

  lemma WordsAround(sentence: string, s: string)
    requires s != "" && IsSpace(s[0])
    ensures Words(sentence + s) == Words(sentence) + Words(DropSpaces(s))
  {
    WordsOfDropped(s);
    WordsBreak(sentence, s, "");
  }

  /** Sentences are cut at white space, so they hold the words of the text. */
  lemma {:induction false} WordsOfSentences(s: string, sentence: string)
    ensures AllWords(SentencesFrom(s, sentence)) == Words(sentence + s)
    decreases |s|
  {
    if s == "" {
      AllWordsOfOne(sentence);
      assert sentence + s == sentence;
    } else if IsSpace(s[0]) && EndsSentence(sentence) {
      var later := DropSpaces(s);
      WordsOfSentences(later, "");
      assert "" + later == later;
      WordsAround(sentence, s);
      AllWordsConcat([sentence], SentencesFrom(later, ""));
      AllWordsOfOne(sentence);
    } else {
      assert sentence + [s[0]] + s[1..] == sentence + s;
      WordsOfSentences(s[1..], sentence + [s[0]]);
    }
  }

  // ------------------------------------------------------------ hard splits

  predicate IsWord(w: string) {
    w != "" && SpaceFree(w)
  }

  predicate AreWords(words: seq<string>) {
    forall i :: 0 <= i < |words| ==> IsWord(words[i])
  }

  lemma {:induction false} WordsAreWords(s: string, run: string)
    requires SpaceFree(run)
    ensures AreWords(WordsFrom(s, run))
  {
    if s != "" {
      if IsSpace(s[0]) {
        WordsAreWords(s[1..], "");
      } else {
        WordsAreWords(s[1..], run + [s[0]]);
      }
    }
  }

  lemma WordOfWord(w: string)
    requires IsWord(w)
    ensures Words(w) == [w]
  {
    SpaceFreeIsOneWord(w, "");
    assert "" + w == w;
  }

  lemma {:induction false} WordsOfWords(words: seq<string>)
    requires AreWords(words)
    ensures AllWords(words) == words
  {
    if words != [] {
      WordsOfWords(words[..|words| - 1]);
      WordOfWord(words[|words| - 1]);
    }
  }

  lemma {:induction false} WordsOfRuns(words: seq<string>, perPiece: nat)
    requires perPiece >= 1 && AreWords(words)
    ensures AllWords(WordRuns(words, perPiece)) == words
  {
    if words != [] {
      if |words| <= perPiece {
        AllWordsOfOne(Join(words, " "));
        WordsOfJoin(words, " ");
        WordsOfWords(words);
      } else {
        var first, rest := words[..perPiece], words[perPiece..];
        WordsOfRuns(rest, perPiece);
        AllWordsOfOne(Join(first, " "));
        WordsOfJoin(first, " ");
        WordsOfWords(first);
        AllWordsConcat([Join(first, " ")], WordRuns(rest, perPiece));
        assert words == first + rest;
      }
    }
  }

  /** Every part but the last has `n` words, and the last at most as many. */
  predicate EvenRuns(parts: seq<string>, n: nat) {
    && (forall i :: 0 <= i < |parts| - 1 ==> |Words(parts[i])| == n)
    && (parts != [] ==> 1 <= |Words(parts[|parts| - 1])| <= n)
  }

  lemma WordsOfRun(words: seq<string>)
    requires AreWords(words)
    ensures Words(Join(words, " ")) == words
  {
    WordsOfJoin(words, " ");
    WordsOfWords(words);
  }

  lemma {:induction false} RunSizes(words: seq<string>, n: nat)
    requires n >= 1 && AreWords(words)
    ensures EvenRuns(WordRuns(words, n), n) && (words != [] ==> WordRuns(words, n) != [])
  {
    if words != [] {
      if |words| <= n {
        WordsOfRun(words);
      } else {
        var first, rest := words[..n], words[n..];
        RunSizes(rest, n);
        WordsOfRun(first);
        var parts := WordRuns(rest, n);
        assert forall i :: 0 < i < |[Join(first, " ")] + parts| ==> ([Join(first, " ")] + parts)[i] == parts[i - 1];
      }
    }
  }

  /** A sentence that is cut is cut after every three words for five tokens of budget, one at the least. */
  lemma HardSplitSizes(text: string, budget: int)
    requires Words(text) != []
    ensures EvenRuns(HardSplit(text, budget), if budget <= 3 then 1 else 3 * budget / 5)
  {
    WordsAreWords(text, "");
    RunSizes(Words(text), PerPiece(budget));
  }

  lemma WordsOfHardSplit(text: string, budget: int)
    ensures AllWords(HardSplit(text, budget)) == Words(text)
  {
    WordsAreWords(text, "");
    WordsOfRuns(Words(text), PerPiece(budget));
    AllWordsOfOne(text);
  }

  // ------------------------------------------------- words of all the pieces

  lemma WordsOfPart(block: Block, sentences: seq<string>, index: nat)
    ensures Words(ProsePart(block, sentences, index).text) == AllWords(sentences)
  {
    WordsOfStrip(Join(sentences, " "));
    WordsOfJoin(sentences, " ");
  }

  lemma {:induction false} WordsOfHardPieces(block: Block, parts: seq<string>, made: nat)
    ensures AllWords(Texts(HardPieces(block, parts, made))) == AllWords(parts)
  {
    if parts != [] {
      var init, last := parts[..|parts| - 1], parts[|parts| - 1];
      WordsOfHardPieces(block, init, made);
      WordsOfPart(block, [last], made + 2 * |init|);
      AllWordsOfOne(last);
      HardPiecesInit(block, parts, made);
    }
  }

  lemma HardPiecesInit(block: Block, parts: seq<string>, made: nat)
    requires parts != []
    ensures var texts, n := Texts(HardPieces(block, parts, made)), |parts| - 1;
            && texts[..n] == Texts(HardPieces(block, parts[..n], made))
            && texts[n] == ProsePart(block, [parts[n]], made + 2 * n).text
  {
  }

  /** The words of the pieces made and of the sentences waiting. */
  function WordsSoFar(st: Progress): seq<string> {
    AllWords(Texts(st.pieces)) + AllWords(st.current)
  }

  lemma WordsOfFlushed(block: Block, st: Progress)
    ensures AllWords(Texts(Flushed(block, st))) == WordsSoFar(st)
  {
    if st.current == [] {
      assert Flushed(block, st) == st.pieces;
    } else {
      var part := ProsePart(block, st.current, |st.pieces|);
      WordsOfPart(block, st.current, |st.pieces|);
      TextsConcat(st.pieces, [part]);
      assert Texts([part]) == [part.text];
      AllWordsSnoc(Texts(st.pieces), part.text);
    }
  }

  lemma KeepWords(st: Progress, next: string)
    ensures WordsSoFar(Progress(st.pieces, st.current + [next])) == WordsSoFar(st) + Words(next)
  {
    AllWordsSnoc(st.current, next);
    Assoc(AllWords(Texts(st.pieces)), AllWords(st.current), Words(next));
  }

  lemma FlushWords(block: Block, st: Progress, next: string)
    ensures WordsSoFar(Progress(Flushed(block, st), [next])) == WordsSoFar(st) + Words(next)
  {
    WordsOfFlushed(block, st);
    AllWordsOfOne(next);
  }

  lemma HardWords(block: Block, st: Progress, next: string, budget: int)
    ensures var made := Flushed(block, st);
            WordsSoFar(Progress(made + HardPieces(block, HardSplit(next, budget), |made|), []))
            == WordsSoFar(st) + Words(next)
  {
    var made := Flushed(block, st);
    var hard := HardPieces(block, HardSplit(next, budget), |made|);
    WordsOfFlushed(block, st);
    WordsOfHardSplit(next, budget);
    WordsOfHardPieces(block, HardSplit(next, budget), |made|);
    TextsConcat(made, hard);
    AllWordsConcat(Texts(made), Texts(hard));
  }

  lemma ProseStepWords(block: Block, st: Progress, next: string, budget: int)
    ensures WordsSoFar(ProseStep(block, st, next, budget)) == WordsSoFar(st) + Words(next)
  {
    if Estimate(next) > budget {
      HardWords(block, st, next, budget);
    } else if st.current != [] && Cost(st.current) + Estimate(next) > budget {
      FlushWords(block, st, next);
    } else {
      KeepWords(st, next);
    }
  }

  lemma {:induction false} ProseFoldWords(block: Block, sentences: seq<string>, budget: int)
    ensures WordsSoFar(ProseFold(block, sentences, budget)) == AllWords(sentences)
  {
    if sentences != [] {
      var init, last := sentences[..|sentences| - 1], sentences[|sentences| - 1];
      ProseFoldWords(block, init, budget);
      ProseStepWords(block, ProseFold(block, init, budget), last, budget);
    }
  }

  /** The pieces of a block of prose hold its words in order: none is broken, merged, lost or repeated. */
  lemma SplitProseKeepsWords(block: Block, budget: int)
    ensures AllWords(Texts(SplitProse(block, budget))) == Words(block.text)
  {
    var sentences := Sentences(block.text);
    ProseFoldWords(block, sentences, budget);
    WordsOfFlushed(block, ProseFold(block, sentences, budget));
    WordsOfSentences(block.text, "");
    assert "" + block.text == block.text;
    assert Texts([block]) == [block.text];
    AllWordsOfOne(block.text);
  }
}
