/** What splitting a piece once more can do to it: nothing grows, and words cut from a sentence stay one sentence. */
module Resplitting {
  import opened Collections
  import opened Text
  import opened Splitting
  import opened ProseWords

  // ------------------------------------------------------------ joined lengths

  /** Characters that texts take up when joined, one separator after each. */
  function Spread(texts: seq<string>): nat {
    if texts == [] then 0 else Spread(texts[..|texts| - 1]) + |texts[|texts| - 1]| + 1
  }

  lemma SpreadSnoc(texts: seq<string>, last: string)
    ensures Spread(texts + [last]) == Spread(texts) + |last| + 1
  {
    assert (texts + [last])[..|texts|] == texts;
  }

  lemma {:induction false} SpreadConcat(a: seq<string>, b: seq<string>)
    ensures Spread(a + b) == Spread(a) + Spread(b)
  {
    if b == [] {
      assert a + b == a;
    } else {
      var init, last := b[..|b| - 1], b[|b| - 1];
      assert a + b == (a + init) + [last];
      SpreadSnoc(a + init, last);
      SpreadConcat(a, init);
    }
  }

  lemma {:induction false} SpreadIsTotal(texts: seq<string>)
    ensures Spread(texts) == TotalLength(texts) + |texts|
  {
    if texts != [] {
      var init, last := texts[..|texts| - 1], texts[|texts| - 1];
      SpreadIsTotal(init);
      assert texts == init + [last];
      TotalLengthSnoc(init, last);
    }
  }

  lemma JoinSpread(texts: seq<string>, sep: string)
    requires texts != [] && |sep| == 1
    ensures |Join(texts, sep)| == Spread(texts) - 1
  {
    JoinLength(texts, sep);
    SpreadIsTotal(texts);
  }

  lemma PartsSpread(texts: seq<string>, i: nat)
    requires i <= |texts|
    ensures Spread(texts[..i]) <= Spread(texts) && Spread(texts[i..]) <= Spread(texts)
  {
    SpreadConcat(texts[..i], texts[i..]);
    assert texts == texts[..i] + texts[i..];
  }

  lemma SliceSpread(texts: seq<string>, i: nat, j: nat)
    requires i <= j <= |texts|
    ensures Spread(texts[i..j]) <= Spread(texts)
  {
    PartsSpread(texts, j);
    PartsSpread(texts[..j], i);
    assert texts[..j][i..] == texts[i..j];
  }

  lemma SpreadOfOne(text: string)
    ensures Spread([text]) == |text| + 1
  {
    SpreadSnoc([], text);
    assert [] + [text] == [text];
  }

  // ------------------------------------------------------- sentences and rows

  /** Sentences are separated by white space, so joining them with single spaces gives no more than the text. */
  lemma {:induction false} SentencesSpread(s: string, sentence: string)
    ensures Spread(SentencesFrom(s, sentence)) <= |sentence| + |s| + 1
    decreases |s|
  {
    if s == "" {
      SpreadOfOne(sentence);
    } else if IsSpace(s[0]) && EndsSentence(sentence) {
      SentencesSpread(DropSpaces(s), "");
      SpreadConcat([sentence], SentencesFrom(DropSpaces(s), ""));
      SpreadOfOne(sentence);
    } else {
      SentencesSpread(s[1..], sentence + [s[0]]);
    }
  }

  lemma {:induction false} RowsSpread(s: string, row: string)
    ensures Spread(RowsFrom(s, row)) <= |row| + |s| + 1
  {
    SpreadOfOne(row);
    if s != "" {
      if IsLineBreak(s[0]) {
        RowsSpread(s[1..], "");
        SpreadConcat(NonBlank(row), RowsFrom(s[1..], ""));
      } else {
        RowsSpread(s[1..], row + [s[0]]);
      }
    }
  }

  /** A run of a block's sentences is no longer than the block. */
  lemma PackedIsShorter(x: Block, piece: Block, budget: int)
    requires Packed(x, piece, budget)
    ensures |piece.text| <= |x.text|
  {
    var all := Sentences(x.text);
    var i: nat, j: nat, index: nat :|
      i < j <= |all| && Cost(all[i..j]) <= budget && piece == ProsePart(x, all[i..j], index);
    SentencesSpread(x.text, "");
    SliceSpread(all, i, j);
    JoinSpread(all[i..j], " ");
    StripKeepsInk(Join(all[i..j], " "));
  }

  lemma {:induction false} GroupSpread(groups: seq<seq<string>>, i: nat)
    requires i < |groups|
    ensures Spread(groups[i]) <= Spread(Flatten(groups))
  {
    var init, last := groups[..|groups| - 1], groups[|groups| - 1];
    SpreadConcat(Flatten(init), last);
    if i < |init| {
      GroupSpread(init, i);
    }
  }

  lemma PartSpread(header: string, groups: seq<seq<string>>, i: nat)
    requires i < |groups|
    ensures |Join([header] + groups[i], "\n")| <= Spread([header] + Flatten(groups)) - 1
  {
    GroupSpread(groups, i);
    JoinSpread([header] + groups[i], "\n");
    SpreadConcat([header], groups[i]);
    SpreadConcat([header], Flatten(groups));
  }

  /** A piece of a table is no longer than the table. */
  lemma TablePieceIsShorter(x: Block, piece: Block, budget: int)
    requires piece in SplitTable(x, budget)
    ensures |piece.text| <= |x.text|
  {
    var rows := Rows(x.text);
    if |rows| > 1 {
      SplitTableKeepsRows(x, budget);
      var groups := RowGroups(rows[0], rows[1..], budget);
      var i := TablePieceAt(x, rows[0], groups, piece);
      PartSpread(rows[0], groups, i);
      assert rows == [rows[0]] + rows[1..];
      RowsSpread(x.text, "");
    }
  }

  // ----------------------------------------------- words cut from a sentence

  /** No white space follows the end of a sentence. */
  predicate Whole(s: string) {
    forall i :: 0 < i < |s| && IsSpace(s[i]) ==> s[i - 1] !in {'.', '!', '?'}
  }

  lemma WholeSnoc(s: string, c: char)
    requires Whole(s) && !(IsSpace(c) && EndsSentence(s))
    ensures Whole(s + [c])
  {
    var t := s + [c];
    assert forall i :: 0 <= i < |s| ==> t[i] == s[i];
  }

  predicate AllWhole(sentences: seq<string>) {
    forall i :: 0 <= i < |sentences| ==> Whole(sentences[i])
  }

  lemma {:induction false} SentencesAreWhole(s: string, sentence: string)
    requires Whole(sentence)
    ensures AllWhole(SentencesFrom(s, sentence))
    decreases |s|
  {
    if s != "" {
      if IsSpace(s[0]) && EndsSentence(sentence) {
        SentencesAreWhole(DropSpaces(s), "");
      } else {
        WholeSnoc(sentence, s[0]);
        SentencesAreWhole(s[1..], sentence + [s[0]]);
      }
    }
  }

  lemma {:induction false} WholeIsOneSentence(s: string, sentence: string)
    requires Whole(sentence + s)
    ensures SentencesFrom(s, sentence) == [sentence + s]
    decreases |s|
  {
    if s == "" {
      assert sentence + s == sentence;
    } else {
      assert (sentence + s)[|sentence|] == s[0];
      assert sentence != "" ==> (sentence + s)[|sentence| - 1] == sentence[|sentence| - 1];
      assert sentence + [s[0]] + s[1..] == sentence + s;
      WholeIsOneSentence(s[1..], sentence + [s[0]]);
    }
  }

  /** Words, of which only the last can end a sentence. */
  predicate OpenWords(words: seq<string>) {
    AreWords(words) && forall i :: 0 <= i && i + 1 < |words| ==> !EndsSentence(words[i])
  }

  lemma {:induction false} OpenFrom(s: string, run: string)
    requires SpaceFree(run) && Whole(run + s)
    ensures OpenWords(WordsFrom(s, run))
  {
    if s != "" {
      assert (run + s)[|run|] == s[0];
      if IsSpace(s[0]) {
        assert run != "" ==> (run + s)[|run| - 1] == run[|run| - 1];
        assert run + s == run + [s[0]] + s[1..] && "" + s[1..] == s[1..];
        WholeTail(run + [s[0]], s[1..]);
        OpenFrom(s[1..], "");
        OpenCons(run, WordsFrom(s[1..], ""));
      } else {
        assert run + [s[0]] + s[1..] == run + s;
        OpenFrom(s[1..], run + [s[0]]);
      }
    }
  }

  lemma OpenCons(run: string, words: seq<string>)
    requires SpaceFree(run) && !EndsSentence(run) && OpenWords(words)
    ensures OpenWords(NonEmpty(run) + words)
  {
    if run != "" {
      var all := [run] + words;
      assert forall i :: 0 < i < |all| ==> all[i] == words[i - 1];
    }
  }

  lemma WholeTail(a: string, b: string)
    requires Whole(a + b)
    ensures Whole(b)
  {
    forall i | 0 < i < |b| && IsSpace(b[i])
      ensures b[i - 1] !in {'.', '!', '?'}
    {
      assert (a + b)[|a| + i] == b[i] && (a + b)[|a| + i - 1] == b[i - 1];
    }
  }

  lemma WordThenWhole(w: string, rest: string)
    requires IsWord(w) && !EndsSentence(w) && Whole(rest) && rest != "" && !IsSpace(rest[0])
    ensures Whole(w + " " + rest)
  {
    var s := w + " " + rest;
    assert forall k :: 0 <= k < |w| ==> s[k] == w[k];
    assert forall k :: 0 <= k < |rest| ==> s[|w| + 1 + k] == rest[k];
    forall i | |w| < i < |s| && IsSpace(s[i])
      ensures s[i - 1] !in {'.', '!', '?'}
    {
      assert s[i] == rest[i - |w| - 1] && s[i - 1] == rest[i - |w| - 2];
    }
  }

  lemma {:induction false} JoinIsWhole(words: seq<string>)
    requires OpenWords(words) && words != []
    ensures Whole(Join(words, " ")) && Trimmed(Join(words, " "))
  {
    assert IsWord(words[0]);
    if |words| > 1 {
      assert forall i :: 0 <= i < |words| - 1 ==> words[1..][i] == words[i + 1];
      JoinIsWhole(words[1..]);
      WordThenWhole(words[0], Join(words[1..], " "));
    }
  }

  predicate AllOneSentence(parts: seq<string>) {
    forall i :: 0 <= i < |parts| ==> Whole(parts[i]) && Trimmed(parts[i])
  }

  lemma {:induction false} RunsAreWhole(words: seq<string>, perPiece: nat)
    requires OpenWords(words) && perPiece >= 1
    ensures AllOneSentence(WordRuns(words, perPiece))
  {
    if words != [] {
      if |words| <= perPiece {
        JoinIsWhole(words);
      } else {
        JoinIsWhole(words[..perPiece]);
        RunsAreWhole(words[perPiece..], perPiece);
      }
    }
  }

  lemma PartIsOneSentence(sentence: string, budget: int, part: string)
    requires Whole(sentence) && part in HardSplit(sentence, budget)
    ensures Sentences(Strip(part)) == [Strip(part)]
  {
    if Words(sentence) == [] {
      WordsKeepInk(sentence, "");
      StripKeepsInk(sentence);
    } else {
      assert "" + sentence == sentence;
      OpenFrom(sentence, "");
      RunsAreWhole(Words(sentence), PerPiece(budget));
      var k :| 0 <= k < |HardSplit(sentence, budget)| && HardSplit(sentence, budget)[k] == part;
      TrimmedStaysWhole(part);
      assert "" + part == part;
      WholeIsOneSentence(part, "");
    }
  }

  /** Words cut from a sentence are one sentence. */
  lemma CutIsOneSentence(x: Block, piece: Block, budget: int)
    requires Cut(x, piece, budget)
    ensures Sentences(piece.text) == [piece.text]
  {
    var sentence: string, part: string, index: nat :|
      && sentence in Sentences(x.text) && Estimate(sentence) > budget && part in HardSplit(sentence, budget)
      && piece == ProsePart(x, [part], index);
    SentencesAreWhole(x.text, "");
    var i :| 0 <= i < |Sentences(x.text)| && Sentences(x.text)[i] == sentence;
    PartIsOneSentence(sentence, budget, part);
  }

  lemma OnlySentence(x: Block, piece: Block, budget: int)
    requires Sentences(x.text) == [x.text] && Packed(x, piece, budget)
    ensures Estimate(x.text) <= budget
  {
    var all := Sentences(x.text);
    var i: nat, j: nat, index: nat :|
      i < j <= |all| && Cost(all[i..j]) <= budget && piece == ProsePart(x, all[i..j], index);
    assert all[i..j] == [] + [x.text];
    CostSnoc([], x.text);
  }

  /** So they are packed again only if they fit the budget. */
  lemma CutIsPackedWhole(x: Block, piece: Block, first: int, q: Block, budget: int)
    requires Cut(x, piece, first) && Packed(piece, q, budget)
    ensures Estimate(piece.text) <= budget
  {
    CutIsOneSentence(x, piece, first);
    OnlySentence(piece, q, budget);
  }

  // ----------------------------------------------------- a header and one row

  predicate OneLine(s: string) {
    forall i :: 0 <= i < |s| ==> !IsLineBreak(s[i])
  }

  predicate AllOneLine(rows: seq<string>) {
    forall i :: 0 <= i < |rows| ==> OneLine(rows[i])
  }

  lemma {:induction false} RowsAreLines(s: string, row: string)
    requires OneLine(row)
    ensures AllOneLine(RowsFrom(s, row))
  {
    if s != "" {
      if IsLineBreak(s[0]) {
        RowsAreLines(s[1..], "");
      } else {
        RowsAreLines(s[1..], row + [s[0]]);
      }
    }
  }

  lemma {:induction false} LineIsRead(line: string, rest: string, row: string)
    requires OneLine(line)
    ensures RowsFrom(line + rest, row) == RowsFrom(rest, row + line)
  {
    if line == "" {
      assert line + rest == rest && row + line == row;
    } else {
      assert (line + rest)[0] == line[0] && (line + rest)[1..] == line[1..] + rest;
      assert row + [line[0]] + line[1..] == row + line;
      LineIsRead(line[1..], rest, row + [line[0]]);
    }
  }

  lemma RowsOfTwo(header: string, row: string)
    requires OneLine(header) && OneLine(row) && !Blank(header) && !Blank(row)
    ensures Rows(header + "\n" + row) == [header, row]
  {
    var rest := "\n" + row;
    assert header + "\n" + row == header + rest && "" + header == header;
    LineIsRead(header, rest, "");
    assert rest[0] == '\n' && rest[1..] == row;
    assert row + "" == row && "" + row == row;
    LineIsRead(row, "", "");
  }

  /** A header and one row are split as they are, if they are split at all. */
  lemma TwoRowsStay(x: Block, header: string, row: string, budget: int)
    requires Rows(x.text) == [header, row]
    ensures SplitTable(x, budget) == [TablePart(x, header, [row], 0)]
  {
    var rows := Rows(x.text);
    assert rows[1..] == [row] && [row][..0] == [];
    assert RowFold(header, [], budget) == RowProgress([], []);
    assert [] + [row] == [row];
    assert RowFold(header, [row], budget) == RowProgress([], [row]);
    var none: seq<seq<string>> := [];
    assert none + [[row]] == [[row]] && RowGroups(header, [row], budget) == none + [[row]];
    assert [[row]][..0] == none && TablePieces(x, header, none) == [];
    assert TablePieces(x, header, [[row]]) == [] + [TablePart(x, header, [row], 0)];
  }

  lemma JoinOfTwo(header: string, row: string)
    ensures Join([header] + [row], "\n") == header + "\n" + row
  {
    assert ([header] + [row])[1..] == [row];
  }

  /** Splitting a table of a header and one row, at any budget, gives its text again. */
  lemma TwoRowsAgain(x: Block, header: string, row: string, budget: int)
    requires OneLine(header) && OneLine(row) && !Blank(header) && !Blank(row) && x.text == header + "\n" + row
    ensures Rows(x.text) == [header, row]
    ensures SplitTable(x, budget) == [TablePart(x, header, [row], 0)] && TablePart(x, header, [row], 0).text == x.text
  {
    RowsOfTwo(header, row);
    TwoRowsStay(x, header, row, budget);
    JoinOfTwo(header, row);
  }

  lemma OneRowTooLong(x: Block, piece: Block, header: string, row: string, budget: int)
    requires Rows(x.text) == [header, row] && piece == TablePart(x, header, [row], 0)
    ensures RowTooLong(x, piece, budget) <==> Estimate(header) + Estimate(row) > budget
  {
    var rows := Rows(x.text);
    assert rows[1..] == [row] && row in rows[1..] && forall r <- rows[1..] :: r == row;
    if Estimate(header) + Estimate(row) > budget {
      var i: nat := 0;
      assert row in rows[1..] && Estimate(rows[0]) + Estimate(row) > budget && piece == TablePart(x, rows[0], [row], i);
    }
  }

  /** Two texts that cost no more than the budget are longest if one of them costs one token. */
  lemma TwoTexts(a: string, b: string, budget: int)
    requires Estimate(a) + Estimate(b) <= budget
    ensures |a| + 1 + |b| <= 8 + (18 * budget - 1) / 5
  {
    var i, j := Estimate(a), Estimate(b);
    assert |a| <= (18 * i + 17) / 5 && |b| <= (18 * j + 17) / 5;
    LeastLoss(i, j);
    assert (18 * (i + j) - 1) / 5 <= (18 * budget - 1) / 5;
  }

  lemma LeastLoss(i: nat, j: nat)
    requires i >= 1 && j >= 1
    ensures (18 * i + 17) / 5 + (18 * j + 17) / 5 <= 7 + (18 * (i + j) - 1) / 5
  {
  }
}
