/**
 Blocks, their estimated cost in tokens, and how a block too large for a budget is
 broken up: a table between its rows, prose between its sentences.
 */
module Splitting {
  import opened Collections
  import opened Text

  datatype Kind = Heading | Paragraph | Table | OtherContent | Footer | Header

  /** `name`, or `<block>#r<index>` and `<block>#p<index>` for the pieces of a block. */
  datatype BlockId = Named(name: string) | RowPiece(of: BlockId, index: nat) | ProsePiece(of: BlockId, index: nat)

  datatype Block = Block(id: BlockId, pageNo: int, kind: Kind, text: string, order: int, level: int)

  /** 3.6 characters to a token, rounded down, and never zero. */
  function Estimate(text: string): (t: nat)
    ensures t >= 1 && 5 * |text| <= 18 * t + 17
    ensures t > 1 ==> 18 * t <= 5 * |text|
  {
    var t := 5 * |text| / 18;
    if t < 1 then 1 else t
  }

  function Cost(texts: seq<string>): nat {
    if texts == [] then 0 else Cost(texts[..|texts| - 1]) + Estimate(texts[|texts| - 1])
  }

  lemma {:induction false} CostBoundsLength(texts: seq<string>)
    ensures |texts| <= Cost(texts)
    ensures 5 * TotalLength(texts) <= 18 * Cost(texts) + 17 * |texts|
  {
    if texts != [] {
      var init := texts[..|texts| - 1];
      CostBoundsLength(init);
      assert texts == init + [texts[|texts| - 1]];
      TotalLengthSnoc(init, texts[|texts| - 1]);
    }
  }

  lemma {:induction false} TotalLengthSnoc(texts: seq<string>, last: string)
    ensures TotalLength(texts + [last]) == TotalLength(texts) + |last|
  {
    if texts == [] {
      assert [last][1..] == [];
    } else {
      TotalLengthSnoc(texts[1..], last);
      assert (texts + [last])[1..] == texts[1..] + [last];
    }
  }

  /**
   Texts that cost T together have at most 8 T - 1 characters once joined, and so
   estimate to at most 40 T / 18: the rounding of each and the separators between
   them cannot add up to more.
   */
  lemma JoinedEstimate(texts: seq<string>, sep: string)
    requires texts != [] && |sep| == 1
    ensures 5 * |Join(texts, sep)| <= 40 * Cost(texts) - 5
    ensures |Strip(Join(texts, sep))| <= |Join(texts, sep)|
    ensures 18 * Estimate(Strip(Join(texts, sep))) <= 40 * Cost(texts)
  {
    CostBoundsLength(texts);
    JoinLength(texts, sep);
    StripKeepsInk(Join(texts, sep));
  }

  // ------------------------------------------------------------------- prose

  function ProsePart(block: Block, sentences: seq<string>, index: nat): Block {
    block.(id := ProsePiece(block.id, index), text := Strip(Join(sentences, " ")))
  }

  /** Words to a piece when a sentence is cut, at about six characters to the word. */
  function PerPiece(budget: int): (n: nat)
    ensures n >= 1
  {
    if 3 * budget / 5 < 1 then 1 else 3 * budget / 5
  }

  /** `_hard_split`: runs of words. */
  function HardSplit(text: string, budget: int): (parts: seq<string>)
    ensures parts != []
  {
    var parts := WordRuns(Words(text), PerPiece(budget));
    if parts == [] then [text] else parts
  }

  function WordRuns(words: seq<string>, perPiece: nat): seq<string>
    requires perPiece >= 1
  {
    if words == [] then []
    else if |words| <= perPiece then [Join(words, " ")]
    else [Join(words[..perPiece], " ")] + WordRuns(words[perPiece..], perPiece)
  }

  /**
   The pieces of one hard-split sentence. The list grows while its own length is
   read, so the indices go up in twos.
   */
  function HardPieces(block: Block, parts: seq<string>, made: nat): seq<Block> {
    seq(|parts|, k requires 0 <= k < |parts| => ProsePart(block, [parts[k]], made + 2 * k))
  }

  /** Pieces made so far, and the sentences waiting to go into the next one. */
  datatype Progress = Progress(pieces: seq<Block>, current: seq<string>)

  function Flushed(block: Block, st: Progress): seq<Block> {
    st.pieces + if st.current == [] then [] else [ProsePart(block, st.current, |st.pieces|)]
  }

  function ProseStep(block: Block, st: Progress, next: string, budget: int): Progress {
    if Estimate(next) > budget then
      var flushed := Flushed(block, st);
      Progress(flushed + HardPieces(block, HardSplit(next, budget), |flushed|), [])
    else if st.current != [] && Cost(st.current) + Estimate(next) > budget then
      Progress(Flushed(block, st), [next])
    else Progress(st.pieces, st.current + [next])
  }

  function ProseFold(block: Block, sentences: seq<string>, budget: int): Progress {
    if sentences == [] then Progress([], [])
    else ProseStep(block, ProseFold(block, sentences[..|sentences| - 1], budget), sentences[|sentences| - 1], budget)
  }

  function SplitProse(block: Block, budget: int): seq<Block> {
    var pieces := Flushed(block, ProseFold(block, Sentences(block.text), budget));
    if pieces == [] then [block] else pieces
  }

  lemma ProseFoldNext(block: Block, sentences: seq<string>, i: nat, budget: int)
    requires i < |sentences|
    ensures ProseFold(block, sentences[..i + 1], budget)
            == ProseStep(block, ProseFold(block, sentences[..i], budget), sentences[i], budget)
  {
    assert sentences[..i + 1][..i] == sentences[..i];
  }

  /** The body of the sentence loop. */
  method AddSentence(block: Block, pieces: seq<Block>, current: seq<string>, currentTokens: nat, sentence: string,
                     budget: int)
    returns (pieces': seq<Block>, current': seq<string>, currentTokens': nat)
    requires currentTokens == Cost(current)
    ensures Progress(pieces', current') == ProseStep(block, Progress(pieces, current), sentence, budget)
    ensures currentTokens' == Cost(current')
  {
    pieces', current', currentTokens' := pieces, current, currentTokens;
    ghost var made := Flushed(block, Progress(pieces, current));
    assert current == [] ==> made == pieces;
    var tokens := Estimate(sentence);
    if tokens > budget {
      if current' != [] {
        pieces' := pieces' + [ProsePart(block, current', |pieces'|)];
        current', currentTokens' := [], 0;
      }
      pieces' := pieces' + HardPieces(block, HardSplit(sentence, budget), |pieces'|);
      return;
    }
    if current' != [] && currentTokens' + tokens > budget {
      pieces' := pieces' + [ProsePart(block, current', |pieces'|)];
      current', currentTokens' := [], 0;
    }
    CostSnoc(current', sentence);
    current' := current' + [sentence];
    currentTokens' := currentTokens' + tokens;
  }

  method SplitProseLoop(block: Block, budget: int) returns (pieces: seq<Block>)
    ensures pieces == SplitProse(block, budget)
  {
    var sentences := Sentences(block.text);
    pieces := [];
    var current: seq<string> := [];
    var currentTokens := 0;
    for i := 0 to |sentences|
      invariant currentTokens == Cost(current)
      invariant Progress(pieces, current) == ProseFold(block, sentences[..i], budget)
    {
      ProseFoldNext(block, sentences, i, budget);
      pieces, current, currentTokens := AddSentence(block, pieces, current, currentTokens, sentences[i], budget);
    }
    assert sentences[..|sentences|] == sentences;
    if current != [] {
      pieces := pieces + [ProsePart(block, current, |pieces|)];
    }
    if pieces == [] {
      pieces := [block];
    }
  }

  lemma CostSnoc(texts: seq<string>, last: string)
    ensures Cost(texts + [last]) == Cost(texts) + Estimate(last)
  {
    assert (texts + [last])[..|texts|] == texts;
  }

  function Texts(blocks: seq<Block>): (r: seq<string>)
    ensures |r| == |blocks| && forall i :: 0 <= i < |blocks| ==> r[i] == blocks[i].text
  {
    seq(|blocks|, i requires 0 <= i < |blocks| => blocks[i].text)
  }

  lemma TextsConcat(a: seq<Block>, b: seq<Block>)
    ensures Texts(a + b) == Texts(a) + Texts(b)
  {
  }

  lemma {:induction false} WordRunsKeepInk(words: seq<string>, perPiece: nat)
    requires perPiece >= 1
    ensures InkOfAll(WordRuns(words, perPiece)) == InkOfAll(words)
  {
    if words != [] {
      if |words| <= perPiece {
        JoinKeepsInk(words, " ");
        InkOfOne(Join(words, " "));
      } else {
        WordRunsKeepInk(words[perPiece..], perPiece);
        JoinKeepsInk(words[..perPiece], " ");
        InkOfOne(Join(words[..perPiece], " "));
        InkOfAllConcat([Join(words[..perPiece], " ")], WordRuns(words[perPiece..], perPiece));
        InkOfAllConcat(words[..perPiece], words[perPiece..]);
        assert words == words[..perPiece] + words[perPiece..];
      }
    }
  }

  lemma HardSplitKeepsInk(text: string, budget: int)
    ensures InkOfAll(HardSplit(text, budget)) == Ink(text)
  {
    WordsKeepInk(text, "");
    WordRunsKeepInk(Words(text), PerPiece(budget));
    InkOfOne(text);
  }

  lemma ProsePartInk(block: Block, sentences: seq<string>, index: nat)
    ensures Ink(ProsePart(block, sentences, index).text) == InkOfAll(sentences)
  {
    StripKeepsInk(Join(sentences, " "));
    JoinKeepsInk(sentences, " ");
  }

  lemma HardPiecesRest(block: Block, parts: seq<string>, made: nat)
    requires parts != []
    ensures var texts := Texts(HardPieces(block, parts, made));
            texts[0] == ProsePart(block, [parts[0]], made).text &&
            texts[1..] == Texts(HardPieces(block, parts[1..], made + 2))
  {
  }

  lemma {:induction false} HardPiecesKeepInk(block: Block, parts: seq<string>, made: nat)
    ensures InkOfAll(Texts(HardPieces(block, parts, made))) == InkOfAll(parts)
  {
    if parts != [] {
      var texts, rest := Texts(HardPieces(block, parts, made)), parts[1..];
      ProsePartInk(block, [parts[0]], made);
      InkOfOne(parts[0]);
      HardPiecesKeepInk(block, rest, made + 2);
      HardPiecesRest(block, parts, made);
      assert Ink(texts[0]) == Ink(parts[0]);
    }
  }

  lemma FlushedInk(block: Block, st: Progress)
    ensures InkOfAll(Texts(Flushed(block, st))) == InkOfAll(Texts(st.pieces)) + InkOfAll(st.current)
  {
    if st.current == [] {
      assert Flushed(block, st) == st.pieces;
    } else {
      var part := ProsePart(block, st.current, |st.pieces|);
      ProsePartInk(block, st.current, |st.pieces|);
      TextsConcat(st.pieces, [part]);
      InkOfOne(part.text);
      assert Texts([part]) == [part.text];
      InkOfAllConcat(Texts(st.pieces), [part.text]);
    }
  }

  lemma InkOfAllSnoc(parts: seq<string>, last: string)
    ensures InkOfAll(parts + [last]) == InkOfAll(parts) + Ink(last)
  {
    InkOfAllConcat(parts, [last]);
    InkOfOne(last);
  }

  /** The ink of the pieces made and of the sentences waiting. */
  function InkSoFar(st: Progress): string {
    InkOfAll(Texts(st.pieces)) + InkOfAll(st.current)
  }

  lemma CutInk(block: Block, made: seq<Block>, next: string, budget: int)
    ensures InkOfAll(Texts(made + HardPieces(block, HardSplit(next, budget), |made|)))
            == InkOfAll(Texts(made)) + Ink(next)
  {
    var hard := HardPieces(block, HardSplit(next, budget), |made|);
    HardSplitKeepsInk(next, budget);
    HardPiecesKeepInk(block, HardSplit(next, budget), |made|);
    TextsConcat(made, hard);
    InkOfAllConcat(Texts(made), Texts(hard));
  }

  lemma KeepInk(st: Progress, next: string)
    ensures InkSoFar(Progress(st.pieces, st.current + [next])) == InkSoFar(st) + Ink(next)
  {
    InkOfAllSnoc(st.current, next);
    Assoc(InkOfAll(Texts(st.pieces)), InkOfAll(st.current), Ink(next));
  }

  lemma FlushInk(block: Block, st: Progress, next: string)
    ensures InkSoFar(Progress(Flushed(block, st), [next])) == InkSoFar(st) + Ink(next)
  {
    FlushedInk(block, st);
    InkOfOne(next);
  }

  lemma HardInk(block: Block, st: Progress, next: string, budget: int)
    ensures var made := Flushed(block, st);
            InkSoFar(Progress(made + HardPieces(block, HardSplit(next, budget), |made|), []))
            == InkSoFar(st) + Ink(next)
  {
    FlushedInk(block, st);
    CutInk(block, Flushed(block, st), next, budget);
  }

  lemma ProseStepInk(block: Block, st: Progress, next: string, budget: int)
    ensures InkSoFar(ProseStep(block, st, next, budget)) == InkSoFar(st) + Ink(next)
  {
    if Estimate(next) > budget {
      HardInk(block, st, next, budget);
    } else if st.current != [] && Cost(st.current) + Estimate(next) > budget {
      FlushInk(block, st, next);
    } else {
      KeepInk(st, next);
    }
  }

  lemma {:induction false} ProseFoldInk(block: Block, sentences: seq<string>, budget: int)
    ensures InkSoFar(ProseFold(block, sentences, budget)) == InkOfAll(sentences)
  {
    if sentences != [] {
      var init, last := sentences[..|sentences| - 1], sentences[|sentences| - 1];
      var st := ProseFold(block, init, budget);
      assert sentences == init + [last];
      InkOfAllSnoc(init, last);
      ProseFoldInk(block, init, budget);
      ProseStepInk(block, st, last, budget);
      assert ProseFold(block, sentences, budget) == ProseStep(block, st, last, budget);
    }
  }

  /** Splitting prose loses nothing but white space, and keeps the order. */
  lemma SplitProseKeepsInk(block: Block, budget: int)
    ensures InkOfAll(Texts(SplitProse(block, budget))) == Ink(block.text)
  {
    var sentences := Sentences(block.text);
    var st := ProseFold(block, sentences, budget);
    ProseFoldInk(block, sentences, budget);
    SentencesKeepInk(block.text, "");
    FlushedInk(block, st);
    InkOfOne(block.text);
    assert Texts([block]) == [block.text];
  }

  // ------------------------------------------------- how large a piece can be

  /** A piece made of a run of the block's sentences that fit the budget together. */
  ghost predicate Packed(block: Block, piece: Block, budget: int) {
    var all := Sentences(block.text);
    exists i: nat, j: nat, index: nat ::
      i < j <= |all| && Cost(all[i..j]) <= budget && piece == ProsePart(block, all[i..j], index)
  }

  /** A piece cut by words out of one sentence of the block that does not fit the budget. */
  ghost predicate Cut(block: Block, piece: Block, budget: int) {
    exists sentence: string, part: string, index: nat ::
      && sentence in Sentences(block.text) && Estimate(sentence) > budget && part in HardSplit(sentence, budget)
      && piece == ProsePart(block, [part], index)
  }

  ghost predicate PackedOrCut(block: Block, pieces: seq<Block>, budget: int) {
    forall piece <- pieces :: Packed(block, piece, budget) || Cut(block, piece, budget)
  }

  lemma HardPiecesAreCut(block: Block, sentence: string, made: nat, budget: int)
    requires sentence in Sentences(block.text) && Estimate(sentence) > budget
    ensures PackedOrCut(block, HardPieces(block, HardSplit(sentence, budget), made), budget)
  {
    var parts := HardSplit(sentence, budget);
    forall k | 0 <= k < |parts|
      ensures Cut(block, ProsePart(block, [parts[k]], made + 2 * k), budget)
    {
      assert parts[k] in parts;
    }
  }

  /** What waits is the run that ends before sentence `n`, and fits the budget. */
  predicate Waiting(all: seq<string>, n: nat, current: seq<string>, budget: int) {
    && |current| <= n <= |all| && current == all[n - |current|..n]
    && (current == [] || Cost(current) <= budget)
  }

  lemma FlushedIsPacked(block: Block, st: Progress, n: nat, budget: int)
    requires PackedOrCut(block, st.pieces, budget) && Waiting(Sentences(block.text), n, st.current, budget)
    ensures PackedOrCut(block, Flushed(block, st), budget)
  {
    if st.current != [] {
      var all := Sentences(block.text);
      assert st.current == all[n - |st.current|..n];
      assert Packed(block, ProsePart(block, st.current, |st.pieces|), budget);
    }
  }

  lemma RunGrows(all: seq<string>, current: seq<string>, n: nat)
    requires |current| <= n < |all| && current == all[n - |current|..n]
    ensures current + [all[n]] == all[n - |current|..n + 1] && [all[n]] == all[n..n + 1]
  {
  }

  lemma OneWaits(all: seq<string>, n: nat, budget: int)
    requires n < |all| && Estimate(all[n]) <= budget
    ensures Waiting(all, n + 1, [all[n]], budget)
  {
    CostSnoc([], all[n]);
    assert [] + [all[n]] == [all[n]] == all[n..n + 1];
  }

  lemma MoreWait(all: seq<string>, n: nat, current: seq<string>, budget: int)
    requires n < |all| && Waiting(all, n, current, budget) && Cost(current) + Estimate(all[n]) <= budget
    ensures Waiting(all, n + 1, current + [all[n]], budget)
  {
    CostSnoc(current, all[n]);
    RunGrows(all, current, n);
  }

  lemma StepWaits(block: Block, st: Progress, all: seq<string>, n: nat, budget: int)
    requires n < |all| && Waiting(all, n, st.current, budget)
    ensures Waiting(all, n + 1, ProseStep(block, st, all[n], budget).current, budget)
  {
    if Estimate(all[n]) > budget {
      assert ProseStep(block, st, all[n], budget).current == [];
    } else if st.current != [] && Cost(st.current) + Estimate(all[n]) > budget {
      OneWaits(all, n, budget);
    } else {
      MoreWait(all, n, st.current, budget);
    }
  }

  lemma StepPacks(block: Block, st: Progress, n: nat, budget: int)
    requires n < |Sentences(block.text)|
    requires PackedOrCut(block, st.pieces, budget) && Waiting(Sentences(block.text), n, st.current, budget)
    ensures PackedOrCut(block, ProseStep(block, st, Sentences(block.text)[n], budget).pieces, budget)
  {
    var next := Sentences(block.text)[n];
    FlushedIsPacked(block, st, n, budget);
    if Estimate(next) > budget {
      HardPiecesAreCut(block, next, |Flushed(block, st)|, budget);
    }
  }

  /** The state after the first `n` sentences. */
  ghost predicate PacksUpTo(block: Block, st: Progress, n: nat, budget: int) {
    PackedOrCut(block, st.pieces, budget) && Waiting(Sentences(block.text), n, st.current, budget)
  }

  lemma PacksNext(block: Block, st: Progress, n: nat, budget: int)
    requires n < |Sentences(block.text)| && PacksUpTo(block, st, n, budget)
    ensures PacksUpTo(block, ProseStep(block, st, Sentences(block.text)[n], budget), n + 1, budget)
  {
    StepWaits(block, st, Sentences(block.text), n, budget);
    StepPacks(block, st, n, budget);
  }

  lemma {:induction false} ProseFoldPacks(block: Block, n: nat, budget: int)
    requires n <= |Sentences(block.text)|
    ensures PacksUpTo(block, ProseFold(block, Sentences(block.text)[..n], budget), n, budget)
  {
    if n > 0 {
      var all := Sentences(block.text);
      ProseFoldPacks(block, n - 1, budget);
      PacksNext(block, ProseFold(block, all[..n - 1], budget), n - 1, budget);
      ProseFoldNext(block, all, n - 1, budget);
    }
  }

  /** Every piece of a block of prose is a run of fitting sentences, or cut out of one that does not fit. */
  lemma ProsePiecesPackedOrCut(block: Block, budget: int)
    ensures PackedOrCut(block, SplitProse(block, budget), budget)
  {
    var all := Sentences(block.text);
    var n := |all|;
    assert all[..n] == all;
    ProseFoldPacks(block, n, budget);
    FlushedIsPacked(block, ProseFold(block, all, budget), n, budget);
    ProseStepMakesSomething(block, ProseFold(block, all[..n - 1], budget), all[n - 1], budget);
  }

  lemma ProseStepMakesSomething(block: Block, st: Progress, next: string, budget: int)
    ensures Flushed(block, ProseStep(block, st, next, budget)) != []
  {
  }

  lemma PackedLength(block: Block, piece: Block, budget: int)
    requires Packed(block, piece, budget)
    ensures 5 * |piece.text| <= 40 * budget - 5
  {
    var all := Sentences(block.text);
    var i: nat, j: nat, index: nat :|
      i < j <= |all| && Cost(all[i..j]) <= budget && piece == ProsePart(block, all[i..j], index);
    JoinedEstimate(all[i..j], " ");
  }

  predicate SpaceFree(s: string) {
    forall i :: 0 <= i < |s| ==> !IsSpace(s[i])
  }

  lemma {:induction false} SpaceFreeIsOneWord(s: string, run: string)
    requires SpaceFree(s)
    ensures WordsFrom(s, run) == NonEmpty(run + s)
    ensures SentencesFrom(s, run) == [run + s]
  {
    if s == "" {
      assert run + s == run;
    } else {
      SpaceFreeIsOneWord(s[1..], run + [s[0]]);
      assert run + [s[0]] + s[1..] == run + s;
    }
  }

  // ------------------------------------------------------------------- table

  function TablePart(block: Block, header: string, rows: seq<string>, index: nat): Block {
    block.(id := RowPiece(block.id, index), text := Join([header] + rows, "\n"))
  }

  /** The body rows of the pieces made so far, and those waiting for the next one. */
  datatype RowProgress = RowProgress(groups: seq<seq<string>>, current: seq<string>)

  function RowStep(header: string, st: RowProgress, row: string, budget: int): RowProgress {
    if st.current != [] && Estimate(header) + Cost(st.current) + Estimate(row) > budget then
      RowProgress(st.groups + [st.current], [row])
    else RowProgress(st.groups, st.current + [row])
  }

  function RowFold(header: string, body: seq<string>, budget: int): RowProgress {
    if body == [] then RowProgress([], [])
    else RowStep(header, RowFold(header, body[..|body| - 1], budget), body[|body| - 1], budget)
  }

  function RowGroups(header: string, body: seq<string>, budget: int): seq<seq<string>> {
    var st := RowFold(header, body, budget);
    if st.current == [] then st.groups else st.groups + [st.current]
  }

  function TablePieces(block: Block, header: string, groups: seq<seq<string>>): (r: seq<Block>)
    ensures |r| == |groups|
  {
    if groups == [] then []
    else
      var last := |groups| - 1;
      TablePieces(block, header, groups[..last]) + [TablePart(block, header, groups[last], last)]
  }

  lemma {:induction false} FirstPiece(block: Block, header: string, groups: seq<seq<string>>)
    requires groups != []
    ensures TablePieces(block, header, groups)[0] == TablePart(block, header, groups[0], 0)
  {
    if |groups| > 1 {
      FirstPiece(block, header, groups[..|groups| - 1]);
    }
  }

  function SplitTable(block: Block, budget: int): seq<Block> {
    var rows := Rows(block.text);
    if |rows| <= 1 then [block]
    else
      var pieces := TablePieces(block, rows[0], RowGroups(rows[0], rows[1..], budget));
      if pieces == [] then [block] else pieces
  }

  /** The body of the row loop; `groups` are the rows of each piece in `pieces`. */
  method AddRow(block: Block, header: string, pieces: seq<Block>, current: seq<string>, currentTokens: nat,
                row: string, budget: int, ghost groups: seq<seq<string>>)
    returns (pieces': seq<Block>, current': seq<string>, currentTokens': nat, ghost groups': seq<seq<string>>)
    requires currentTokens == Estimate(header) + Cost(current) && pieces == TablePieces(block, header, groups)
    ensures currentTokens' == Estimate(header) + Cost(current') && pieces' == TablePieces(block, header, groups')
    ensures RowProgress(groups', current') == RowStep(header, RowProgress(groups, current), row, budget)
  {
    pieces', current', currentTokens', groups' := pieces, current, currentTokens, groups;
    var rowTokens := Estimate(row);
    if current' != [] && currentTokens' + rowTokens > budget {
      pieces' := pieces' + [TablePart(block, header, current', |pieces'|)];
      groups' := groups' + [current'];
      assert groups'[..|groups|] == groups;
      current', currentTokens' := [], Estimate(header);
    }
    CostSnoc(current', row);
    current' := current' + [row];
    currentTokens' := currentTokens' + rowTokens;
  }

  lemma RowFoldNext(header: string, body: seq<string>, i: nat, budget: int)
    requires i < |body|
    ensures RowFold(header, body[..i + 1], budget)
            == RowStep(header, RowFold(header, body[..i], budget), body[i], budget)
  {
    assert body[..i + 1][..i] == body[..i];
  }

  method SplitTableLoop(block: Block, budget: int) returns (pieces: seq<Block>)
    ensures pieces == SplitTable(block, budget)
  {
    var rows := Rows(block.text);
    if |rows| <= 1 {
      return [block];
    }
    var header, body := rows[0], rows[1..];
    pieces := [];
    var current: seq<string> := [];
    var currentTokens := Estimate(header);
    ghost var groups: seq<seq<string>> := [];
    for i := 0 to |body|
      invariant currentTokens == Estimate(header) + Cost(current)
      invariant pieces == TablePieces(block, header, groups)
      invariant RowProgress(groups, current) == RowFold(header, body[..i], budget)
    {
      RowFoldNext(header, body, i, budget);
      pieces, current, currentTokens, groups :=
        AddRow(block, header, pieces, current, currentTokens, body[i], budget, groups);
    }
    assert body[..|body|] == body;
    ghost var all := RowGroups(header, body, budget);
    if current != [] {
      assert all == groups + [current] && all[..|groups|] == groups;
      pieces := pieces + [TablePart(block, header, current, |pieces|)];
    }
    assert pieces == TablePieces(block, header, all);
    if pieces == [] {
      pieces := [block];
    }
  }

  function Flatten<T>(groups: seq<seq<T>>): seq<T> {
    if groups == [] then [] else Flatten(groups[..|groups| - 1]) + groups[|groups| - 1]
  }

  lemma FlattenSnoc<T>(groups: seq<seq<T>>, last: seq<T>)
    ensures Flatten(groups + [last]) == Flatten(groups) + last
  {
    assert (groups + [last])[..|groups|] == groups;
  }

  /** Rows that go together: they fit under their header, or there is only one. */
  predicate RowsFit(header: string, rows: seq<string>, budget: int) {
    rows != [] && (Estimate(header) + Cost(rows) <= budget || |rows| == 1)
  }

  /** `body` is laid out in the pieces made and the rows waiting, and each piece fits. */
  predicate LaidOut(header: string, st: RowProgress, body: seq<string>, budget: int) {
    && Flatten(st.groups) + st.current == body
    && (forall g <- st.groups :: RowsFit(header, g, budget))
    && (st.current == [] || RowsFit(header, st.current, budget))
  }

  lemma RowStepLaysOut(header: string, st: RowProgress, body: seq<string>, row: string, budget: int)
    requires LaidOut(header, st, body, budget)
    ensures LaidOut(header, RowStep(header, st, row, budget), body + [row], budget)
  {
    if st.current != [] && Estimate(header) + Cost(st.current) + Estimate(row) > budget {
      FlattenSnoc(st.groups, st.current);
    } else {
      CostSnoc(st.current, row);
      Assoc(Flatten(st.groups), st.current, [row]);
    }
  }

  lemma {:induction false} RowFoldLaysOut(header: string, body: seq<string>, budget: int)
    ensures LaidOut(header, RowFold(header, body, budget), body, budget)
  {
    if body != [] {
      var init, row := body[..|body| - 1], body[|body| - 1];
      RowFoldLaysOut(header, init, budget);
      RowStepLaysOut(header, RowFold(header, init, budget), init, row, budget);
      assert body == init + [row];
    }
  }

  lemma RowGroupsKeepRows(header: string, body: seq<string>, budget: int)
    ensures Flatten(RowGroups(header, body, budget)) == body
    ensures forall g <- RowGroups(header, body, budget) :: RowsFit(header, g, budget)
  {
    var st := RowFold(header, body, budget);
    RowFoldLaysOut(header, body, budget);
    FlattenSnoc(st.groups, st.current);
  }

  lemma SomePiece(block: Block, header: string, body: seq<string>, budget: int)
    requires body != []
    ensures TablePieces(block, header, RowGroups(header, body, budget)) != []
  {
    var st := RowFold(header, body[..|body| - 1], budget);
    assert RowStep(header, st, body[|body| - 1], budget).current != [];
  }

  /** No row is split, lost, moved or repeated, and every piece starts with the header. */
  lemma SplitTableKeepsRows(block: Block, budget: int)
    ensures InkOfAll(Rows(block.text)) == Ink(block.text)
    ensures var rows := Rows(block.text);
            |rows| > 1 ==>
              var groups := RowGroups(rows[0], rows[1..], budget);
              && SplitTable(block, budget) == TablePieces(block, rows[0], groups)
              && Flatten(groups) == rows[1..]
              && forall g <- groups :: RowsFit(rows[0], g, budget)
  {
    var rows := Rows(block.text);
    RowsKeepInk(block.text, "");
    if |rows| > 1 {
      var header, body := rows[0], rows[1..];
      RowGroupsKeepRows(header, body, budget);
      SomePiece(block, header, body, budget);
    }
  }

  lemma {:induction false} CostConcat(a: seq<string>, b: seq<string>)
    ensures Cost(a + b) == Cost(a) + Cost(b)
  {
    if b == [] {
      assert a + b == a;
    } else {
      var init, last := b[..|b| - 1], b[|b| - 1];
      assert a + b == (a + init) + [last];
      CostSnoc(a + init, last);
      CostConcat(a, init);
    }
  }

  /** A piece of a table whose header and rows are within budget. */
  lemma TablePartLength(block: Block, header: string, rows: seq<string>, index: nat, budget: int)
    requires Estimate(header) + Cost(rows) <= budget
    ensures 5 * |TablePart(block, header, rows, index).text| <= 40 * budget - 5
  {
    CostSnoc([], header);
    assert [] + [header] == [header];
    CostConcat([header], rows);
    JoinedEstimate([header] + rows, "\n");
  }

  lemma {:induction false} TablePieceAt(block: Block, header: string, groups: seq<seq<string>>,
                                        piece: Block) returns (i: nat)
    requires piece in TablePieces(block, header, groups)
    ensures i < |groups| && piece == TablePart(block, header, groups[i], i)
  {
    var last := |groups| - 1;
    if piece in TablePieces(block, header, groups[..last]) {
      i := TablePieceAt(block, header, groups[..last], piece);
    } else {
      i := last;
    }
  }

  /** A table of one row, or one row that does not fit the budget together with its header. */
  ghost predicate RowTooLong(block: Block, piece: Block, budget: int) {
    var rows := Rows(block.text);
    if |rows| <= 1 then piece == block
    else exists row <- rows[1..], i: nat ::
      Estimate(rows[0]) + Estimate(row) > budget && piece == TablePart(block, rows[0], [row], i)
  }

  /** A piece of a table is within budget, or is a single row that cannot be. */
  lemma TablePieceLength(block: Block, piece: Block, budget: int)
    requires piece in SplitTable(block, budget)
    ensures 5 * |piece.text| <= 40 * budget - 5 || RowTooLong(block, piece, budget)
  {
    var rows := Rows(block.text);
    if |rows| > 1 {
      SplitTableKeepsRows(block, budget);
      var groups := RowGroups(rows[0], rows[1..], budget);
      var i := TablePieceAt(block, rows[0], groups, piece);
      assert groups[i] in groups && RowsFit(rows[0], groups[i], budget);
      if Estimate(rows[0]) + Cost(groups[i]) <= budget {
        TablePartLength(block, rows[0], groups[i], i, budget);
      } else {
        assert groups[i] == [groups[i][0]];
        CostSnoc([], groups[i][0]);
        assert [] + [groups[i][0]] == [groups[i][0]];
        InFlatten(groups, i, groups[i][0]);
      }
    }
  }

  lemma {:induction false} InFlatten<T>(groups: seq<seq<T>>, i: nat, x: T)
    requires i < |groups| && x in groups[i]
    ensures x in Flatten(groups)
  {
    if i < |groups| - 1 {
      InFlatten(groups[..|groups| - 1], i, x);
    }
  }

  // -------------------------------------------------------------------- both

  function Split(block: Block, budget: int, neverSplitRows: bool): seq<Block> {
    if block.kind == Table && neverSplitRows then SplitTable(block, budget) else SplitProse(block, budget)
  }

  lemma {:induction false} SomeInk(parts: seq<string>)
    requires InkOfAll(parts) != ""
    ensures exists i :: 0 <= i < |parts| && !Blank(parts[i])
  {
    if Blank(parts[0]) {
      SomeInk(parts[1..]);
      var i :| 0 <= i < |parts| - 1 && !Blank(parts[1..][i]);
      assert parts[i + 1] == parts[1..][i];
    }
  }

  /** However a block is broken up, a block with something in it leaves a piece with something in it. */
  lemma SplitLeavesInk(block: Block, budget: int, neverSplitRows: bool)
    requires !Blank(block.text)
    ensures exists p <- Split(block, budget, neverSplitRows) :: !Blank(p.text)
  {
    var pieces := Split(block, budget, neverSplitRows);
    if block.kind == Table && neverSplitRows {
      var rows := Rows(block.text);
      SplitTableKeepsRows(block, budget);
      if |rows| > 1 {
        var groups := RowGroups(rows[0], rows[1..], budget);
        assert Flatten(groups) != [];
        var piece := TablePart(block, rows[0], groups[0], 0);
        FirstPiece(block, rows[0], groups);
        assert rows[0] in rows && pieces[0] == piece && piece in pieces;
        JoinKeepsInk([rows[0]] + groups[0], "\n");
        InkOfAllConcat([rows[0]], groups[0]);
        InkOfOne(rows[0]);
      } else {
        assert pieces[0] == block && block in pieces;
      }
    } else {
      SplitProseKeepsInk(block, budget);
      SomeInk(Texts(pieces));
      var i :| 0 <= i < |pieces| && !Blank(Texts(pieces)[i]);
      assert pieces[i] in pieces;
    }
  }
}
