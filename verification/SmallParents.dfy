/** Chunks under a parent budget smaller than the child budget: blocks split for parents are split again. */
module SmallParents {
  import opened Collections
  import opened Text
  import opened Splitting
  import opened ProseWords
  import opened WordLimit
  import opened Resplitting
  import opened Packing
  import opened PackingMargin
  import opened Chunker

  /** Five times the longest block that costs no more than the budget. */
  function BlockPeak(budget: int): int {
    5 * ((18 * budget + 17) / 5)
  }

  /** Five times the longest header and row that cost no more than the budget together. */
  function RowPeak(budget: int): int {
    5 * (8 + (18 * budget - 1) / 5)
  }

  function Larger(a: int, b: int): int {
    if a >= b then a else b
  }

  /**
   Five times the longest a chunk can be, but for lone pieces: the peak of the child budget, or,
   if the parent budget is smaller, a parent run, or one piece made for a parent that the child
   budget takes whole.
   */
  function LongestEmbedded(spec: ChunkSpec): int {
    var b, p := spec.childTokens, spec.parentTokens;
    if b <= p then Peak(b, Overlap(spec))
    else Larger(if p >= 1 then Peak(p, Overlap(spec)) else 0,
                if spec.neverSplitTableRows && b >= 2 then RowPeak(b) else BlockPeak(b))
  }

  lemma BlockIsEmbedded(spec: ChunkSpec)
    requires spec.childTokens >= 1
    ensures BlockPeak(spec.childTokens) <= LongestEmbedded(spec)
  {
  }

  // ------------------------------------------------- packing without splitting

  predicate AllFit(blocks: seq<Block>, budget: int) {
    forall b <- blocks :: Estimate(b.text) <= budget
  }

  predicate IsStretch(all: seq<Block>, part: seq<Block>) {
    exists i, j :: 0 <= i <= j <= |all| && part == all[i..j]
  }

  predicate RunsAreStretches(all: seq<Block>, groups: seq<Group>) {
    forall i :: 0 <= i < |groups| ==> groups[i].Run? && IsStretch(all, Blocks(groups[i]))
  }

  /** After `n` blocks, the run being filled ends with the last of them. */
  predicate Stretching(all: seq<Block>, st: PackState, n: nat) {
    && |Current(st)| <= n <= |all| && Current(st) == all[n - |Current(st)|..n]
    && RunsAreStretches(all, st.groups)
  }

  lemma ClosedStretches(all: seq<Block>, st: PackState, n: nat)
    requires Stretching(all, st, n)
    ensures RunsAreStretches(all, Closed(st))
  {
    assert IsStretch(all, Current(st));
  }

  lemma SuffixStretches(all: seq<Block>, current: seq<Block>, tail: seq<Block>, n: nat)
    requires |tail| <= |current| <= n < |all| && current == all[n - |current|..n]
    requires tail == current[|current| - |tail|..]
    ensures tail + [all[n]] == all[n - |tail|..n + 1]
  {
    assert tail == all[n - |tail|..n];
  }

  lemma TailStretches(all: seq<Block>, current: seq<Block>, n: nat, spec: ChunkSpec)
    requires |current| <= n < |all| && current == all[n - |current|..n]
    ensures var tail := OverlapBlocks(current, spec.overlapTokens);
            |tail| <= n && tail + [all[n]] == all[n - |tail|..n + 1]
  {
    TailWithinIsLongest(current, spec.overlapTokens);
    SuffixStretches(all, current, OverlapBlocks(current, spec.overlapTokens), n);
  }

  lemma StepStretches(all: seq<Block>, st: PackState, n: nat, budget: int, spec: ChunkSpec)
    requires n < |all| && Stretching(all, st, n) && Estimate(all[n].text) <= budget
    ensures Stretching(all, PackStep(st, all[n], budget, spec), n + 1)
  {
    if CostOf(Current(st)) + Estimate(all[n].text) > budget && st.own != [] {
      ClosedStretches(all, st, n);
      TailStretches(all, Current(st), n, spec);
    } else {
      Assoc(st.carried, st.own, [all[n]]);
      assert Current(st) + [all[n]] == all[n - |Current(st)|..n + 1];
    }
  }

  lemma NoBlockYet(all: seq<Block>)
    ensures Stretching(all, PackState([], [], []), 0)
  {
    assert Current(PackState([], [], [])) == all[0..0];
  }

  lemma {:induction false} FoldStretches(all: seq<Block>, first: seq<Block>, budget: int, spec: ChunkSpec)
    requires first <= all && AllFit(all, budget)
    ensures Stretching(all, PackFold(first, budget, spec), |first|)
  {
    if first == [] {
      NoBlockYet(all);
    } else {
      var n := |first| - 1;
      FoldStretches(all, first[..n], budget, spec);
      assert first[n] == all[n] && all[n] in all;
      StepStretches(all, PackFold(first[..n], budget, spec), n, budget, spec);
    }
  }

  /** If no block is over budget, every group is a stretch of them. */
  lemma PackStretches(all: seq<Block>, g: Group, budget: int, spec: ChunkSpec)
    requires AllFit(all, budget) && g in Pack(all, budget, spec)
    ensures g.Run? && g.own != [] && IsStretch(all, Blocks(g))
  {
    FoldStretches(all, all, budget, spec);
    ClosedStretches(all, PackFold(all, budget, spec), |all|);
    var i :| 0 <= i < |Pack(all, budget, spec)| && Pack(all, budget, spec)[i] == g;
    PackIsTight(all, budget, spec);
  }

  lemma StretchIsShorter(all: seq<Block>, part: seq<Block>)
    requires IsStretch(all, part) && part != []
    ensures |Joined(part)| <= |Joined(all)|
  {
    var i, j :| 0 <= i <= j <= |all| && part == all[i..j];
    assert Texts(part) == Texts(all)[i..j];
    SliceSpread(Texts(all), i, j);
    JoinSpread(Texts(part), "\n");
    JoinSpread(Texts(all), "\n");
  }

  lemma GroupOfBlocks(groups: seq<Group>, blocks: seq<Block>) returns (g: Group)
    requires blocks in BlocksOfAll(groups)
    ensures g in groups && Blocks(g) == blocks
  {
    var k :| 0 <= k < |groups| && BlocksOfAll(groups)[k] == blocks;
    g := groups[k];
  }

  // -------------------------------------------------------- splitting once more

  /** Prose split for a parent, and split again for a child. */
  lemma ProseAgain(y: Block, piece: Block, q: Block, spec: ChunkSpec)
    requires spec.parentTokens < spec.childTokens && !(y.kind == Table && spec.neverSplitTableRows)
    requires piece in SplitProse(y, spec.parentTokens) && piece.kind == y.kind
    requires Estimate(piece.text) > spec.childTokens && q in SplitProse(piece, spec.childTokens)
    ensures 5 * |q.text| <= LongestEmbedded(spec) || OverrunOf(piece, q, spec.childTokens, spec)
  {
    ProsePiecesPackedOrCut(y, spec.parentTokens);
    ProsePiecesPackedOrCut(piece, spec.childTokens);
    if Packed(piece, q, spec.childTokens) {
      PackedIsShorter(piece, q, spec.childTokens);
      if Packed(y, piece, spec.parentTokens) {
        PackedLength(y, piece, spec.parentTokens);
      } else {
        CutIsPackedWhole(y, piece, spec.parentTokens, q, spec.childTokens);
        assert false;
      }
    }
  }

  /** A header and one row that do not fit the parent budget. */
  lemma RowAgain(y: Block, piece: Block, q: Block, header: string, row: string, i: nat, spec: ChunkSpec)
    requires spec.neverSplitTableRows && spec.parentTokens < spec.childTokens && y.kind == Table
    requires OneLine(header) && OneLine(row) && !Blank(header) && !Blank(row)
    requires piece == TablePart(y, header, [row], i)
    requires Estimate(piece.text) > spec.childTokens && q in SplitTable(piece, spec.childTokens)
    ensures 5 * |q.text| <= LongestEmbedded(spec) || OverrunOf(piece, q, spec.childTokens, spec)
  {
    JoinOfTwo(header, row);
    TwoRowsAgain(piece, header, row, spec.childTokens);
    assert q == TablePart(piece, header, [row], 0);
    OneRowTooLong(piece, q, header, row, spec.childTokens);
    if Estimate(header) + Estimate(row) <= spec.childTokens {
      TwoTexts(header, row, spec.childTokens);
    }
  }

  lemma RowFacts(text: string, row: string)
    requires row in Rows(text)
    ensures OneLine(row) && !Blank(row)
  {
    RowsAreLines(text, "");
    var i :| 0 <= i < |Rows(text)| && Rows(text)[i] == row;
  }

  /** A table split for a parent, and split again for a child. */
  lemma TableAgain(y: Block, piece: Block, q: Block, spec: ChunkSpec)
    requires spec.parentTokens < spec.childTokens && y.kind == Table && spec.neverSplitTableRows
    requires piece in SplitTable(y, spec.parentTokens) && piece.kind == y.kind
    requires Estimate(piece.text) > spec.childTokens && q in SplitTable(piece, spec.childTokens)
    ensures 5 * |q.text| <= LongestEmbedded(spec) || OverrunOf(piece, q, spec.childTokens, spec)
  {
    var rows := Rows(y.text);
    TablePieceLength(y, piece, spec.parentTokens);
    TablePieceIsShorter(piece, q, spec.childTokens);
    if 5 * |piece.text| > 40 * spec.parentTokens - 5 {
      if |rows| <= 1 {
        assert piece == y && q == piece;
        assert RowTooLong(piece, q, spec.childTokens);
      } else {
        var row, i: nat :|
          && row in rows[1..] && Estimate(rows[0]) + Estimate(row) > spec.parentTokens
          && piece == TablePart(y, rows[0], [row], i);
        assert row in rows && rows[0] in rows;
        RowFacts(y.text, row);
        RowFacts(y.text, rows[0]);
        RowAgain(y, piece, q, rows[0], row, i, spec);
      }
    }
  }

  lemma PieceAgain(y: Block, piece: Block, q: Block, spec: ChunkSpec)
    requires spec.parentTokens < spec.childTokens
    requires piece in Split(y, spec.parentTokens, spec.neverSplitTableRows)
    requires Estimate(piece.text) > spec.childTokens && q in Split(piece, spec.childTokens, spec.neverSplitTableRows)
    ensures 5 * |q.text| <= LongestEmbedded(spec) || OverrunOf(piece, q, spec.childTokens, spec)
  {
    PieceKeepsKind(y, piece, spec.parentTokens, spec.neverSplitTableRows);
    if y.kind == Table && spec.neverSplitTableRows {
      TableAgain(y, piece, q, spec);
    } else {
      ProseAgain(y, piece, q, spec);
    }
  }

  // ------------------------------------------------------------- the bound

  lemma PackOversized(x: Block, budget: int, spec: ChunkSpec)
    requires Estimate(x.text) > budget
    ensures Pack([x], budget, spec) == Singles(Split(x, budget, spec.neverSplitTableRows))
  {
    var blocks, empty := [x], PackState([], [], []);
    PackFoldNext(blocks, 0, budget, spec);
    assert blocks[..0] == [] && blocks[..1] == blocks;
    assert Closed(empty) == [];
  }

  lemma PackOneBlock(x: Block, budget: int, spec: ChunkSpec)
    requires Estimate(x.text) <= budget
    ensures BlocksOfAll(Pack([x], budget, spec)) == [[x]]
  {
    var blocks, empty := [x], PackState([], [], []);
    assert blocks[..0] == [] && Current(empty) == [];
    PackFoldNext(blocks, 0, budget, spec);
    assert blocks[..1] == blocks;
    assert [] + [x] == blocks && PackStep(empty, x, budget, spec) == PackState([], [], blocks);
    assert Pack(blocks, budget, spec) == [Run([], blocks)];
    assert Blocks(Run([], blocks)) == blocks;
    assert BlocksOfAll([Run([], blocks)]) == [[x]];
  }

  /** A piece made for a parent that the child budget takes. */
  lemma ChildOfFitting(piece: Block, child: seq<Block>, spec: ChunkSpec)
    requires 1 <= spec.childTokens && Estimate(piece.text) <= spec.childTokens && child in Children([piece], spec)
    ensures 5 * |TextOf(child)| <= BlockPeak(spec.childTokens)
  {
    PackOneBlock(piece, spec.childTokens, spec);
    assert child == [piece];
    LonePieceText(piece);
  }

  /** A piece made for a parent that is split again. */
  lemma ChildOfOversized(piece: Block, child: seq<Block>, spec: ChunkSpec) returns (q: Block)
    requires Estimate(piece.text) > spec.childTokens && child in Children([piece], spec)
    ensures q in Split(piece, spec.childTokens, spec.neverSplitTableRows) && child == [q]
  {
    var g := GroupOfBlocks(Pack([piece], spec.childTokens, spec), child);
    PackOversized(piece, spec.childTokens, spec);
    q := g.piece;
  }

  lemma ChildOfPiece(y: Block, piece: Block, child: seq<Block>, spec: ChunkSpec)
    requires 1 <= spec.childTokens && spec.parentTokens < spec.childTokens
    requires piece in Split(y, spec.parentTokens, spec.neverSplitTableRows) && child in Children([piece], spec)
    ensures 5 * |TextOf(child)| <= LongestEmbedded(spec)
         || (|child| == 1 && Overrun([piece], child[0], spec.childTokens, spec))
  {
    if Estimate(piece.text) <= spec.childTokens {
      ChildOfFitting(piece, child, spec);
      BlockIsEmbedded(spec);
    } else {
      var q := ChildOfOversized(piece, child, spec);
      PieceAgain(y, piece, q, spec);
      LonePieceText(q);
      assert piece in [piece];
    }
  }

  /** A parent run, packed for children. */
  lemma ChildOfRun(g: Group, child: seq<Block>, spec: ChunkSpec)
    requires spec.parentTokens < spec.childTokens
    requires g.Run? && GroupFits(g, spec.parentTokens, spec) && child in Children(Blocks(g), spec)
    ensures 5 * |TextOf(child)| <= LongestEmbedded(spec)
  {
    var h := GroupOfBlocks(Pack(Blocks(g), spec.childTokens, spec), child);
    PackStretches(Blocks(g), h, spec.childTokens, spec);
    StretchIsShorter(Blocks(g), child);
    TextIsShorter(child);
    RunLength(g, spec.parentTokens, spec);
  }

  lemma ChildOfSmallParent(blocks: seq<Block>, group: seq<Block>, child: seq<Block>, spec: ChunkSpec)
    requires 1 <= spec.childTokens && spec.parentTokens < spec.childTokens
    requires group in Parents(blocks, spec) && child in Children(group, spec)
    ensures 5 * |TextOf(child)| <= LongestEmbedded(spec)
         || (|child| == 1 && Overrun(group, child[0], spec.childTokens, spec))
  {
    var g := GroupOfBlocks(Pack(blocks, spec.parentTokens, spec), group);
    if g.Run? {
      PackIsTight(blocks, spec.parentTokens, spec);
      ChildOfRun(g, child, spec);
    } else {
      PackFoldSingles(blocks, blocks, spec.parentTokens, spec);
      var y :| y in blocks && Estimate(y.text) > spec.parentTokens
        && g.piece in Split(y, spec.parentTokens, spec.neverSplitTableRows);
      ChildOfPiece(y, g.piece, child, spec);
    }
  }

  // --------------------------------------------------------- blocks that reach it

  /** A table of a header and one row. */
  function TableOf(budget: int): Block
    requires budget >= 2
  {
    Block(Named("b"), 1, Table, Letters(7) + "\n" + Letters((18 * budget - 1) / 5), 0, 1)
  }

  lemma LettersIsLine(n: nat)
    requires n > 0
    ensures OneLine(Letters(n)) && !Blank(Letters(n))
  {
    LettersNotBlank(n);
    forall i | 0 <= i < n
      ensures !IsLineBreak(Letters(n)[i])
    {
      assert Letters(n)[i] in Letters(n);
    }
  }

  lemma TableCosts(budget: int)
    requires budget >= 2
    ensures Estimate(Letters(7)) + Estimate(Letters((18 * budget - 1) / 5)) == budget
    ensures Estimate(TableOf(budget).text) >= budget && 5 * |TableOf(budget).text| == RowPeak(budget)
  {
  }

  lemma TableSplits(x: Block, budget: int, size: int)
    requires size >= 2 && x.text == TableOf(size).text
    ensures Rows(x.text) == [Letters(7), Letters((18 * size - 1) / 5)]
    ensures SplitTable(x, budget) == [OnlyRow(x, size)] && OnlyRow(x, size).text == x.text
  {
    LettersIsLine(7);
    LettersIsLine((18 * size - 1) / 5);
    TwoRowsAgain(x, Letters(7), Letters((18 * size - 1) / 5), budget);
  }

  function OnlyRow(x: Block, size: int): Block
    requires size >= 2
  {
    TablePart(x, Letters(7), [Letters((18 * size - 1) / 5)], 0)
  }

  /** The only group, when a block makes one piece. */
  lemma PackOnePiece(x: Block, piece: Block, budget: int, spec: ChunkSpec)
    requires Estimate(x.text) > budget && Split(x, budget, spec.neverSplitTableRows) == [piece]
    ensures BlocksOfAll(Pack([x], budget, spec)) == [[piece]]
  {
    PackOversized(x, budget, spec);
    assert Singles([piece]) == [Single(piece)];
    assert BlocksOfAll([Single(piece)]) == [[piece]];
  }

  /** A lone block goes through parents and children as one piece with its text, and is no lone piece then. */
  ghost predicate GoesThrough(x: Block, piece: Block, last: Block, spec: ChunkSpec) {
    && piece.text == x.text && last.text == x.text && Trimmed(x.text)
    && Parents([x], spec) == [[piece]] && Children([piece], spec) == [[last]]
    && !OverrunOf(piece, last, spec.childTokens, spec)
  }

  lemma WordGoesThrough(spec: ChunkSpec) returns (piece: Block)
    requires 1 <= spec.childTokens && spec.parentTokens < spec.childTokens
    ensures GoesThrough(Big(spec.childTokens), piece, piece, spec)
    ensures 5 * |Big(spec.childTokens).text| == BlockPeak(spec.childTokens)
  {
    var x := Big(spec.childTokens);
    LettersIsWord((18 * spec.childTokens + 17) / 5);
    OneWordIsNeverSplit(x, spec.parentTokens);
    piece := ProsePart(x, [x.text], 0);
    PackOnePiece(x, piece, spec.parentTokens, spec);
    PackOneBlock(piece, spec.childTokens, spec);
  }

  lemma RowsTrimmed(size: int)
    requires size >= 2
    ensures Trimmed(TableOf(size).text)
  {
    LettersTrimmed(7);
    LettersTrimmed((18 * size - 1) / 5);
  }

  lemma RowFitsAgain(piece: Block, spec: ChunkSpec)
    requires spec.neverSplitTableRows && spec.childTokens >= 2
    requires piece.kind == Table && piece.text == TableOf(spec.childTokens).text
    ensures Split(piece, spec.childTokens, true) == [OnlyRow(piece, spec.childTokens)]
    ensures !OverrunOf(piece, OnlyRow(piece, spec.childTokens), spec.childTokens, spec)
  {
    var size := spec.childTokens;
    TableSplits(piece, size, size);
    TableCosts(size);
    OneRowTooLong(piece, OnlyRow(piece, size), Letters(7), Letters((18 * size - 1) / 5), size);
  }

  lemma TableGoesThrough(spec: ChunkSpec) returns (piece: Block, last: Block)
    requires 2 <= spec.childTokens && spec.parentTokens < spec.childTokens && spec.neverSplitTableRows
    ensures GoesThrough(TableOf(spec.childTokens), piece, last, spec)
    ensures 5 * |TableOf(spec.childTokens).text| == RowPeak(spec.childTokens)
  {
    var x := TableOf(spec.childTokens);
    RowsTrimmed(spec.childTokens);
    TableCosts(spec.childTokens);
    TableSplits(x, spec.parentTokens, spec.childTokens);
    piece := OnlyRow(x, spec.childTokens);
    PackOnePiece(x, piece, spec.parentTokens, spec);
    if Estimate(piece.text) <= spec.childTokens {
      last := piece;
      PackOneBlock(piece, spec.childTokens, spec);
    } else {
      RowFitsAgain(piece, spec);
      TableSplits(piece, spec.childTokens, spec.childTokens);
      last := OnlyRow(piece, spec.childTokens);
      PackOnePiece(piece, last, spec.childTokens, spec);
    }
  }
}
