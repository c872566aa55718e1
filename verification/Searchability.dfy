/** What can be searched for, word by word: the words of the embedded chunks are those of the document. */
module Searchability {
  import opened Option
  import opened Text
  import opened Splitting
  import opened ProseWords
  import opened Packing
  import opened Sections
  import opened Chunker
  import opened ChunkOrigins

  lemma {:induction false} SomeText(texts: seq<string>, w: string) returns (i: nat)
    requires w in AllWords(texts)
    ensures i < |texts| && w in Words(texts[i])
  {
    var last := |texts| - 1;
    if w in Words(texts[last]) {
      i := last;
    } else {
      i := SomeText(texts[..last], w);
    }
  }

  lemma {:induction false} InAllWords(texts: seq<string>, i: nat, w: string)
    requires i < |texts| && w in Words(texts[i])
    ensures w in AllWords(texts)
  {
    if i < |texts| - 1 {
      InAllWords(texts[..|texts| - 1], i, w);
    }
  }

  lemma BlankHasNoWords(s: string)
    requires Blank(s)
    ensures Words(s) == []
  {
    WordsKeepInk(s, "");
    WordsAreWords(s, "");
    if Words(s) != [] {
      assert IsWord(Words(s)[0]);
      SpaceFreeInk(Words(s)[0]);
    }
  }

  lemma {:induction false} SpaceFreeInk(w: string)
    requires SpaceFree(w)
    ensures Ink(w) == w
  {
    if w != "" {
      assert SpaceFree(w[1..]);
      SpaceFreeInk(w[1..]);
    }
  }

  // ------------------------------------------------------------------ tables

  lemma RowWords(row: string)
    ensures AllWords(NonBlank(row)) == Words(row)
  {
    if Blank(row) {
      BlankHasNoWords(row);
    } else {
      AllWordsOfOne(row);
    }
  }

  /** The rows of a table hold its words. */
  lemma {:induction false} WordsOfRows(s: string, row: string)
    ensures AllWords(RowsFrom(s, row)) == Words(row + s)
  {
    if s == "" {
      RowWords(row);
      assert row + s == row;
    } else if IsLineBreak(s[0]) {
      LineBreakIsSpace(s[0]);
      WordsOfRows(s[1..], "");
      assert "" + s[1..] == s[1..];
      WordsBreak(row, s, "");
      RowWords(row);
      AllWordsConcat(NonBlank(row), RowsFrom(s[1..], ""));
    } else {
      assert row + [s[0]] + s[1..] == row + s;
      WordsOfRows(s[1..], row + [s[0]]);
    }
  }

  lemma {:induction false} SomeGroup(groups: seq<seq<string>>, row: string) returns (i: nat)
    requires row in Flatten(groups)
    ensures i < |groups| && row in groups[i]
  {
    var last := |groups| - 1;
    if row in groups[last] {
      i := last;
    } else {
      i := SomeGroup(groups[..last], row);
    }
  }

  lemma {:induction false} PieceOfGroup(block: Block, header: string, groups: seq<seq<string>>, i: nat)
    requires i < |groups|
    ensures TablePieces(block, header, groups)[i] == TablePart(block, header, groups[i], i)
  {
    if i < |groups| - 1 {
      PieceOfGroup(block, header, groups[..|groups| - 1], i);
    }
  }

  lemma PartHoldsRow(block: Block, header: string, rows: seq<string>, index: nat, i: nat, w: string)
    requires i <= |rows| && w in Words(([header] + rows)[i])
    ensures w in Words(TablePart(block, header, rows, index).text)
  {
    InAllWords([header] + rows, i, w);
    WordsOfJoin([header] + rows, "\n");
  }

  lemma TableHoldsWord(block: Block, budget: int, w: string) returns (piece: Block)
    requires w in Words(block.text)
    ensures piece in SplitTable(block, budget) && w in Words(piece.text)
  {
    var rows := Rows(block.text);
    if |rows| <= 1 {
      return block;
    }
    var header, groups := rows[0], RowGroups(rows[0], rows[1..], budget);
    SplitTableKeepsRows(block, budget);
    WordsOfRows(block.text, "");
    assert "" + block.text == block.text;
    var r := SomeText(rows, w);
    SomePiece(block, header, rows[1..], budget);
    var i := 0;
    var k := 0;
    if r > 0 {
      assert rows[r] == rows[1..][r - 1];
      i := SomeGroup(groups, rows[r]);
      k :| 0 <= k < |groups[i]| && groups[i][k] == rows[r];
      k := k + 1;
    }
    PieceOfGroup(block, header, groups, i);
    PartHoldsRow(block, header, groups[i], i, k, w);
    piece := TablePieces(block, header, groups)[i];
  }

  lemma {:induction false} FlattenHolds(groups: seq<seq<string>>, i: nat, row: string)
    requires i < |groups| && row in groups[i]
    ensures row in Flatten(groups)
  {
    if i < |groups| - 1 {
      FlattenHolds(groups[..|groups| - 1], i, row);
    }
  }

  lemma TableAddsNoWord(block: Block, budget: int, piece: Block, w: string)
    requires piece in SplitTable(block, budget) && w in Words(piece.text)
    ensures w in Words(block.text)
  {
    var rows := Rows(block.text);
    if |rows| > 1 {
      var header, groups := rows[0], RowGroups(rows[0], rows[1..], budget);
      SplitTableKeepsRows(block, budget);
      var i := TablePieceAt(block, header, groups, piece);
      WordsOfJoin([header] + groups[i], "\n");
      var k := SomeText([header] + groups[i], w);
      var row := ([header] + groups[i])[k];
      if k > 0 {
        assert row in groups[i];
        FlattenHolds(groups, i, row);
        assert row in rows[1..];
      }
      var r :| 0 <= r < |rows| && rows[r] == row;
      InAllWords(rows, r, w);
      WordsOfRows(block.text, "");
      assert "" + block.text == block.text;
    }
  }

  // ------------------------------------------------------------- every block

  lemma SplitHoldsWord(block: Block, budget: int, neverSplitRows: bool, w: string) returns (piece: Block)
    requires w in Words(block.text)
    ensures piece in Split(block, budget, neverSplitRows) && w in Words(piece.text)
  {
    if block.kind == Table && neverSplitRows {
      piece := TableHoldsWord(block, budget, w);
    } else {
      SplitProseKeepsWords(block, budget);
      var i := SomeText(Texts(SplitProse(block, budget)), w);
      piece := SplitProse(block, budget)[i];
    }
  }

  lemma SplitAddsNoWord(block: Block, budget: int, neverSplitRows: bool, piece: Block, w: string)
    requires piece in Split(block, budget, neverSplitRows) && w in Words(piece.text)
    ensures w in Words(block.text)
  {
    if block.kind == Table && neverSplitRows {
      TableAddsNoWord(block, budget, piece, w);
    } else {
      SplitProseKeepsWords(block, budget);
      var i :| 0 <= i < |SplitProse(block, budget)| && SplitProse(block, budget)[i] == piece;
      InAllWords(Texts(SplitProse(block, budget)), i, w);
    }
  }

  lemma ReplacedHoldsWord(block: Block, budget: int, spec: ChunkSpec, w: string) returns (x: Block)
    requires w in Words(block.text)
    ensures x in Replaced(block, budget, spec) && w in Words(x.text)
  {
    if Estimate(block.text) > budget {
      x := SplitHoldsWord(block, budget, spec.neverSplitTableRows, w);
    } else {
      x := block;
    }
  }

  lemma ReplacedAddsNoWord(block: Block, budget: int, spec: ChunkSpec, x: Block, w: string)
    requires x in Replaced(block, budget, spec) && w in Words(x.text)
    ensures w in Words(block.text)
  {
    if Estimate(block.text) > budget {
      SplitAddsNoWord(block, budget, spec.neverSplitTableRows, x, w);
    }
  }

  lemma MadeAddsNoWord(b: Block, x: Block, spec: ChunkSpec, w: string)
    requires MadeOf(b, x, spec) && w in Words(x.text)
    ensures w in Words(b.text)
  {
    if x in Replaced(b, spec.parentTokens, spec) {
      ReplacedAddsNoWord(b, spec.parentTokens, spec, x, w);
    } else {
      var y :| y in Replaced(b, spec.parentTokens, spec) && x in Replaced(y, spec.childTokens, spec);
      ReplacedAddsNoWord(y, spec.childTokens, spec, x, w);
      ReplacedAddsNoWord(b, spec.parentTokens, spec, y, w);
    }
  }

  // ------------------------------------------------------------- every chunk

  /** The words of a chunk are those of its blocks. */
  lemma WordsOfText(blocks: seq<Block>)
    ensures Words(TextOf(blocks)) == AllWords(Texts(blocks))
  {
    WordsOfStrip(Joined(blocks));
    WordsOfJoin(Texts(blocks), "\n");
  }

  lemma ChunkHoldsWord(docId: string, pages: seq<Page>, spec: ChunkSpec, x: Block, w: string) returns (c: Chunk)
    requires Searchable(ChunksOf(docId, pages, spec), x) && w in Words(x.text)
    ensures c in ChunksOf(docId, pages, spec) && !c.isParent && w in Words(c.text)
  {
    c :| c in ChunksOf(docId, pages, spec) && !c.isParent && x in c.blocks;
    ChunkIsPlaced(docId, pages, spec, c);
    var i :| 0 <= i < |c.blocks| && c.blocks[i] == x;
    InAllWords(Texts(c.blocks), i, w);
    WordsOfText(c.blocks);
  }

  /** Some embedded chunk has the word in its text. */
  ghost predicate CanBeFound(docId: string, pages: seq<Page>, spec: ChunkSpec, w: string) {
    exists c <- ChunksOf(docId, pages, spec) :: !c.isParent && w in Words(c.text)
  }

  /** The word stands in the document, where it must be found. */
  predicate MustBeThere(pages: seq<Page>, respectHeadings: bool, w: string) {
    exists b <- Stored(pages) :: MustBeFound(pages, b, respectHeadings) && w in Words(b.text)
  }

  lemma WordIsFound(docId: string, pages: seq<Page>, spec: ChunkSpec, b: Block, w: string)
    requires MustBeFound(pages, b, spec.respectHeadings) && w in Words(b.text)
    ensures CanBeFound(docId, pages, spec, w)
  {
    BlockIsFound(docId, pages, spec, b);
    var chunks := ChunksOf(docId, pages, spec);
    var x := ReplacedHoldsWord(b, spec.parentTokens, spec, w);
    NotBlank(x.text, w);
    assert Covered(chunks, x, spec);
    if !Searchable(chunks, x) {
      x := SplitHoldsWord(x, spec.childTokens, spec.neverSplitTableRows, w);
      NotBlank(x.text, w);
    }
    var c := ChunkHoldsWord(docId, pages, spec, x, w);
  }

  lemma NotBlank(s: string, w: string)
    requires w in Words(s)
    ensures !Blank(s)
  {
    if Blank(s) {
      BlankHasNoWords(s);
    }
  }

  lemma FoundWordIsThere(docId: string, pages: seq<Page>, spec: ChunkSpec, c: Chunk, w: string)
    requires c in ChunksOf(docId, pages, spec) && w in Words(c.text)
    ensures MustBeThere(pages, spec.respectHeadings, w)
  {
    ChunkIsPlaced(docId, pages, spec, c);
    WordsOfText(c.blocks);
    var i := SomeText(Texts(c.blocks), w);
    var b := SourceOf(docId, pages, spec, c, c.blocks[i]);
    MadeAddsNoWord(b, c.blocks[i], spec, w);
  }

  /**
   For every document and all parameters, a word can be found in an embedded chunk if and only
   if it stands in the document, outside running headers and footers and outside the headings
   that make sections. Splitting, packing and overlap lose no word and invent none.
   */
  lemma EveryWordIsSearchable(docId: string, pages: seq<Page>, spec: ChunkSpec, w: string)
    ensures CanBeFound(docId, pages, spec, w) <==> MustBeThere(pages, spec.respectHeadings, w)
  {
    if CanBeFound(docId, pages, spec, w) {
      var c :| c in ChunksOf(docId, pages, spec) && !c.isParent && w in Words(c.text);
      FoundWordIsThere(docId, pages, spec, c, w);
    }
    if MustBeThere(pages, spec.respectHeadings, w) {
      var b :| MustBeFound(pages, b, spec.respectHeadings) && w in Words(b.text);
      WordIsFound(docId, pages, spec, b, w);
    }
  }
}
