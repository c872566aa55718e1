/** Tables in chunks: whatever the budgets, no row is broken and no piece is without the header. */
module TableRows {
  import opened Option
  import opened Text
  import opened Splitting
  import opened Resplitting
  import opened Packing
  import opened Sections
  import opened Chunker
  import opened ChunkOrigins

  /** Lines of a table: whole, and with something in them. */
  predicate AreRows(rows: seq<string>) {
    forall i :: 0 <= i < |rows| ==> OneLine(rows[i]) && !Blank(rows[i])
  }

  /** Rows put one under the other are read back as they are. */
  lemma {:induction false} RowsOfJoin(rows: seq<string>)
    requires AreRows(rows)
    ensures Rows(Join(rows, "\n")) == rows
  {
    if |rows| == 1 {
      LineIsRead(rows[0], "", "");
      assert rows[0] + "" == rows[0] && "" + rows[0] == rows[0];
    } else if |rows| > 1 {
      var rest := Join(rows[1..], "\n");
      RowsOfJoin(rows[1..]);
      assert rows[0] + "\n" + rest == rows[0] + ("\n" + rest) && ("\n" + rest)[1..] == rest;
      LineIsRead(rows[0], "\n" + rest, "");
      assert "" + rows[0] == rows[0] && [rows[0]] + rows[1..] == rows;
    }
  }

  lemma RowsAreRows(text: string)
    ensures AreRows(Rows(text))
  {
    RowsAreLines(text, "");
    forall i | 0 <= i < |Rows(text)|
      ensures !Blank(Rows(text)[i])
    {
      assert Rows(text)[i] in Rows(text);
    }
  }

  /** The rows of `part` are rows of `whole`, under the same header. */
  predicate Excerpt(part: string, whole: string) {
    || part == whole
    || (|Rows(part)| > 1 && Rows(whole) != [] && Rows(part)[0] == Rows(whole)[0]
        && forall row <- Rows(part) :: row in Rows(whole))
  }

  lemma {:induction false} GroupRows(groups: seq<seq<string>>, i: nat, row: string)
    requires i < |groups| && row in groups[i]
    ensures row in Flatten(groups)
  {
    if i < |groups| - 1 {
      GroupRows(groups[..|groups| - 1], i, row);
    }
  }

  lemma PartIsExcerpt(block: Block, header: string, groups: seq<seq<string>>, i: nat)
    requires Rows(block.text) != [] && Rows(block.text)[0] == header && Flatten(groups) == Rows(block.text)[1..]
    requires i < |groups| && groups[i] != []
    ensures Excerpt(TablePart(block, header, groups[i], i).text, block.text)
  {
    var rows, part := Rows(block.text), [header] + groups[i];
    RowsAreRows(block.text);
    forall k | 0 <= k < |part|
      ensures part[k] in rows && OneLine(part[k]) && !Blank(part[k])
    {
      if k > 0 {
        GroupRows(groups, i, part[k]);
        assert part[k] in rows[1..];
      }
      var r :| 0 <= r < |rows| && rows[r] == part[k];
    }
    RowsOfJoin(part);
  }

  lemma PieceIsExcerpt(block: Block, budget: int, piece: Block)
    requires piece in SplitTable(block, budget)
    ensures Excerpt(piece.text, block.text)
  {
    var rows := Rows(block.text);
    if |rows| > 1 {
      var groups := RowGroups(rows[0], rows[1..], budget);
      SplitTableKeepsRows(block, budget);
      var i := TablePieceAt(block, rows[0], groups, piece);
      assert groups[i] in groups;
      PartIsExcerpt(block, rows[0], groups, i);
    }
  }

  lemma ExcerptOfExcerpt(a: string, b: string, c: string)
    requires Excerpt(a, b) && Excerpt(b, c)
    ensures Excerpt(a, c)
  {
  }

  lemma ReplacedIsExcerpt(block: Block, x: Block, budget: int, spec: ChunkSpec)
    requires block.kind == Table && spec.neverSplitTableRows && x in Replaced(block, budget, spec)
    ensures Excerpt(x.text, block.text)
  {
    if Estimate(block.text) > budget {
      PieceIsExcerpt(block, budget, x);
    }
  }

  /**
   Where table rows are not to be split, every table in a chunk is a table of the document,
   or its header with some of its rows, none of them broken.
   */
  lemma TablesStayTables(docId: string, pages: seq<Page>, spec: ChunkSpec, c: Chunk, x: Block)
    requires c in ChunksOf(docId, pages, spec) && x in c.blocks && x.kind == Table && spec.neverSplitTableRows
    ensures exists b <- Stored(pages) :: b.kind == Table && Excerpt(x.text, b.text)
  {
    var b := SourceOf(docId, pages, spec, c, x);
    MadeKeepsKind(b, x, spec);
    if x in Replaced(b, spec.parentTokens, spec) {
      ReplacedIsExcerpt(b, x, spec.parentTokens, spec);
    } else {
      var y :| y in Replaced(b, spec.parentTokens, spec) && x in Replaced(y, spec.childTokens, spec);
      ReplacedKeepsKind(b, y, spec.parentTokens, spec);
      ReplacedIsExcerpt(b, y, spec.parentTokens, spec);
      ReplacedIsExcerpt(y, x, spec.childTokens, spec);
      ExcerptOfExcerpt(x.text, y.text, b.text);
    }
  }
}
