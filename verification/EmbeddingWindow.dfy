/** What is embedded, a chunk's text under its section path, against the window of the embedding model. */
module EmbeddingWindow {
  import opened Option
  import opened Text
  import opened Splitting
  import opened Packing
  import opened PackingMargin
  import opened Sections
  import opened Chunker
  import opened ChunkOrigins
  import opened TitledPages
  import opened SmallParents

  /** `contextualised_text`. */
  function Context(c: Chunk): string {
    if c.sectionPath == [] then c.text else "[" + Join(c.sectionPath, " > ") + "]\n" + c.text
  }

  lemma ContextLength(c: Chunk)
    ensures |Context(c)| == PathLength(c.sectionPath) + |c.text|
  {
  }

  // --------------------------------------------------------------- the bound

  /** A chunk that is one row over budget, or words cut from an oversized sentence, of a block packed for children. */
  ghost predicate LonePiece(c: Chunk, pages: seq<Page>, spec: ChunkSpec) {
    |c.blocks| == 1 &&
    exists x: Block :: ParentBlock(pages, x, spec) && OverrunOf(x, c.blocks[0], spec.childTokens, spec)
  }

  lemma LargeParentChild(group: seq<Block>, blocks: seq<Block>, spec: ChunkSpec)
    requires blocks in Children(group, spec) && (spec.childTokens < 1 || spec.childTokens <= spec.parentTokens)
    ensures (spec.childTokens >= 1 && 5 * |TextOf(blocks)| <= LongestEmbedded(spec))
         || (|blocks| == 1 && Overrun(group, blocks[0], spec.childTokens, spec))
  {
    var g := GroupOfBlocks(Pack(group, spec.childTokens, spec), blocks);
    GroupEstimate(group, g, spec.childTokens, spec);
  }

  lemma ChildLength(blocks: seq<Block>, group: seq<Block>, child: seq<Block>, spec: ChunkSpec)
    requires group in Parents(blocks, spec) && child in Children(group, spec)
    ensures (spec.childTokens >= 1 && 5 * |TextOf(child)| <= LongestEmbedded(spec))
         || (|child| == 1 && Overrun(group, child[0], spec.childTokens, spec))
  {
    if spec.childTokens < 1 || spec.childTokens <= spec.parentTokens {
      LargeParentChild(group, child, spec);
    } else {
      ChildOfSmallParent(blocks, group, child, spec);
    }
  }

  lemma LoneInGroup(pages: seq<Page>, s: Section, group: seq<Block>, c: Chunk, spec: ChunkSpec)
    requires s in SectionsOf(pages, spec.respectHeadings) && group in Parents(s.blocks, spec)
    requires |c.blocks| == 1 && Overrun(group, c.blocks[0], spec.childTokens, spec)
    ensures LonePiece(c, pages, spec)
  {
    var x :| x in group && OverrunOf(x, c.blocks[0], spec.childTokens, spec);
    assert ParentBlock(pages, x, spec);
  }

  /** Without headings to respect there is no path. */
  lemma NoPath(pages: seq<Page>, s: Section)
    requires s in SectionsOf(pages, false)
    ensures s.path == []
  {
  }

  lemma SmallChunkLength(c: Chunk, spec: ChunkSpec)
    requires c.tokenCount == Estimate(c.text) <= spec.childTokens
    ensures spec.childTokens >= 1 && 5 * |c.text| <= LongestEmbedded(spec)
  {
    assert 5 * |c.text| <= 18 * spec.childTokens + 17;
    BlockIsEmbedded(spec);
  }

  /** The text of an embedded chunk is no longer than that, unless it is a lone piece. */
  lemma EmbeddedTextLength(docId: string, pages: seq<Page>, spec: ChunkSpec, c: Chunk)
    requires c in ChunksOf(docId, pages, spec) && !c.isParent
    ensures (spec.childTokens >= 1 && 5 * |c.text| <= LongestEmbedded(spec)) || LonePiece(c, pages, spec)
    ensures !spec.respectHeadings ==> c.sectionPath == []
  {
    var s := SectionOf(docId, pages, spec, c);
    ChunkIsPlaced(docId, pages, spec, c);
    if !spec.respectHeadings {
      NoPath(pages, s);
    }
    var group :| group in Parents(s.blocks, spec) && FromGroup(c, group, spec);
    if c.tokenCount <= spec.childTokens {
      SmallChunkLength(c, spec);
    } else {
      ChildLength(s.blocks, group, c.blocks, spec);
      if |c.blocks| == 1 && Overrun(group, c.blocks[0], spec.childTokens, spec) {
        LoneInGroup(pages, s, group, c, spec);
      }
    }
  }

  /**
   What is embedded fits the window if the longest text and the section path do
   together, unless the chunk is a lone piece.
   */
  lemma EmbeddedChunksFitWindow(docId: string, pages: seq<Page>, spec: ChunkSpec, c: Chunk)
    requires c in ChunksOf(docId, pages, spec) && !c.isParent && !LonePiece(c, pages, spec)
    ensures 5 * |Context(c)| <= 5 * PathLength(c.sectionPath) + LongestEmbedded(spec)
    ensures 5 * PathLength(c.sectionPath) + LongestEmbedded(spec) < 18 * (spec.maxChildTokens + 1)
            ==> Estimate(Context(c)) <= spec.maxChildTokens
  {
    EmbeddedTextLength(docId, pages, spec, c);
    ContextLength(c);
    AtLeastABlock(spec);
    FitsWindow(Context(c), spec.maxChildTokens);
  }

  lemma AtLeastABlock(spec: ChunkSpec)
    requires spec.childTokens >= 1
    ensures LongestEmbedded(spec) >= 35
  {
    BlockIsEmbedded(spec);
  }

  // ------------------------------------------------------------ the converse

  lemma LongestIsPlain(budget: nat, overlap: nat)
    requires budget >= 1
    ensures Plain(Longest(budget, overlap)) && Longest(budget, overlap) != []
    ensures !Blank(TextOf(Longest(budget, overlap)))
    ensures |Longest(budget, overlap)| == 1 ==> Longest(budget, overlap)[0] == SMALL
  {
    var longest := Longest(budget, overlap);
    LettersNotBlank(7);
    LettersNotBlank((18 * budget + 17) / 5);
    forall i | 0 <= i < |longest|
      ensures IsBody(longest[i]) && longest[i].order == 0
    {
      if longest == Small(budget) {
        assert longest[i] in longest;
      } else if i < overlap {
        assert Small(overlap)[i] in Small(overlap) && longest[i] == Small(overlap)[i];
      }
    }
    LongestText(budget, overlap);
    BlankText(longest);
    assert longest[0] in longest;
  }

  lemma InBlocksOfAll(groups: seq<Group>, g: Group)
    requires g in groups
    ensures Blocks(g) in BlocksOfAll(groups)
  {
    var i :| 0 <= i < |groups| && groups[i] == g;
    assert BlocksOfAll(groups)[i] == Blocks(g);
  }

  /** The longest run is left whole by any budget that takes its blocks. */
  lemma LongestStaysWhole(size: nat, budget: int, spec: ChunkSpec)
    requires 1 <= size <= budget
    ensures Longest(size, Overlap(spec)) in BlocksOfAll(Pack(Longest(size, Overlap(spec)), budget, spec))
  {
    var longest := Longest(size, Overlap(spec));
    PackLongest(size, budget, spec);
    var g :| g in Pack(longest, budget, spec) && g.Run? && Blocks(g) == longest;
    InBlocksOfAll(Pack(longest, budget, spec), g);
  }

  lemma SmallIsNoPiece(x: Block, budget: int, spec: ChunkSpec)
    requires budget >= 1
    ensures !OverrunOf(x, SMALL, budget, spec)
  {
    assert SMALL.id == Named("b") && Estimate(SMALL.text) == 1;
  }

  lemma SmallIsNotLone(c: Chunk, pages: seq<Page>, spec: ChunkSpec)
    requires spec.childTokens >= 1 && (|c.blocks| == 1 ==> c.blocks[0] == SMALL)
    ensures !LonePiece(c, pages, spec)
  {
    forall x: Block
      ensures !OverrunOf(x, SMALL, spec.childTokens, spec)
    {
      SmallIsNoPiece(x, spec.childTokens, spec);
    }
  }

  /** A chunk under a path of the given length whose text is as long as can be. */
  ghost predicate IsLongest(docId: string, pages: seq<Page>, c: Chunk, length: nat, spec: ChunkSpec) {
    && c in ChunksOf(docId, pages, spec) && !c.isParent && !LonePiece(c, pages, spec)
    && PathLength(c.sectionPath) == length && 5 * |c.text| == LongestEmbedded(spec)
  }

  /** A run of blocks that parents and children both leave whole. */
  lemma RunIsEmbedded(docId: string, length: nat, size: nat, spec: ChunkSpec) returns (pages: seq<Page>, c: Chunk)
    requires 1 <= size <= spec.childTokens && size <= spec.parentTokens
    requires length == 0 || (length >= 3 && spec.respectHeadings)
    ensures c in ChunksOf(docId, pages, spec) && !c.isParent && !LonePiece(c, pages, spec)
    ensures PathLength(c.sectionPath) == length && 5 * |c.text| == Peak(size, Overlap(spec))
  {
    var longest := Longest(size, Overlap(spec));
    pages := [Titled(length, longest)];
    LongestIsPlain(size, Overlap(spec));
    TitledSection(length, longest, spec.respectHeadings);
    LongestStaysWhole(size, spec.childTokens, spec);
    LongestStaysWhole(size, spec.parentTokens, spec);
    c := ChildIsEmbedded(docId, pages, spec, Section(PathTo(length), longest), longest, longest);
    SmallIsNotLone(c, pages, spec);
    LongestText(size, Overlap(spec));
  }

  lemma OnlyPiece(pages: seq<Page>, s: Section, piece: Block, x: Block, spec: ChunkSpec)
    requires SectionsOf(pages, spec.respectHeadings) == [s] && Parents(s.blocks, spec) == [[piece]]
    requires ParentBlock(pages, x, spec)
    ensures x == piece
  {
  }

  lemma ThroughIsNotLone(docId: string, pages: seq<Page>, s: Section, x: Block, piece: Block, last: Block, c: Chunk,
                         spec: ChunkSpec)
    requires SectionsOf(pages, spec.respectHeadings) == [s] && s.blocks == [x] && GoesThrough(x, piece, last, spec)
    requires c in ChunksOf(docId, pages, spec) && !c.isParent && (c.blocks == [last] || c.blocks == [piece])
    ensures !LonePiece(c, pages, spec)
  {
    var t := SectionOf(docId, pages, spec, c);
    ChunkIsPlaced(docId, pages, spec, c);
    assert Parents(t.blocks, spec) == [[piece]] && FromGroup(c, [piece], spec);
    if c.blocks != [last] {
      assert c.tokenCount <= spec.childTokens;
      TrimmedStaysWhole(piece.text);
      assert Texts([piece]) == [piece.text];
      assert Estimate(piece.text) <= spec.childTokens;
    }
    forall y | ParentBlock(pages, y, spec)
      ensures !OverrunOf(y, c.blocks[0], spec.childTokens, spec)
    {
      OnlyPiece(pages, s, piece, y, spec);
    }
  }

  lemma TextOfOne(x: Block)
    requires Trimmed(x.text)
    ensures TextOf([x]) == x.text
  {
    TrimmedStaysWhole(x.text);
    assert Texts([x]) == [x.text];
  }

  /** One block that is split for its parent, and whose piece is left as it is. */
  lemma PieceIsEmbedded(docId: string, length: nat, x: Block, piece: Block, last: Block, spec: ChunkSpec)
    returns (pages: seq<Page>, c: Chunk)
    requires GoesThrough(x, piece, last, spec) && Plain([x]) && (length == 0 || (length >= 3 && spec.respectHeadings))
    ensures c in ChunksOf(docId, pages, spec) && !c.isParent && !LonePiece(c, pages, spec)
    ensures PathLength(c.sectionPath) == length && |c.text| == |x.text|
  {
    pages := [Titled(length, [x])];
    TitledSection(length, [x], spec.respectHeadings);
    TextOfOne(piece);
    TextOfOne(last);
    StripKeepsInk(x.text);
    var s := Section(PathTo(length), [x]);
    c := ChildIsEmbedded(docId, pages, spec, s, [piece], [last]);
    ThroughIsNotLone(docId, pages, s, x, piece, last, c, spec);
  }

  lemma TrimmedIsPlain(x: Block)
    requires x.order == 0 && (x.kind == Paragraph || x.kind == Table) && Trimmed(x.text)
    ensures Plain([x])
  {
    TrimmedStaysWhole(x.text);
    StripKeepsInk(x.text);
  }

  lemma SmallParentLongest(docId: string, length: nat, spec: ChunkSpec) returns (pages: seq<Page>, c: Chunk)
    requires 1 <= spec.childTokens && spec.parentTokens < spec.childTokens
    requires length == 0 || (length >= 3 && spec.respectHeadings)
    ensures IsLongest(docId, pages, c, length, spec)
  {
    var b, p := spec.childTokens, spec.parentTokens;
    if p >= 1 && LongestEmbedded(spec) == Peak(p, Overlap(spec)) {
      pages, c := RunIsEmbedded(docId, length, p, spec);
    } else if spec.neverSplitTableRows && b >= 2 {
      var piece, last := TableGoesThrough(spec);
      TrimmedIsPlain(TableOf(b));
      pages, c := PieceIsEmbedded(docId, length, TableOf(b), piece, last, spec);
    } else {
      var piece := WordGoesThrough(spec);
      TrimmedIsPlain(Big(b));
      pages, c := PieceIsEmbedded(docId, length, Big(b), piece, piece, spec);
    }
  }

  /** A document with a longest chunk under a path of the given length. */
  lemma LongestIsEmbedded(docId: string, length: nat, spec: ChunkSpec) returns (pages: seq<Page>, c: Chunk)
    requires 1 <= spec.childTokens && (length == 0 || (length >= 3 && spec.respectHeadings))
    ensures IsLongest(docId, pages, c, length, spec)
  {
    if spec.childTokens <= spec.parentTokens {
      pages, c := RunIsEmbedded(docId, length, spec.childTokens, spec);
    } else {
      pages, c := SmallParentLongest(docId, length, spec);
    }
  }

  // -------------------------------------------------------- the exact margin

  /** Every chunk that is embedded, under a path of at most `length` characters, fits the window. */
  ghost predicate EveryEmbeddingFits(spec: ChunkSpec, length: nat) {
    forall docId: string, pages: seq<Page>, c: Chunk ::
      c in ChunksOf(docId, pages, spec) && !c.isParent && !LonePiece(c, pages, spec) &&
      PathLength(c.sectionPath) <= length ==>
        Estimate(Context(c)) <= spec.maxChildTokens
  }

  /** A path takes three characters at least, and there is none if headings are not respected. */
  function Reach(spec: ChunkSpec, length: nat): nat {
    if spec.respectHeadings && length >= 3 then length else 0
  }

  predicate RoomUnder(spec: ChunkSpec, length: nat) {
    spec.childTokens < 1 || 5 * Reach(spec, length) + LongestEmbedded(spec) < 18 * (spec.maxChildTokens + 1)
  }

  lemma RoomIsEnough(spec: ChunkSpec, length: nat)
    requires RoomUnder(spec, length)
    ensures EveryEmbeddingFits(spec, length)
  {
    forall docId: string, pages: seq<Page>, c: Chunk
      | c in ChunksOf(docId, pages, spec) && !c.isParent && !LonePiece(c, pages, spec) &&
        PathLength(c.sectionPath) <= length
      ensures Estimate(Context(c)) <= spec.maxChildTokens
    {
      EmbeddedTextLength(docId, pages, spec, c);
      EmbeddedChunksFitWindow(docId, pages, spec, c);
      assert PathLength(c.sectionPath) <= Reach(spec, length);
    }
  }

  lemma RoomIsNeeded(spec: ChunkSpec, length: nat)
    requires !RoomUnder(spec, length)
    ensures !EveryEmbeddingFits(spec, length)
  {
    var pages, c := LongestIsEmbedded("", Reach(spec, length), spec);
    ContextLength(c);
    FitsWindow(Context(c), spec.maxChildTokens);
  }

  /**
   Everything embedded under paths of a length fits the window, but for lone pieces,
   if and only if the longest text and such a path do together. The child budget and
   the window alone, which the parameters are checked for, do not decide it.
   */
  lemma EmbeddingNeedsMargin(spec: ChunkSpec, length: nat)
    ensures EveryEmbeddingFits(spec, length) <==> RoomUnder(spec, length)
  {
    if RoomUnder(spec, length) {
      RoomIsEnough(spec, length);
    } else {
      RoomIsNeeded(spec, length);
    }
  }

  /** The longest path the default parameters leave room for. */
  lemma DefaultPaths(length: nat)
    ensures EveryEmbeddingFits(DEFAULT_SPEC, length) <==> length <= 4436
  {
    EmbeddingNeedsMargin(DEFAULT_SPEC, length);
  }

  /** With the default parameters, one small paragraph under a heading of 7000 characters overruns. */
  lemma LongHeadingOverruns() returns (c: Chunk)
    ensures c in ChunksOf("doc", [Titled(7003, [SMALL])], DEFAULT_SPEC) && !c.isParent && c.tokenCount == 1
    ensures Estimate(Context(c)) > DEFAULT_SPEC.maxChildTokens
  {
    var pages := [Titled(7003, [SMALL])];
    LettersNotBlank(7);
    TitledSection(7003, [SMALL], true);
    PackOneBlock(SMALL, DEFAULT_SPEC.childTokens, DEFAULT_SPEC);
    PackOneBlock(SMALL, DEFAULT_SPEC.parentTokens, DEFAULT_SPEC);
    BlankText([SMALL]);
    c := ChildIsEmbedded("doc", pages, DEFAULT_SPEC, Section(PathTo(7003), [SMALL]), [SMALL], [SMALL]);
    ContextLength(c);
    ChunkIsPlaced("doc", pages, DEFAULT_SPEC, c);
    LonePieceText(SMALL);
  }
}
