/** Where chunks come from: each is made from one parent group of one section, and holds only the document's text. */
module ChunkOrigins {
  import opened Option
  import opened Text
  import opened Splitting
  import opened Packing
  import opened Sections
  import opened Chunker

  /** A chunk made from a parent group: the parent, or a small parent kept alone, or one of its children. */
  ghost predicate FromGroup(c: Chunk, group: seq<Block>, spec: ChunkSpec) {
    || (c.blocks == group && c.parentId.None?
        && (c.isParent <==> c.tokenCount > spec.childTokens || |Children(group, spec)| != 1))
    || (!c.isParent && c.parentId.Some? && c.blocks in Children(group, spec))
  }

  ghost predicate FromSection(c: Chunk, s: Section, spec: ChunkSpec) {
    c.sectionPath == s.path && exists group <- Parents(s.blocks, spec) :: FromGroup(c, group, spec)
  }

  ghost predicate FromPacking(c: Chunk, sections: seq<Section>, spec: ChunkSpec) {
    exists s <- sections :: FromSection(c, s, spec)
  }

  ghost predicate AllFromPacking(chunks: seq<Chunk>, sections: seq<Section>, spec: ChunkSpec) {
    forall i :: 0 <= i < |chunks| ==> FromPacking(chunks[i], sections, spec)
  }

  lemma ChildFromPacking(b: Built, docId: string, group: seq<Block>, child: seq<Block>, s: Section, parentId: nat,
                         sections: seq<Section>, spec: ChunkSpec)
    requires AllFromPacking(b.chunks, sections, spec)
    requires s in sections && group in Parents(s.blocks, spec) && child in Children(group, spec)
    ensures AllFromPacking(ChildStep(b, docId, child, s.path, parentId).chunks, sections, spec)
  {
    var c := MakeChunk(docId, child, s.path, b.ids, |b.chunks|, Some(parentId), false);
    assert FromGroup(c, group, spec) && FromSection(c, s, spec);
  }

  lemma {:induction false} ChildrenFromPacking(b: Built, docId: string, group: seq<Block>, children: seq<seq<Block>>,
                                               s: Section, parentId: nat, sections: seq<Section>, spec: ChunkSpec)
    requires (forall child <- children :: child in Children(group, spec)) && AllFromPacking(b.chunks, sections, spec)
    requires s in sections && group in Parents(s.blocks, spec)
    ensures AllFromPacking(ChildFold(b, docId, children, s.path, parentId).chunks, sections, spec)
  {
    if children != [] {
      var init, last := children[..|children| - 1], children[|children| - 1];
      assert last in children && forall child <- init :: child in children;
      ChildrenFromPacking(b, docId, group, init, s, parentId, sections, spec);
      ChildFromPacking(ChildFold(b, docId, init, s.path, parentId), docId, group, last, s, parentId, sections, spec);
    }
  }

  lemma FamilyFromPacking(b: Built, docId: string, group: seq<Block>, s: Section, sections: seq<Section>,
                          spec: ChunkSpec)
    requires AllFromPacking(b.chunks, sections, spec) && s in sections && group in Parents(s.blocks, spec)
    ensures AllFromPacking(FamilyStep(b, docId, group, s.path, spec).chunks, sections, spec)
  {
    var parent := ParentOf(b, docId, group, s.path);
    var children := Children(group, spec);
    if ChildIsParent(parent, children, spec) {
      assert FromGroup(parent.(isParent := false), group, spec) && FromSection(parent.(isParent := false), s, spec);
      return;
    }
    assert FromGroup(parent, group, spec) && FromSection(parent, s, spec);
    ChildrenFromPacking(Built(b.chunks + [parent], b.ids + 1), docId, group, children, s, parent.id, sections, spec);
  }

  lemma FamilyFoldNext(b: Built, docId: string, groups: seq<seq<Block>>, path: seq<string>, spec: ChunkSpec, i: nat)
    requires i < |groups|
    ensures FamilyFold(b, docId, groups[..i + 1], path, spec)
            == FamilyStep(FamilyFold(b, docId, groups[..i], path, spec), docId, groups[i], path, spec)
  {
    assert groups[..i + 1][..i] == groups[..i];
  }

  lemma {:induction false} FamiliesFromPacking(b: Built, docId: string, s: Section, sections: seq<Section>,
                                               spec: ChunkSpec, i: nat)
    requires AllFromPacking(b.chunks, sections, spec) && s in sections && i <= |Parents(s.blocks, spec)|
    ensures AllFromPacking(FamilyFold(b, docId, Parents(s.blocks, spec)[..i], s.path, spec).chunks, sections, spec)
  {
    if i > 0 {
      var groups := Parents(s.blocks, spec);
      FamiliesFromPacking(b, docId, s, sections, spec, i - 1);
      FamilyFoldNext(b, docId, groups, s.path, spec, i - 1);
      assert groups[i - 1] in groups;
      FamilyFromPacking(FamilyFold(b, docId, groups[..i - 1], s.path, spec), docId, groups[i - 1], s, sections, spec);
    }
  }

  lemma SectionFromPacking(b: Built, docId: string, s: Section, sections: seq<Section>, spec: ChunkSpec)
    requires AllFromPacking(b.chunks, sections, spec) && s in sections
    ensures AllFromPacking(FamilyFold(b, docId, Parents(s.blocks, spec), s.path, spec).chunks, sections, spec)
  {
    var groups := Parents(s.blocks, spec);
    assert groups[..|groups|] == groups;
    FamiliesFromPacking(b, docId, s, sections, spec, |groups|);
  }

  /** The chunks of the first `i` sections. */
  ghost predicate FirstFromPacking(docId: string, sections: seq<Section>, spec: ChunkSpec, i: nat)
    requires i <= |sections|
  {
    AllFromPacking(SectionFold(docId, sections[..i], spec).chunks, sections, spec)
  }

  lemma OneSectionMore(docId: string, sections: seq<Section>, spec: ChunkSpec, i: nat)
    requires i < |sections| && FirstFromPacking(docId, sections, spec, i)
    ensures FirstFromPacking(docId, sections, spec, i + 1)
  {
    var before := SectionFold(docId, sections[..i], spec);
    SectionFromPacking(before, docId, sections[i], sections, spec);
    SectionFoldNext(docId, sections, spec, i);
  }

  lemma {:induction false} SectionsFromPacking(docId: string, sections: seq<Section>, spec: ChunkSpec, i: nat)
    requires i <= |sections|
    ensures FirstFromPacking(docId, sections, spec, i)
  {
    if i > 0 {
      SectionsFromPacking(docId, sections, spec, i - 1);
      OneSectionMore(docId, sections, spec, i - 1);
    }
  }

  /** The section a chunk was made for. */
  lemma SectionOf(docId: string, pages: seq<Page>, spec: ChunkSpec, c: Chunk) returns (s: Section)
    requires c in ChunksOf(docId, pages, spec)
    ensures s in SectionsOf(pages, spec.respectHeadings) && FromSection(c, s, spec)
  {
    var sections := SectionsOf(pages, spec.respectHeadings);
    assert sections[..|sections|] == sections;
    SectionsFromPacking(docId, sections, spec, |sections|);
    var i :| 0 <= i < |ChunksOf(docId, pages, spec)| && ChunksOf(docId, pages, spec)[i] == c;
    assert FromPacking(c, sections, spec);
    s :| s in sections && FromSection(c, s, spec);
  }

  lemma ChunkIsPlaced(docId: string, pages: seq<Page>, spec: ChunkSpec, c: Chunk)
    requires c in ChunksOf(docId, pages, spec)
    ensures c.text == TextOf(c.blocks) && c.tokenCount == Estimate(c.text)
  {
    SectionsAreSound(docId, SectionsOf(pages, spec.respectHeadings), spec);
    var i :| 0 <= i < |ChunksOf(docId, pages, spec)| && ChunksOf(docId, pages, spec)[i] == c;
  }

  // ------------------------------------------------------- nothing is made up

  /** A block as the children are packed from it. */
  predicate ParentBlock(pages: seq<Page>, x: Block, spec: ChunkSpec) {
    exists s <- SectionsOf(pages, spec.respectHeadings), group <- Parents(s.blocks, spec) :: x in group
  }

  lemma InGroup(blocks: seq<Block>, group: seq<Block>, x: Block, budget: int, spec: ChunkSpec)
    requires group in BlocksOfAll(Pack(blocks, budget, spec)) && x in group
    ensures ComesFrom(blocks, x, budget, spec)
  {
    var groups := Pack(blocks, budget, spec);
    var k :| 0 <= k < |groups| && BlocksOfAll(groups)[k] == group;
    GroupsHoldBlocks(blocks, budget, spec);
    assert AllComeFrom(blocks, Blocks(groups[k]), budget, spec);
    var i :| 0 <= i < |group| && group[i] == x;
  }

  /** The block itself, or a piece of it made for a parent, or a piece of either made for a child. */
  ghost predicate MadeOf(b: Block, x: Block, spec: ChunkSpec) {
    || x in Replaced(b, spec.parentTokens, spec)
    || exists y <- Replaced(b, spec.parentTokens, spec) :: x in Replaced(y, spec.childTokens, spec)
  }

  lemma MadeKeepsKind(b: Block, x: Block, spec: ChunkSpec)
    requires MadeOf(b, x, spec)
    ensures x.kind == b.kind
  {
    if x in Replaced(b, spec.parentTokens, spec) {
      ReplacedKeepsKind(b, x, spec.parentTokens, spec);
    } else {
      var y :| y in Replaced(b, spec.parentTokens, spec) && x in Replaced(y, spec.childTokens, spec);
      ReplacedKeepsKind(b, y, spec.parentTokens, spec);
      ReplacedKeepsKind(y, x, spec.childTokens, spec);
    }
  }

  /** The block of the section that a block of a chunk is, or is a piece of. */
  lemma SourceIn(c: Chunk, s: Section, spec: ChunkSpec, x: Block) returns (b: Block)
    requires FromSection(c, s, spec) && x in c.blocks
    ensures b in s.blocks && MadeOf(b, x, spec)
  {
    var group :| group in Parents(s.blocks, spec) && FromGroup(c, group, spec);
    var y := x;
    if x !in group {
      InGroup(group, c.blocks, x, spec.childTokens, spec);
      y :| y in group && x in Replaced(y, spec.childTokens, spec);
    }
    InGroup(s.blocks, group, y, spec.parentTokens, spec);
    b :| b in s.blocks && y in Replaced(b, spec.parentTokens, spec);
  }

  /** The block of the document that a block of a chunk is, or is a piece of. */
  lemma SourceOf(docId: string, pages: seq<Page>, spec: ChunkSpec, c: Chunk, x: Block) returns (b: Block)
    requires c in ChunksOf(docId, pages, spec) && x in c.blocks
    ensures b in Stored(pages) && MustBeFound(pages, b, spec.respectHeadings) && MadeOf(b, x, spec)
  {
    var s := SectionOf(docId, pages, spec, c);
    b := SourceIn(c, s, spec, x);
    SectionsHoldNoMore(pages, spec.respectHeadings, s, b);
  }

  /**
   Chunks make nothing up: what they hold are blocks of the document that must be found,
   or pieces of them; and never a running header or footer.
   */
  lemma ChunksHoldTheDocument(docId: string, pages: seq<Page>, spec: ChunkSpec, c: Chunk, x: Block)
    requires c in ChunksOf(docId, pages, spec) && x in c.blocks
    ensures x.kind != Header && x.kind != Footer
    ensures exists b <- Stored(pages) :: MustBeFound(pages, b, spec.respectHeadings) && MadeOf(b, x, spec)
  {
    var b := SourceOf(docId, pages, spec, c, x);
    MadeKeepsKind(b, x, spec);
  }

  /** Block `n`, in reading order, stands under exactly the headings of the path. */
  predicate StandsUnder(pages: seq<Page>, n: nat, b: Block, path: seq<string>) {
    var blocks := ReadingOrder(pages);
    n < |blocks| && blocks[n] == b && Titles(OpenIn(blocks[..n])) == path
  }

  lemma {:induction false} PlacedWhere(blocks: seq<Block>, p: Placed) returns (n: nat)
    requires p in Placement(blocks)
    ensures n < |blocks| && blocks[n] == p.block && Titles(OpenIn(blocks[..n])) == p.path
  {
    var init := blocks[..|blocks| - 1];
    if p in Placement(init) {
      n := PlacedWhere(init, p);
      assert init[..n] == blocks[..n];
    } else {
      n := |init|;
    }
  }

  lemma {:induction false} InPlaces(sections: seq<Section>, s: Section, b: Block)
    requires s in sections && b in s.blocks
    ensures Placed(s.path, b) in PlacedIn(sections)
  {
    var init, last := sections[..|sections| - 1], sections[|sections| - 1];
    assert sections == init + [last];
    if s in init {
      InPlaces(init, s, b);
    } else {
      var i :| 0 <= i < |s.blocks| && s.blocks[i] == b;
      assert PlaceAll(s.path, s.blocks)[i] == Placed(s.path, b);
    }
  }

  /** Every block of a chunk is, or is a piece of, a block that stands under exactly the chunk's headings. */
  lemma ChunksCarryTheirHeadings(docId: string, pages: seq<Page>, spec: ChunkSpec, c: Chunk, x: Block)
    requires c in ChunksOf(docId, pages, spec) && x in c.blocks
    ensures if spec.respectHeadings && !OnlyHeadings(pages)
            then exists n: nat, b: Block :: StandsUnder(pages, n, b, c.sectionPath) && MadeOf(b, x, spec)
            else c.sectionPath == []
  {
    var sections := SectionsOf(pages, spec.respectHeadings);
    var s := SectionOf(docId, pages, spec, c);
    var b := SourceIn(c, s, spec, x);
    if spec.respectHeadings && !OnlyHeadings(pages) {
      SomethingIsPlaced(pages);
      InPlaces(sections, s, b);
      var n := PlacedWhere(ReadingOrder(pages), Placed(s.path, b));
      assert StandsUnder(pages, n, b, c.sectionPath);
    } else {
      OneSection(pages, spec.respectHeadings);
    }
  }

  lemma SomethingIsPlaced(pages: seq<Page>)
    requires !OnlyHeadings(pages)
    ensures PlacedIn(SectionsOf(pages, true)) == Placement(ReadingOrder(pages))
  {
    var d :| d in Stored(pages) && IsBody(d);
    ReadingOrderHolds(pages);
    BodyIsPlaced(ReadingOrder(pages), d);
    SectionsPlaceEverything(pages);
  }

  /**
   A parent group is embedded itself, and has no children, exactly when it costs no more than
   a child may and would have a single child: so the same text is not embedded twice.
   */
  lemma SmallParentsAreEmbedded(docId: string, pages: seq<Page>, spec: ChunkSpec, c: Chunk)
    requires c in ChunksOf(docId, pages, spec) && c.parentId.None?
    ensures c.isParent <==> Estimate(c.text) > spec.childTokens || |Children(c.blocks, spec)| != 1
  {
    var s := SectionOf(docId, pages, spec, c);
    ChunkIsPlaced(docId, pages, spec, c);
    var group :| group in Parents(s.blocks, spec) && FromGroup(c, group, spec);
  }
}
