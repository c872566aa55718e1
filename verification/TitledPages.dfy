/** Documents of one section, to show what a chunk can be: some blocks, under a title or under none. */
module TitledPages {
  import opened Option
  import opened Text
  import opened Splitting
  import opened Packing
  import opened PackingMargin
  import opened Sections
  import opened Chunker
  import opened ChunkOrigins

  /** The characters put in front of an embedded text. */
  function PathLength(path: seq<string>): nat {
    if path == [] then 0 else |Join(path, " > ")| + 3
  }

  /** A page with a title, if the path is to have a length, over the given blocks. */
  function Titled(length: nat, blocks: seq<Block>): Page {
    (if length >= 3 then [TitleOf(length)] else []) + blocks
  }

  function TitleOf(length: nat): Block
    requires length >= 3
  {
    Block(Named("h"), 1, Heading, Letters(length - 3), 0, 1)
  }

  function PathTo(length: nat): (path: seq<string>)
    ensures length >= 3 ==> PathLength(path) == length
    ensures length < 3 ==> path == []
  {
    if length >= 3 then [Letters(length - 3)] else []
  }

  predicate Plain(blocks: seq<Block>) {
    forall i :: 0 <= i < |blocks| ==> IsBody(blocks[i]) && blocks[i].order == 0
  }

  lemma PlainInit(blocks: seq<Block>)
    requires Plain(blocks) && blocks != []
    ensures Plain(blocks[..|blocks| - 1]) && IsBody(blocks[|blocks| - 1])
    ensures blocks == blocks[..|blocks| - 1] + [blocks[|blocks| - 1]]
  {
  }

  lemma {:induction false} PlainContents(blocks: seq<Block>)
    requires Plain(blocks)
    ensures Contents(blocks) == blocks
  {
    if blocks != [] {
      PlainInit(blocks);
      PlainContents(blocks[..|blocks| - 1]);
    }
  }

  function Extended(st: Outline, blocks: seq<Block>): Outline {
    st.(current := st.current + blocks)
  }

  lemma ExtendedNext(st: Outline, blocks: seq<Block>, b: Block)
    requires IsBody(b)
    ensures OutlineStep(Extended(st, blocks), b) == Extended(st, blocks + [b])
  {
    assert st.current + blocks + [b] == st.current + (blocks + [b]);
  }

  lemma {:induction false} OutlineOfPlain(before: seq<Block>, blocks: seq<Block>)
    requires Plain(blocks)
    ensures OutlineOf(before + blocks) == Extended(OutlineOf(before), blocks)
  {
    if blocks == [] {
      assert before + blocks == before;
    } else {
      var init, last := blocks[..|blocks| - 1], blocks[|blocks| - 1];
      PlainInit(blocks);
      OutlineOfPlain(before, init);
      assert before + blocks == before + init + [last];
      OutlineSnoc(before + init, last);
      ExtendedNext(OutlineOf(before), init, last);
    }
  }

  lemma OutlineOfTitle(length: nat)
    ensures var st := OutlineOf(Titled(length, []));
            st.sections == [] && st.current == [] && Titles(st.stack) == PathTo(length)
  {
    if length >= 3 {
      LettersStrip(length - 3);
      assert Titled(length, []) == [TitleOf(length)];
      assert OutlineOf([]) == Outline([], [], []) && [TitleOf(length)][..0] == [];
    }
  }

  lemma OnePage(page: Page)
    ensures Stored([page]) == page && ReadingOrder([page]) == SortByOrder(page)
  {
    assert [page][..0] == [];
  }

  lemma OutlineOfTitled(length: nat, blocks: seq<Block>)
    requires Plain(blocks)
    ensures var st := OutlineOf(Titled(length, blocks));
            st.sections == [] && st.current == blocks && Titles(st.stack) == PathTo(length)
  {
    TitledSplits(length, blocks);
    OutlineOfTitle(length);
    ExtendedNothing(OutlineOf(Titled(length, [])), blocks);
    OutlineOfPlain(Titled(length, []), blocks);
  }

  lemma TitledSplits(length: nat, blocks: seq<Block>)
    ensures Titled(length, blocks) == Titled(length, []) + blocks
  {
  }

  lemma ExtendedNothing(st: Outline, blocks: seq<Block>)
    requires st.current == []
    ensures Extended(st, blocks) == Outline(st.sections, st.stack, blocks)
  {
    assert [] + blocks == blocks;
  }

  lemma TitledInOrder(length: nat, blocks: seq<Block>)
    requires Plain(blocks)
    ensures ReadingOrder([Titled(length, blocks)]) == Titled(length, blocks)
  {
    var page := Titled(length, blocks);
    forall i | 0 <= i < |page|
      ensures page[i].order == 0
    {
      assert page[i] == if length < 3 then blocks[i] else if i == 0 then TitleOf(length) else blocks[i - 1];
    }
    SortedStays(page);
    OnePage(page);
  }

  /** The page is one section. */
  lemma TitledSection(length: nat, blocks: seq<Block>, respectHeadings: bool)
    requires Plain(blocks) && blocks != [] && (length == 0 || respectHeadings)
    ensures SectionsOf([Titled(length, blocks)], respectHeadings) == [Section(PathTo(length), blocks)]
  {
    if respectHeadings {
      TitledInOrder(length, blocks);
      OutlineOfTitled(length, blocks);
    } else {
      assert Titled(length, blocks) == blocks;
      OnePage(blocks);
      PlainContents(blocks);
    }
  }

  /** All chunks of a document of one section are under its path. */
  lemma OnePath(docId: string, pages: seq<Page>, spec: ChunkSpec, s: Section, c: Chunk)
    requires SectionsOf(pages, spec.respectHeadings) == [s] && c in ChunksOf(docId, pages, spec)
    ensures c.sectionPath == s.path
  {
    var section := SectionOf(docId, pages, spec, c);
  }

  // ------------------------------------------------------- what is embedded

  /** A chunk that is embedded with the blocks of a child, or with its parent's if it is the only child. */
  ghost predicate ChildEmbedded(chunks: seq<Chunk>, group: seq<Block>, child: seq<Block>, spec: ChunkSpec) {
    exists c <- chunks :: !c.isParent && (c.blocks == child || (c.blocks == group && Children(group, spec) == [child]))
  }

  lemma FamilyEmbeds(b: Built, docId: string, group: seq<Block>, child: seq<Block>, path: seq<string>, spec: ChunkSpec)
    requires Tree(b) && child in Children(group, spec) && !Blank(TextOf(group)) && !Blank(TextOf(child))
    ensures ChildEmbedded(FamilyStep(b, docId, group, path, spec).chunks, group, child, spec)
  {
    var parent, children := ParentOf(b, docId, group, path), Children(group, spec);
    ParentIsMadeFor(b, docId, group, path);
    if ChildIsParent(parent, children, spec) {
      assert children == [child];
      assert parent.(isParent := false) in b.chunks + [parent.(isParent := false)];
    } else {
      ChildrenAreAdded(b, parent, children);
      ChildrenEmbedded(WithChildren(b, parent, children).chunks, true, children);
    }
  }

  lemma StillEmbedded(chunks: seq<Chunk>, later: seq<Chunk>, group: seq<Block>, child: seq<Block>, spec: ChunkSpec)
    requires chunks <= later && ChildEmbedded(chunks, group, child, spec)
    ensures ChildEmbedded(later, group, child, spec)
  {
    var c :|
      c in chunks && !c.isParent &&
      (c.blocks == child || (c.blocks == group && Children(group, spec) == [child]));
    assert c in later;
  }

  lemma FamilyKeepsEmbedded(b: Built, docId: string, next: seq<Block>, path: seq<string>, spec: ChunkSpec,
                            group: seq<Block>, child: seq<Block>)
    requires Tree(b) && ChildEmbedded(b.chunks, group, child, spec)
    ensures ChildEmbedded(FamilyStep(b, docId, next, path, spec).chunks, group, child, spec)
  {
    FamilyIsSound(b, docId, next, path, spec);
    StillEmbedded(b.chunks, FamilyStep(b, docId, next, path, spec).chunks, group, child, spec);
  }

  lemma {:induction false} FamiliesEmbed(b: Built, docId: string, groups: seq<seq<Block>>, path: seq<string>,
                                         spec: ChunkSpec, group: seq<Block>, child: seq<Block>)
    requires Tree(b) && group in groups && child in Children(group, spec)
    requires !Blank(TextOf(group)) && !Blank(TextOf(child))
    ensures ChildEmbedded(FamilyFold(b, docId, groups, path, spec).chunks, group, child, spec)
  {
    var init, last := groups[..|groups| - 1], groups[|groups| - 1];
    assert groups == init + [last];
    FamiliesAreSound(b, docId, init, path, spec);
    if group == last {
      FamilyEmbeds(FamilyFold(b, docId, init, path, spec), docId, group, child, path, spec);
    } else {
      FamiliesEmbed(b, docId, init, path, spec, group, child);
      FamilyKeepsEmbedded(FamilyFold(b, docId, init, path, spec), docId, last, path, spec, group, child);
    }
  }

  /** A child of a document of one section is the blocks of an embedded chunk, or its parent is. */
  lemma ChildIsEmbedded(docId: string, pages: seq<Page>, spec: ChunkSpec, s: Section, group: seq<Block>,
                        child: seq<Block>)
    returns (c: Chunk)
    requires SectionsOf(pages, spec.respectHeadings) == [s] && group in Parents(s.blocks, spec)
    requires child in Children(group, spec) && !Blank(TextOf(group)) && !Blank(TextOf(child))
    ensures c in ChunksOf(docId, pages, spec) && !c.isParent
    ensures c.blocks == child || (c.blocks == group && Children(group, spec) == [child])
    ensures c.sectionPath == s.path && c.text == TextOf(c.blocks)
  {
    assert [s][..0] == [];
    assert SectionFold(docId, [], spec) == Built([], 0);
    FamiliesEmbed(Built([], 0), docId, Parents(s.blocks, spec), s.path, spec, group, child);
    assert ChunksOf(docId, pages, spec)
        == FamilyFold(Built([], 0), docId, Parents(s.blocks, spec), s.path, spec).chunks;
    c :| c in ChunksOf(docId, pages, spec) && !c.isParent
         && (c.blocks == child || (c.blocks == group && Children(group, spec) == [child]));
    ChunkIsPlaced(docId, pages, spec, c);
    OnePath(docId, pages, spec, s, c);
  }
}
