/**
 The parent and child chunks of a document. Only chunks that are not parents are
 embedded and searched, so what matters is that the tree is sound and that all of
 the text can be found in those.
 */
module Chunker {
  import opened Option
  import opened Text
  import opened Splitting
  import opened Packing
  import opened Sections

  datatype Chunk = Chunk(id: nat, docId: string, text: string, ordinal: nat, parentId: Option<nat>,
                         blocks: seq<Block>, sectionPath: seq<string>, tokenCount: nat, isParent: bool)

  /** `_make_chunk`; `id` is the next fresh identifier. */
  function MakeChunk(docId: string, blocks: seq<Block>, path: seq<string>, id: nat, ordinal: nat,
                     parentId: Option<nat>, isParent: bool): Chunk {
    var text := TextOf(blocks);
    Chunk(id, docId, text, ordinal, parentId, blocks, path, Estimate(text), isParent)
  }

  /** Chunks appended, and identifiers used. */
  datatype Built = Built(chunks: seq<Chunk>, ids: nat)

  function ChildStep(b: Built, docId: string, group: seq<Block>, path: seq<string>, parentId: nat): Built {
    var child := MakeChunk(docId, group, path, b.ids, |b.chunks|, Some(parentId), false);
    Built(if Blank(child.text) then b.chunks else b.chunks + [child], b.ids + 1)
  }

  function ChildFold(b: Built, docId: string, groups: seq<seq<Block>>, path: seq<string>, parentId: nat): Built {
    if groups == [] then b
    else ChildStep(ChildFold(b, docId, groups[..|groups| - 1], path, parentId), docId, groups[|groups| - 1],
                   path, parentId)
  }

  function Children(group: seq<Block>, spec: ChunkSpec): seq<seq<Block>> {
    BlocksOfAll(Pack(group, spec.childTokens, spec))
  }

  function ParentOf(b: Built, docId: string, group: seq<Block>, path: seq<string>): Chunk {
    MakeChunk(docId, group, path, b.ids, |b.chunks|, None, true)
  }

  /** One identical child would only return the same text twice. */
  predicate ChildIsParent(parent: Chunk, children: seq<seq<Block>>, spec: ChunkSpec) {
    |children| == 1 && parent.tokenCount <= spec.childTokens
  }

  function AddParent(b: Built, parent: Chunk, children: seq<seq<Block>>, spec: ChunkSpec): Built {
    if Blank(parent.text) then Built(b.chunks, b.ids + 1)
    else if ChildIsParent(parent, children, spec) then Built(b.chunks + [parent.(isParent := false)], b.ids + 1)
    else WithChildren(b, parent, children)
  }

  function WithChildren(b: Built, parent: Chunk, children: seq<seq<Block>>): Built {
    ChildFold(Built(b.chunks + [parent], b.ids + 1), parent.docId, children, parent.sectionPath, parent.id)
  }

  function FamilyStep(b: Built, docId: string, group: seq<Block>, path: seq<string>, spec: ChunkSpec): Built {
    AddParent(b, ParentOf(b, docId, group, path), Children(group, spec), spec)
  }

  function FamilyFold(b: Built, docId: string, groups: seq<seq<Block>>, path: seq<string>, spec: ChunkSpec): Built {
    if groups == [] then b
    else FamilyStep(FamilyFold(b, docId, groups[..|groups| - 1], path, spec), docId, groups[|groups| - 1], path, spec)
  }

  function Parents(blocks: seq<Block>, spec: ChunkSpec): seq<seq<Block>> {
    BlocksOfAll(Pack(blocks, spec.parentTokens, spec))
  }

  function SectionFold(docId: string, sections: seq<Section>, spec: ChunkSpec): Built {
    if sections == [] then Built([], 0)
    else
      var last := sections[|sections| - 1];
      FamilyFold(SectionFold(docId, sections[..|sections| - 1], spec), docId, Parents(last.blocks, spec),
                 last.path, spec)
  }

  function ChunksOf(docId: string, pages: seq<Page>, spec: ChunkSpec): seq<Chunk> {
    SectionFold(docId, SectionsOf(pages, spec.respectHeadings), spec).chunks
  }

  // ---------------------------------------------------------------- the loops

  method AddChildren(b: Built, docId: string, groups: seq<seq<Block>>, path: seq<string>, parentId: nat)
    returns (chunks: seq<Chunk>, ids: nat)
    ensures Built(chunks, ids) == ChildFold(b, docId, groups, path, parentId)
  {
    chunks, ids := b.chunks, b.ids;
    for i := 0 to |groups|
      invariant Built(chunks, ids) == ChildFold(b, docId, groups[..i], path, parentId)
    {
      assert groups[..i + 1][..i] == groups[..i];
      var child := MakeChunk(docId, groups[i], path, ids, |chunks|, Some(parentId), false);
      ids := ids + 1;
      if !Blank(child.text) {
        chunks := chunks + [child];
      }
    }
    assert groups[..|groups|] == groups;
  }

  lemma UpdateLast(chunks: seq<Chunk>, c: Chunk, d: Chunk)
    ensures (chunks + [c])[|chunks| := d] == chunks + [d]
  {
  }

  method AddParentLoop(b: Built, parent: Chunk, children: seq<seq<Block>>, spec: ChunkSpec)
    returns (chunks: seq<Chunk>, ids: nat)
    requires !Blank(parent.text)
    ensures Built(chunks, ids) == AddParent(b, parent, children, spec)
  {
    chunks, ids := b.chunks + [parent], b.ids + 1;
    if |children| == 1 && parent.tokenCount <= spec.childTokens {
      UpdateLast(b.chunks, parent, parent.(isParent := false));
      chunks := chunks[|chunks| - 1 := chunks[|chunks| - 1].(isParent := false)];
      return;
    }
    chunks, ids := AddChildren(Built(chunks, ids), parent.docId, children, parent.sectionPath, parent.id);
  }

  method AddFamily(b: Built, docId: string, group: seq<Block>, path: seq<string>, spec: ChunkSpec)
    returns (chunks: seq<Chunk>, ids: nat)
    ensures Built(chunks, ids) == FamilyStep(b, docId, group, path, spec)
  {
    var parent := ParentOf(b, docId, group, path);
    if Blank(parent.text) {
      return b.chunks, b.ids + 1;
    }
    var children := PackLoop(group, spec.childTokens, spec);
    chunks, ids := AddParentLoop(b, parent, children, spec);
  }

  method AddSection(b: Built, docId: string, section: Section, spec: ChunkSpec)
    returns (chunks: seq<Chunk>, ids: nat)
    ensures Built(chunks, ids) == FamilyFold(b, docId, Parents(section.blocks, spec), section.path, spec)
  {
    chunks, ids := b.chunks, b.ids;
    var groups := PackLoop(section.blocks, spec.parentTokens, spec);
    for i := 0 to |groups|
      invariant Built(chunks, ids) == FamilyFold(b, docId, groups[..i], section.path, spec)
    {
      assert groups[..i + 1][..i] == groups[..i];
      chunks, ids := AddFamily(Built(chunks, ids), docId, groups[i], section.path, spec);
    }
    assert groups[..|groups|] == groups;
  }

  lemma SectionFoldNext(docId: string, sections: seq<Section>, spec: ChunkSpec, i: nat)
    requires i < |sections|
    ensures SectionFold(docId, sections[..i + 1], spec)
            == FamilyFold(SectionFold(docId, sections[..i], spec), docId, Parents(sections[i].blocks, spec),
                          sections[i].path, spec)
  {
    assert sections[..i + 1][..i] == sections[..i];
  }

  method ChunkDocument(docId: string, pages: seq<Page>, spec: ChunkSpec) returns (chunks: seq<Chunk>)
    ensures chunks == ChunksOf(docId, pages, spec)
  {
    var sections := SectionsLoop(pages, spec.respectHeadings);
    chunks := [];
    var ids := 0;
    for i := 0 to |sections|
      invariant Built(chunks, ids) == SectionFold(docId, sections[..i], spec)
    {
      SectionFoldNext(docId, sections, spec, i);
      chunks, ids := AddSection(Built(chunks, ids), docId, sections[i], spec);
    }
    assert sections[..|sections|] == sections;
  }

  // ----------------------------------------------------------------- the tree

  /** Some chunk before `i` is a parent with this identifier. */
  predicate ParentBefore(chunks: seq<Chunk>, i: nat, parent: nat)
    requires i <= |chunks|
  {
    exists j :: 0 <= j < i && chunks[j].id == parent && chunks[j].isParent
  }

  predicate ChildAfter(chunks: seq<Chunk>, i: nat)
    requires i < |chunks|
  {
    exists j :: i < j < |chunks| && chunks[j].parentId == Some(chunks[i].id)
  }

  /** Where each chunk stands, and what it hangs from. */
  predicate WellPlaced(chunks: seq<Chunk>, ids: nat) {
    forall i :: 0 <= i < |chunks| ==>
      && chunks[i].ordinal == i && chunks[i].id < ids && !Blank(chunks[i].text)
      && chunks[i].tokenCount == Estimate(chunks[i].text) && chunks[i].text == TextOf(chunks[i].blocks)
      && (chunks[i].parentId.Some? ==> !chunks[i].isParent && ParentBefore(chunks, i, chunks[i].parentId.value))
  }

  predicate DistinctIds(chunks: seq<Chunk>) {
    forall i, j :: 0 <= i < j < |chunks| ==> chunks[i].id < chunks[j].id
  }

  /** Every parent has a child, except the one at `open`, whose children are being added. */
  predicate NoChildlessParent(chunks: seq<Chunk>, open: int) {
    forall i :: 0 <= i < |chunks| && i != open && chunks[i].isParent ==> ChildAfter(chunks, i)
  }

  predicate TreeBut(b: Built, open: int) {
    WellPlaced(b.chunks, b.ids) && DistinctIds(b.chunks) && NoChildlessParent(b.chunks, open)
  }

  predicate Tree(b: Built) {
    TreeBut(b, -1)
  }

  /** `c` is a chunk made to be appended to `b`. */
  predicate Fits(b: Built, c: Chunk) {
    && c.id == b.ids && c.ordinal == |b.chunks| && !Blank(c.text)
    && c.tokenCount == Estimate(c.text) && c.text == TextOf(c.blocks)
    && (c.parentId.Some? ==> !c.isParent && ParentBefore(b.chunks, |b.chunks|, c.parentId.value))
  }

  lemma AppendKeepsPlace(b: Built, c: Chunk)
    requires WellPlaced(b.chunks, b.ids) && Fits(b, c)
    ensures WellPlaced(b.chunks + [c], b.ids + 1)
  {
    var all := b.chunks + [c];
    forall i | 0 <= i < |all| && all[i].parentId.Some?
      ensures ParentBefore(all, i, all[i].parentId.value)
    {
      var j :| 0 <= j < i && b.chunks[j].id == all[i].parentId.value && b.chunks[j].isParent;
      assert all[j] == b.chunks[j];
    }
  }

  lemma StillChildAfter(chunks: seq<Chunk>, c: Chunk, i: nat)
    requires i < |chunks| && ChildAfter(chunks, i)
    ensures ChildAfter(chunks + [c], i)
  {
    var j :| i < j < |chunks| && chunks[j].parentId == Some(chunks[i].id);
    assert (chunks + [c])[j] == chunks[j];
  }

  /** Appending a chunk keeps the tree, but for the appended chunk itself if it is a parent. */
  lemma AppendKeepsTree(b: Built, c: Chunk, open: int)
    requires TreeBut(b, open) && Fits(b, c) && open < |b.chunks|
    ensures !c.isParent ==> TreeBut(Built(b.chunks + [c], b.ids + 1), open)
    ensures c.isParent && open < 0 ==> TreeBut(Built(b.chunks + [c], b.ids + 1), |b.chunks|)
  {
    AppendKeepsPlace(b, c);
    assert DistinctIds(b.chunks + [c]);
    forall i | 0 <= i < |b.chunks| && i != open && b.chunks[i].isParent
      ensures ChildAfter(b.chunks + [c], i)
    {
      StillChildAfter(b.chunks, c, i);
    }
  }

  // ---------------------------------------------------------------- coverage

  /** Some embedded chunk holds exactly these blocks. */
  predicate Embedded(chunks: seq<Chunk>, group: seq<Block>) {
    exists c <- chunks :: !c.isParent && c.blocks == group
  }

  predicate Searchable(chunks: seq<Chunk>, x: Block) {
    exists c <- chunks :: !c.isParent && x in c.blocks
  }

  lemma BlankText(blocks: seq<Block>)
    ensures Blank(TextOf(blocks)) <==> forall b <- blocks :: Blank(b.text)
  {
    StripKeepsInk(Join(Texts(blocks), "\n"));
    JoinKeepsInk(Texts(blocks), "\n");
    if InkOfAll(Texts(blocks)) != "" {
      SomeInk(Texts(blocks));
      var i :| 0 <= i < |blocks| && !Blank(Texts(blocks)[i]);
      assert blocks[i] in blocks;
    } else {
      forall b | b in blocks
        ensures Blank(b.text)
      {
        var i :| 0 <= i < |blocks| && blocks[i] == b;
        InkOfPart(Texts(blocks), i);
      }
    }
  }

  lemma {:induction false} InkOfPart(parts: seq<string>, i: nat)
    requires i < |parts| && InkOfAll(parts) == ""
    ensures Blank(parts[i])
  {
    if i > 0 {
      InkOfPart(parts[1..], i - 1);
    }
  }

  lemma {:induction false} InExpand(group: seq<Block>, x: Block, y: Block, budget: int, spec: ChunkSpec)
    requires x in group && y in Replaced(x, budget, spec)
    ensures y in Expand(group, budget, spec)
  {
    var init, last := group[..|group| - 1], group[|group| - 1];
    assert group == init + [last];
    if x in init {
      InExpand(init, x, y, budget, spec);
    }
  }

  lemma {:induction false} InSomeGroup(groups: seq<Group>, y: Block)
    requires y in OwnOfAll(groups)
    ensures exists g <- groups :: y in Own(g)
  {
    var init, last := groups[..|groups| - 1], groups[|groups| - 1];
    assert groups == init + [last];
    if y !in Own(last) {
      InSomeGroup(init, y);
    } else {
      assert last in groups;
    }
  }

  /** Whatever packing makes of a block ends up in one of the groups. */
  lemma InSomeChild(group: seq<Block>, x: Block, y: Block, budget: int, spec: ChunkSpec)
    requires x in group && y in Replaced(x, budget, spec)
    ensures exists child <- BlocksOfAll(Pack(group, budget, spec)) :: y in child
  {
    var groups := Pack(group, budget, spec);
    InExpand(group, x, y, budget, spec);
    PackConserves(group, budget, spec);
    InSomeGroup(groups, y);
    var g :| g in groups && y in Own(g);
    var i :| 0 <= i < |groups| && groups[i] == g;
    assert BlocksOfAll(groups)[i] == Blocks(g);
    assert Blocks(g) in BlocksOfAll(groups) && y in Blocks(g);
  }

  lemma SomeReplacement(x: Block, budget: int, spec: ChunkSpec)
    requires !Blank(x.text)
    ensures exists y <- Replaced(x, budget, spec) :: !Blank(y.text)
  {
    if Estimate(x.text) > budget {
      SplitLeavesInk(x, budget, spec.neverSplitTableRows);
    } else {
      assert x in [x];
    }
  }

  /** A parent with something in it has a child with something in it. */
  lemma SomeChild(group: seq<Block>, spec: ChunkSpec)
    requires !Blank(TextOf(group))
    ensures exists child <- Children(group, spec) :: !Blank(TextOf(child))
  {
    BlankText(group);
    var x :| x in group && !Blank(x.text);
    SomeReplacement(x, spec.childTokens, spec);
    var y :| y in Replaced(x, spec.childTokens, spec) && !Blank(y.text);
    InSomeChild(group, x, y, spec.childTokens, spec);
    var child :| child in Children(group, spec) && y in child;
    BlankText(child);
  }

  // ------------------------------------------------------------- one family

  lemma ChildFoldNext(b: Built, docId: string, groups: seq<seq<Block>>, path: seq<string>, parentId: nat, i: nat)
    requires i < |groups|
    ensures ChildFold(b, docId, groups[..i + 1], path, parentId)
            == ChildStep(ChildFold(b, docId, groups[..i], path, parentId), docId, groups[i], path, parentId)
  {
    assert groups[..i + 1][..i] == groups[..i];
  }

  /** What is known of the chunks while the children of the parent at `k` are added. */
  predicate Adding(b: Built, now: Built, k: nat, parentId: nat) {
    && TreeBut(now, k) && k < |b.chunks| && b.chunks <= now.chunks
    && now.chunks[k].id == parentId && now.chunks[k].isParent
    && (|now.chunks| > |b.chunks| ==> ChildAfter(now.chunks, k))
  }

  lemma ChildStepAdds(b: Built, now: Built, docId: string, group: seq<Block>, path: seq<string>, k: nat, parentId: nat)
    requires Adding(b, now, k, parentId)
    ensures var next := ChildStep(now, docId, group, path, parentId);
            && Adding(b, next, k, parentId) && now.chunks <= next.chunks
            && (!Blank(TextOf(group)) ==> Embedded(next.chunks, group) && |next.chunks| > |b.chunks|)
  {
    var child := MakeChunk(docId, group, path, now.ids, |now.chunks|, Some(parentId), false);
    if !Blank(child.text) {
      assert ParentBefore(now.chunks, |now.chunks|, parentId);
      AppendKeepsTree(now, child, k);
      var next := now.chunks + [child];
      assert next[|now.chunks|].parentId == Some(next[k].id);
      assert child in next;
    }
  }

  predicate EmbeddedUpTo(chunks: seq<Chunk>, more: bool, groups: seq<seq<Block>>, i: nat)
    requires i <= |groups|
  {
    forall j :: 0 <= j < i && !Blank(TextOf(groups[j])) ==> Embedded(chunks, groups[j]) && more
  }

  lemma EmbeddedOneMore(chunks: seq<Chunk>, next: seq<Chunk>, more: bool, groups: seq<seq<Block>>, i: nat)
    requires i < |groups| && chunks <= next && EmbeddedUpTo(chunks, more, groups, i)
    requires !Blank(TextOf(groups[i])) ==> Embedded(next, groups[i])
    ensures EmbeddedUpTo(next, more || !Blank(TextOf(groups[i])), groups, i + 1)
  {
    forall j | 0 <= j < i && !Blank(TextOf(groups[j]))
      ensures Embedded(next, groups[j])
    {
      var c :| c in chunks && !c.isParent && c.blocks == groups[j];
      assert c in next;
    }
  }

  /** The state after the first `i` children. */
  predicate AddingUpTo(b: Built, now: Built, groups: seq<seq<Block>>, k: nat, parentId: nat, i: nat)
    requires i <= |groups|
  {
    Adding(b, now, k, parentId) && EmbeddedUpTo(now.chunks, |now.chunks| > |b.chunks|, groups, i)
  }

  lemma AddOneMore(b: Built, now: Built, docId: string, groups: seq<seq<Block>>, path: seq<string>,
                   k: nat, parentId: nat, i: nat)
    requires i < |groups| && AddingUpTo(b, now, groups, k, parentId, i)
    ensures AddingUpTo(b, ChildStep(now, docId, groups[i], path, parentId), groups, k, parentId, i + 1)
  {
    var next := ChildStep(now, docId, groups[i], path, parentId);
    ChildStepAdds(b, now, docId, groups[i], path, k, parentId);
    EmbeddedOneMore(now.chunks, next.chunks, |now.chunks| > |b.chunks|, groups, i);
  }

  lemma {:induction false} ChildFoldAdds(b: Built, docId: string, groups: seq<seq<Block>>, path: seq<string>,
                                         k: nat, parentId: nat, i: nat)
    requires i <= |groups| && Adding(b, b, k, parentId)
    ensures AddingUpTo(b, ChildFold(b, docId, groups[..i], path, parentId), groups, k, parentId, i)
  {
    if i > 0 {
      ChildFoldAdds(b, docId, groups, path, k, parentId, i - 1);
      ChildFoldNext(b, docId, groups, path, parentId, i - 1);
      AddOneMore(b, ChildFold(b, docId, groups[..i - 1], path, parentId), docId, groups, path, k, parentId, i - 1);
    }
  }

  /** `x` can be found, whole or in all of its pieces, among the embedded chunks. */
  predicate Covered(chunks: seq<Chunk>, x: Block, spec: ChunkSpec) {
    !Blank(x.text) ==>
      || Searchable(chunks, x)
      || (Estimate(x.text) > spec.childTokens &&
          forall y <- Split(x, spec.childTokens, spec.neverSplitTableRows) :: !Blank(y.text) ==> Searchable(chunks, y))
  }

  lemma ChildrenCover(chunks: seq<Chunk>, group: seq<Block>, x: Block, spec: ChunkSpec)
    requires x in group
    requires forall child <- Children(group, spec) :: !Blank(TextOf(child)) ==> Embedded(chunks, child)
    ensures Covered(chunks, x, spec)
  {
    forall y | y in Replaced(x, spec.childTokens, spec) && !Blank(y.text)
      ensures Searchable(chunks, y)
    {
      InSomeChild(group, x, y, spec.childTokens, spec);
      var child :| child in Children(group, spec) && y in child;
      BlankText(child);
      assert Embedded(chunks, child);
    }
    assert x in [x];
  }

  predicate GroupCovered(chunks: seq<Chunk>, group: seq<Block>, spec: ChunkSpec) {
    forall x <- group :: Covered(chunks, x, spec)
  }

  lemma CoveredLater(chunks: seq<Chunk>, later: seq<Chunk>, group: seq<Block>, spec: ChunkSpec)
    requires chunks <= later && GroupCovered(chunks, group, spec)
    ensures GroupCovered(later, group, spec)
  {
    forall x | Searchable(chunks, x)
      ensures Searchable(later, x)
    {
      var c :| c in chunks && !c.isParent && x in c.blocks;
      assert c in later;
    }
  }

  /** `next` extends `b` soundly, and everything in `group` can be found in it. */
  predicate SoundAfter(b: Built, next: Built, group: seq<Block>, spec: ChunkSpec) {
    Tree(next) && b.chunks <= next.chunks && GroupCovered(next.chunks, group, spec)
  }

  lemma BlankGroupIsSound(b: Built, group: seq<Block>, spec: ChunkSpec)
    requires Tree(b) && Blank(TextOf(group))
    ensures SoundAfter(b, Built(b.chunks, b.ids + 1), group, spec)
  {
    BlankText(group);
    assert WellPlaced(b.chunks, b.ids + 1);
  }

  lemma LoneChildIsSound(b: Built, c: Chunk, spec: ChunkSpec)
    requires Tree(b) && Fits(b, c) && !c.isParent
    ensures SoundAfter(b, Built(b.chunks + [c], b.ids + 1), c.blocks, spec)
  {
    AppendKeepsTree(b, c, -1);
    assert c in b.chunks + [c];
    assert forall x <- c.blocks :: Searchable(b.chunks + [c], x);
  }

  lemma ChildrenAreAdded(b: Built, parent: Chunk, children: seq<seq<Block>>)
    requires Tree(b) && Fits(b, parent) && parent.isParent
    ensures var open := Built(b.chunks + [parent], b.ids + 1);
            AddingUpTo(open, WithChildren(b, parent, children), children, |b.chunks|, parent.id, |children|)
  {
    var open := Built(b.chunks + [parent], b.ids + 1);
    AppendKeepsTree(b, parent, -1);
    assert children[..|children|] == children;
    ChildFoldAdds(open, parent.docId, children, parent.sectionPath, |b.chunks|, parent.id, |children|);
  }

  lemma ChildrenEmbedded(chunks: seq<Chunk>, more: bool, children: seq<seq<Block>>)
    requires EmbeddedUpTo(chunks, more, children, |children|)
    ensures forall child <- children :: !Blank(TextOf(child)) ==> Embedded(chunks, child) && more
  {
    forall child | child in children && !Blank(TextOf(child))
      ensures Embedded(chunks, child) && more
    {
      var j :| 0 <= j < |children| && children[j] == child;
    }
  }

  lemma AddedCovers(b: Built, now: Built, group: seq<Block>, k: nat, parentId: nat, spec: ChunkSpec)
    requires !Blank(TextOf(group))
    requires AddingUpTo(b, now, Children(group, spec), k, parentId, |Children(group, spec)|)
    ensures Tree(now) && GroupCovered(now.chunks, group, spec)
  {
    ChildrenEmbedded(now.chunks, |now.chunks| > |b.chunks|, Children(group, spec));
    SomeChild(group, spec);
    forall x | x in group
      ensures Covered(now.chunks, x, spec)
    {
      ChildrenCover(now.chunks, group, x, spec);
    }
  }

  lemma ManyChildrenAreSound(b: Built, parent: Chunk, spec: ChunkSpec)
    requires Tree(b) && Fits(b, parent) && parent.isParent
    ensures SoundAfter(b, WithChildren(b, parent, Children(parent.blocks, spec)), parent.blocks, spec)
  {
    ChildrenAreAdded(b, parent, Children(parent.blocks, spec));
    AddedCovers(Built(b.chunks + [parent], b.ids + 1), WithChildren(b, parent, Children(parent.blocks, spec)),
                parent.blocks, |b.chunks|, parent.id, spec);
  }

  /** `parent` is a chunk made for its blocks, to be appended to `b` if there is something in it. */
  predicate MadeFor(b: Built, parent: Chunk) {
    && parent.text == TextOf(parent.blocks) && parent.isParent
    && (!Blank(parent.text) ==> Fits(b, parent) && Fits(b, parent.(isParent := false)))
  }

  lemma AddLoneIsSound(b: Built, parent: Chunk, children: seq<seq<Block>>, spec: ChunkSpec)
    requires Tree(b) && MadeFor(b, parent) && !Blank(parent.text) && ChildIsParent(parent, children, spec)
    ensures SoundAfter(b, AddParent(b, parent, children, spec), parent.blocks, spec)
  {
    LoneChildIsSound(b, parent.(isParent := false), spec);
  }

  lemma AddManyIsSound(b: Built, parent: Chunk, children: seq<seq<Block>>, spec: ChunkSpec)
    requires Tree(b) && MadeFor(b, parent) && !Blank(parent.text) && !ChildIsParent(parent, children, spec)
    requires children == Children(parent.blocks, spec)
    ensures SoundAfter(b, AddParent(b, parent, children, spec), parent.blocks, spec)
  {
    ManyChildrenAreSound(b, parent, spec);
  }

  lemma AddParentIsSound(b: Built, parent: Chunk, spec: ChunkSpec)
    requires Tree(b) && MadeFor(b, parent)
    ensures SoundAfter(b, AddParent(b, parent, Children(parent.blocks, spec), spec), parent.blocks, spec)
  {
    var children := Children(parent.blocks, spec);
    if Blank(parent.text) {
      BlankGroupIsSound(b, parent.blocks, spec);
    } else if ChildIsParent(parent, children, spec) {
      AddLoneIsSound(b, parent, children, spec);
    } else {
      AddManyIsSound(b, parent, children, spec);
    }
  }

  lemma ParentIsMadeFor(b: Built, docId: string, group: seq<Block>, path: seq<string>)
    ensures MadeFor(b, ParentOf(b, docId, group, path)) && ParentOf(b, docId, group, path).blocks == group
  {
  }

  /** The chunks made for one parent group. */
  lemma FamilyIsSound(b: Built, docId: string, group: seq<Block>, path: seq<string>, spec: ChunkSpec)
    requires Tree(b)
    ensures SoundAfter(b, FamilyStep(b, docId, group, path, spec), group, spec)
  {
    ParentIsMadeFor(b, docId, group, path);
    AddParentIsSound(b, ParentOf(b, docId, group, path), spec);
  }

  // ------------------------------------------------------------- all of them

  predicate GroupsCovered(chunks: seq<Chunk>, groups: seq<seq<Block>>, spec: ChunkSpec) {
    forall group <- groups :: GroupCovered(chunks, group, spec)
  }

  lemma GroupsCoveredLater(chunks: seq<Chunk>, later: seq<Chunk>, groups: seq<seq<Block>>, spec: ChunkSpec)
    requires chunks <= later && GroupsCovered(chunks, groups, spec)
    ensures GroupsCovered(later, groups, spec)
  {
    forall group | group in groups
      ensures GroupCovered(later, group, spec)
    {
      CoveredLater(chunks, later, group, spec);
    }
  }

  lemma {:induction false} FamiliesAreSound(b: Built, docId: string, groups: seq<seq<Block>>, path: seq<string>,
                                            spec: ChunkSpec)
    requires Tree(b)
    ensures var next := FamilyFold(b, docId, groups, path, spec);
            Tree(next) && b.chunks <= next.chunks && GroupsCovered(next.chunks, groups, spec)
  {
    if groups != [] {
      var init, last := groups[..|groups| - 1], groups[|groups| - 1];
      var mid := FamilyFold(b, docId, init, path, spec);
      assert groups == init + [last];
      FamiliesAreSound(b, docId, init, path, spec);
      FamilyIsSound(mid, docId, last, path, spec);
      GroupsCoveredLater(mid.chunks, FamilyStep(mid, docId, last, path, spec).chunks, init, spec);
    }
  }

  /** `b`, or every piece it was split into for a parent, is covered by the embedded chunks. */
  predicate BlockCovered(chunks: seq<Chunk>, b: Block, spec: ChunkSpec) {
    forall x <- Replaced(b, spec.parentTokens, spec) :: Covered(chunks, x, spec)
  }

  lemma ParentsCover(chunks: seq<Chunk>, blocks: seq<Block>, b: Block, spec: ChunkSpec)
    requires GroupsCovered(chunks, Parents(blocks, spec), spec) && b in blocks
    ensures BlockCovered(chunks, b, spec)
  {
    forall x | x in Replaced(b, spec.parentTokens, spec)
      ensures Covered(chunks, x, spec)
    {
      InSomeChild(blocks, b, x, spec.parentTokens, spec);
      var group :| group in Parents(blocks, spec) && x in group;
      assert GroupCovered(chunks, group, spec);
    }
  }

  predicate SectionsCovered(chunks: seq<Chunk>, sections: seq<Section>, spec: ChunkSpec) {
    forall s <- sections :: GroupsCovered(chunks, Parents(s.blocks, spec), spec)
  }

  lemma SectionsCoveredOneMore(chunks: seq<Chunk>, later: seq<Chunk>, sections: seq<Section>, s: Section,
                               spec: ChunkSpec)
    requires chunks <= later && SectionsCovered(chunks, sections, spec)
    requires GroupsCovered(later, Parents(s.blocks, spec), spec)
    ensures SectionsCovered(later, sections + [s], spec)
  {
    forall r | r in sections
      ensures GroupsCovered(later, Parents(r.blocks, spec), spec)
    {
      GroupsCoveredLater(chunks, later, Parents(r.blocks, spec), spec);
    }
  }

  lemma SectionIsSound(b: Built, docId: string, before: seq<Section>, s: Section, spec: ChunkSpec)
    requires Tree(b) && SectionsCovered(b.chunks, before, spec)
    ensures var next := FamilyFold(b, docId, Parents(s.blocks, spec), s.path, spec);
            Tree(next) && SectionsCovered(next.chunks, before + [s], spec)
  {
    var next := FamilyFold(b, docId, Parents(s.blocks, spec), s.path, spec);
    FamiliesAreSound(b, docId, Parents(s.blocks, spec), s.path, spec);
    SectionsCoveredOneMore(b.chunks, next.chunks, before, s, spec);
  }

  lemma {:induction false} SectionsAreSound(docId: string, sections: seq<Section>, spec: ChunkSpec)
    ensures Tree(SectionFold(docId, sections, spec))
    ensures SectionsCovered(SectionFold(docId, sections, spec).chunks, sections, spec)
  {
    if sections == [] {
      assert Tree(Built([], 0));
    } else {
      var init, last := sections[..|sections| - 1], sections[|sections| - 1];
      assert sections == init + [last];
      SectionsAreSound(docId, init, spec);
      SectionIsSound(SectionFold(docId, init, spec), docId, init, last, spec);
    }
  }

  lemma SectionIsCovered(docId: string, sections: seq<Section>, spec: ChunkSpec, s: Section, b: Block)
    requires s in sections && b in s.blocks
    ensures BlockCovered(SectionFold(docId, sections, spec).chunks, b, spec)
  {
    SectionsAreSound(docId, sections, spec);
    ParentsCover(SectionFold(docId, sections, spec).chunks, s.blocks, b, spec);
  }

  lemma BlockIsFound(docId: string, pages: seq<Page>, spec: ChunkSpec, b: Block)
    requires MustBeFound(pages, b, spec.respectHeadings)
    ensures BlockCovered(ChunksOf(docId, pages, spec), b, spec)
  {
    var sections := SectionsOf(pages, spec.respectHeadings);
    if spec.respectHeadings && HasBody(pages) {
      BodyHasSection(pages, b);
    } else {
      OneSection(pages, spec.respectHeadings);
      assert b in sections[0].blocks && sections[0] in sections;
    }
    var s :| s in sections && b in s.blocks;
    SectionIsCovered(docId, sections, spec, s, b);
  }

  /**
   For every document and all parameters: the chunks form a tree (ordinals count
   up, each child names an earlier parent, no parent is left without a child), and
   every content block of the document is embedded, whole or in all of its pieces,
   but for headings, which make the sections' paths.
   */
  lemma ChunksAreSound(docId: string, pages: seq<Page>, spec: ChunkSpec)
    ensures Tree(SectionFold(docId, SectionsOf(pages, spec.respectHeadings), spec))
    ensures forall b <- Stored(pages) ::
              MustBeFound(pages, b, spec.respectHeadings) ==> BlockCovered(ChunksOf(docId, pages, spec), b, spec)
  {
    SectionsAreSound(docId, SectionsOf(pages, spec.respectHeadings), spec);
    forall b | MustBeFound(pages, b, spec.respectHeadings)
      ensures BlockCovered(ChunksOf(docId, pages, spec), b, spec)
    {
      BlockIsFound(docId, pages, spec, b);
    }
  }
}
