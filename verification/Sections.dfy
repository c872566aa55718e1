/**
 Grouping blocks under their heading path. The code keeps a stack of headings while it reads
 blocks in order; the meaning of that stack is stated here without one, as the headings still
 open at a block, and the two are proved equal.
 */
module Sections {
  import opened Collections
  import opened Text
  import opened Splitting

  type Page = seq<Block>

  datatype Mark = Mark(level: int, title: string)

  datatype Section = Section(path: seq<string>, blocks: seq<Block>)

  predicate IsContent(b: Block) {
    b.kind != Header && b.kind != Footer && !Blank(b.text)
  }

  /** Content that belongs under a heading rather than being one. */
  predicate IsBody(b: Block) {
    b.kind != Heading && b.kind != Header && b.kind != Footer && !Blank(b.text)
  }

  // ------------------------------------------------------------ reading order

  /** `x` after everything that does not come later than it. */
  function Insert(sorted: seq<Block>, x: Block): seq<Block> {
    if sorted == [] || sorted[|sorted| - 1].order <= x.order then sorted + [x]
    else Insert(sorted[..|sorted| - 1], x) + [sorted[|sorted| - 1]]
  }

  /** `sorted(page.blocks, key=lambda b: b.order)`. */
  function SortByOrder(page: Page): seq<Block> {
    if page == [] then [] else Insert(SortByOrder(page[..|page| - 1]), page[|page| - 1])
  }

  predicate InOrder(blocks: seq<Block>) {
    forall i, j :: 0 <= i < j < |blocks| ==> blocks[i].order <= blocks[j].order
  }

  /** The blocks numbered `k`, as they stand. */
  function Numbered(blocks: seq<Block>, k: int): seq<Block> {
    if blocks == [] then []
    else WithNext(Numbered(blocks[..|blocks| - 1], k), blocks[|blocks| - 1], k)
  }

  function WithNext(numbered: seq<Block>, b: Block, k: int): seq<Block> {
    if b.order == k then numbered + [b] else numbered
  }

  lemma NumberedSnoc(blocks: seq<Block>, last: Block, k: int)
    ensures Numbered(blocks + [last], k) == WithNext(Numbered(blocks, k), last, k)
  {
    assert (blocks + [last])[..|blocks|] == blocks;
  }

  lemma {:induction false} InsertKeepsOrder(sorted: seq<Block>, x: Block)
    requires InOrder(sorted)
    ensures InOrder(Insert(sorted, x)) && |Insert(sorted, x)| == |sorted| + 1
    ensures forall b :: b in Insert(sorted, x) <==> b in sorted || b == x
  {
    if sorted != [] && sorted[|sorted| - 1].order > x.order {
      var init, last := sorted[..|sorted| - 1], sorted[|sorted| - 1];
      InsertKeepsOrder(init, x);
      assert sorted == init + [last];
      assert forall b <- init :: b.order <= last.order;
      assert forall b <- Insert(init, x) :: b.order <= last.order;
    }
  }

  lemma {:induction false} InsertIsStable(sorted: seq<Block>, x: Block, k: int)
    requires InOrder(sorted)
    ensures Numbered(Insert(sorted, x), k) == WithNext(Numbered(sorted, k), x, k)
  {
    if sorted == [] || sorted[|sorted| - 1].order <= x.order {
      NumberedSnoc(sorted, x, k);
    } else {
      var init, last := sorted[..|sorted| - 1], sorted[|sorted| - 1];
      InsertIsStable(init, x, k);
      NumberedSnoc(Insert(init, x), last, k);
    }
  }

  lemma {:induction false} SortKeepsBlocks(page: Page)
    ensures InOrder(SortByOrder(page)) && |SortByOrder(page)| == |page|
    ensures forall b :: b in SortByOrder(page) <==> b in page
  {
    if page != [] {
      SortKeepsBlocks(page[..|page| - 1]);
      InsertKeepsOrder(SortByOrder(page[..|page| - 1]), page[|page| - 1]);
      assert page == page[..|page| - 1] + [page[|page| - 1]];
    }
  }

  lemma {:induction false} SortIsStable(page: Page, k: int)
    ensures Numbered(SortByOrder(page), k) == Numbered(page, k)
  {
    if page != [] {
      var init := page[..|page| - 1];
      SortIsStable(init, k);
      SortKeepsBlocks(init);
      InsertIsStable(SortByOrder(init), page[|page| - 1], k);
    }
  }

  lemma InsertLast(sorted: seq<Block>, x: Block)
    requires InOrder(sorted + [x])
    ensures Insert(sorted, x) == sorted + [x]
  {
    if sorted != [] {
      assert (sorted + [x])[|sorted| - 1] == sorted[|sorted| - 1];
      assert (sorted + [x])[|sorted|] == x;
    }
  }

  lemma {:induction false} SortedStays(page: Page)
    requires InOrder(page)
    ensures SortByOrder(page) == page
  {
    if page != [] {
      var init, last := page[..|page| - 1], page[|page| - 1];
      assert page == init + [last];
      SortedStays(init);
      InsertLast(init, last);
    }
  }

  /** In order, and blocks with the same number keep the order they were stored in. */
  lemma SortByOrderIsStable(page: Page, k: int)
    ensures InOrder(SortByOrder(page)) && |SortByOrder(page)| == |page|
    ensures forall b :: b in SortByOrder(page) <==> b in page
    ensures Numbered(SortByOrder(page), k) == Numbered(page, k)
  {
    SortKeepsBlocks(page);
    SortIsStable(page, k);
  }

  function ReadingOrder(pages: seq<Page>): seq<Block> {
    if pages == [] then [] else ReadingOrder(pages[..|pages| - 1]) + SortByOrder(pages[|pages| - 1])
  }

  function Stored(pages: seq<Page>): seq<Block> {
    if pages == [] then [] else Stored(pages[..|pages| - 1]) + pages[|pages| - 1]
  }

  function Contents(blocks: seq<Block>): (r: seq<Block>)
    ensures forall b :: b in r <==> b in blocks && IsContent(b)
  {
    if blocks == [] then []
    else
      var last := blocks[|blocks| - 1];
      Contents(blocks[..|blocks| - 1]) + if IsContent(last) then [last] else []
  }

  // ---------------------------------------------------------------- the stack

  function PopTo(stack: seq<Mark>, level: int): seq<Mark> {
    if stack != [] && stack[|stack| - 1].level >= level then PopTo(stack[..|stack| - 1], level) else stack
  }

  function Titles(stack: seq<Mark>): seq<string> {
    seq(|stack|, i requires 0 <= i < |stack| => stack[i].title)
  }

  datatype Outline = Outline(sections: seq<Section>, stack: seq<Mark>, current: seq<Block>)

  function Flushed(st: Outline): seq<Section> {
    st.sections + if st.current == [] then [] else [Section(Titles(st.stack), st.current)]
  }

  function OutlineStep(st: Outline, b: Block): Outline {
    if b.kind == Heading then
      Outline(Flushed(st), PopTo(st.stack, b.level) + [Mark(b.level, Strip(b.text))], [])
    else if IsContent(b) then st.(current := st.current + [b])
    else st
  }

  function OutlineOf(blocks: seq<Block>): Outline {
    if blocks == [] then Outline([], [], [])
    else OutlineStep(OutlineOf(blocks[..|blocks| - 1]), blocks[|blocks| - 1])
  }

  lemma OutlineSnoc(blocks: seq<Block>, b: Block)
    ensures OutlineOf(blocks + [b]) == OutlineStep(OutlineOf(blocks), b)
  {
    assert (blocks + [b])[..|blocks|] == blocks;
  }

  /** `_sections`. */
  function SectionsOf(pages: seq<Page>, respectHeadings: bool): seq<Section> {
    if !respectHeadings then [Section([], Contents(Stored(pages)))]
    else
      var sections := Flushed(OutlineOf(ReadingOrder(pages)));
      if sections == [] then [Section([], Contents(Stored(pages)))] else sections
  }

  method PopLoop(stack: seq<Mark>, level: int) returns (popped: seq<Mark>)
    ensures popped == PopTo(stack, level)
  {
    popped := stack;
    while popped != [] && popped[|popped| - 1].level >= level
      invariant PopTo(popped, level) == PopTo(stack, level)
    {
      popped := popped[..|popped| - 1];
    }
  }

  /** The body of the block loop. */
  method AddBlock(st: Outline, block: Block) returns (sections: seq<Section>, stack: seq<Mark>, current: seq<Block>)
    ensures Outline(sections, stack, current) == OutlineStep(st, block)
  {
    sections, stack, current := st.sections, st.stack, st.current;
    if block.kind == Heading {
      if current != [] {
        sections := sections + [Section(Titles(stack), current)];
        current := [];
      }
      stack := PopLoop(stack, block.level);
      stack := stack + [Mark(block.level, Strip(block.text))];
      return;
    }
    if IsContent(block) {
      current := current + [block];
    }
  }

  lemma OutlineNext(before: seq<Block>, page: seq<Block>, i: nat)
    requires i < |page|
    ensures OutlineOf(before + page[..i + 1]) == OutlineStep(OutlineOf(before + page[..i]), page[i])
  {
    assert before + page[..i + 1] == before + page[..i] + [page[i]];
    OutlineSnoc(before + page[..i], page[i]);
  }

  /** The block loop of one page; `before` are the blocks of the pages before it. */
  method AddPage(st: Outline, page: seq<Block>, ghost before: seq<Block>)
    returns (sections: seq<Section>, stack: seq<Mark>, current: seq<Block>)
    requires st == OutlineOf(before)
    ensures Outline(sections, stack, current) == OutlineOf(before + page)
  {
    sections, stack, current := st.sections, st.stack, st.current;
    assert before + page[..0] == before;
    for i := 0 to |page|
      invariant Outline(sections, stack, current) == OutlineOf(before + page[..i])
    {
      OutlineNext(before, page, i);
      sections, stack, current := AddBlock(Outline(sections, stack, current), page[i]);
    }
    assert page[..|page|] == page;
  }

  lemma ReadingOrderNext(pages: seq<Page>, p: nat)
    requires p < |pages|
    ensures ReadingOrder(pages[..p + 1]) == ReadingOrder(pages[..p]) + SortByOrder(pages[p])
  {
    assert pages[..p + 1][..p] == pages[..p];
  }

  method SectionsLoop(pages: seq<Page>, respectHeadings: bool) returns (sections: seq<Section>)
    ensures sections == SectionsOf(pages, respectHeadings)
  {
    if !respectHeadings {
      return [Section([], Contents(Stored(pages)))];
    }
    sections := [];
    var stack: seq<Mark> := [];
    var current: seq<Block> := [];
    for p := 0 to |pages|
      invariant Outline(sections, stack, current) == OutlineOf(ReadingOrder(pages[..p]))
    {
      ReadingOrderNext(pages, p);
      sections, stack, current :=
        AddPage(Outline(sections, stack, current), SortByOrder(pages[p]), ReadingOrder(pages[..p]));
    }
    assert pages[..|pages|] == pages;
    if current != [] {
      sections := sections + [Section(Titles(stack), current)];
    }
    if sections == [] {
      sections := [Section([], Contents(Stored(pages)))];
    }
  }

  // ------------------------------------------------------- what a path means

  /** The heading at `j` has not been followed by one of equal or smaller level. */
  predicate IsOpen(blocks: seq<Block>, j: nat)
    requires j < |blocks|
  {
    && blocks[j].kind == Heading
    && forall k :: j < k < |blocks| && blocks[k].kind == Heading ==> blocks[k].level > blocks[j].level
  }

  /** The open headings among the first `n` blocks, in reading order. */
  function OpenMarks(blocks: seq<Block>, n: nat): seq<Mark>
    requires n <= |blocks|
  {
    if n == 0 then []
    else OpenMarks(blocks, n - 1)
         + if IsOpen(blocks, n - 1) then [Mark(blocks[n - 1].level, Strip(blocks[n - 1].text))] else []
  }

  function OpenIn(blocks: seq<Block>): seq<Mark> {
    OpenMarks(blocks, |blocks|)
  }

  predicate Rising(stack: seq<Mark>) {
    forall i, j :: 0 <= i < j < |stack| ==> stack[i].level < stack[j].level
  }

  /** The marks of smaller level. */
  function Above(stack: seq<Mark>, level: int): seq<Mark> {
    if stack == [] then []
    else
      var last := stack[|stack| - 1];
      Above(stack[..|stack| - 1], level) + if last.level < level then [last] else []
  }

  predicate AllBelow(stack: seq<Mark>, level: int) {
    forall i :: 0 <= i < |stack| ==> stack[i].level < level
  }

  lemma {:induction false} AboveAll(stack: seq<Mark>, level: int)
    requires AllBelow(stack, level)
    ensures Above(stack, level) == stack
  {
    if stack != [] {
      AboveAll(stack[..|stack| - 1], level);
    }
  }

  lemma {:induction false} PopToIsAbove(stack: seq<Mark>, level: int)
    requires Rising(stack)
    ensures PopTo(stack, level) == Above(stack, level)
    ensures Rising(PopTo(stack, level)) && AllBelow(PopTo(stack, level), level)
  {
    if stack != [] {
      if stack[|stack| - 1].level >= level {
        PopToIsAbove(stack[..|stack| - 1], level);
      } else {
        AboveAll(stack, level);
      }
    }
  }

  lemma {:induction false} NotAHeading(blocks: seq<Block>, b: Block, n: nat)
    requires n <= |blocks| && b.kind != Heading
    ensures OpenMarks(blocks + [b], n) == OpenMarks(blocks, n)
  {
    if n > 0 {
      NotAHeading(blocks, b, n - 1);
      SameOpen(blocks, b, n - 1);
    }
  }

  lemma SameOpen(blocks: seq<Block>, b: Block, j: nat)
    requires j < |blocks|
    ensures IsOpen(blocks + [b], j) <==>
              IsOpen(blocks, j) && (b.kind == Heading ==> b.level > blocks[j].level)
  {
    var all := blocks + [b];
    if IsOpen(all, j) {
      forall k | j < k < |blocks| && blocks[k].kind == Heading
        ensures blocks[k].level > blocks[j].level
      {
        assert all[k] == blocks[k];
      }
      assert all[|blocks|] == b;
    }
  }

  lemma {:induction false} HeadingCloses(blocks: seq<Block>, h: Block, n: nat)
    requires n <= |blocks| && h.kind == Heading
    ensures OpenMarks(blocks + [h], n) == Above(OpenMarks(blocks, n), h.level)
  {
    if n > 0 {
      HeadingCloses(blocks, h, n - 1);
      SameOpen(blocks, h, n - 1);
      assert (blocks + [h])[n - 1] == blocks[n - 1];
      var before := OpenMarks(blocks, n - 1);
      assert before + [] == before && Above(before, h.level) + [] == Above(before, h.level);
      AboveSnoc(before, Mark(blocks[n - 1].level, Strip(blocks[n - 1].text)), h.level);
    }
  }

  lemma AboveSnoc(stack: seq<Mark>, m: Mark, level: int)
    ensures Above(stack + [m], level) == Above(stack, level) + if m.level < level then [m] else []
  {
    assert (stack + [m])[..|stack|] == stack;
  }

  lemma OpenSnoc(blocks: seq<Block>, b: Block)
    ensures OpenIn(blocks + [b])
            == if b.kind == Heading then Above(OpenIn(blocks), b.level) + [Mark(b.level, Strip(b.text))]
              else OpenIn(blocks)
  {
    var all := blocks + [b];
    var n := |blocks|;
    assert all[n] == b;
    assert OpenIn(all) == OpenMarks(all, n) + if IsOpen(all, n) then [Mark(b.level, Strip(b.text))] else [];
    if b.kind == Heading {
      HeadingCloses(blocks, b, n);
      assert IsOpen(all, n);
    } else {
      NotAHeading(blocks, b, n);
    }
  }

  /** The stack holds exactly the open headings, and its levels strictly increase. */
  lemma {:induction false} StackIsOpenHeadings(blocks: seq<Block>)
    ensures OutlineOf(blocks).stack == OpenIn(blocks) && Rising(OpenIn(blocks))
  {
    if blocks != [] {
      var init, b := blocks[..|blocks| - 1], blocks[|blocks| - 1];
      assert blocks == init + [b];
      StackIsOpenHeadings(init);
      OpenSnoc(init, b);
      if b.kind == Heading {
        PopToIsAbove(OpenIn(init), b.level);
      }
    }
  }

  // -------------------------------------------------- what the sections hold

  datatype Placed = Placed(path: seq<string>, block: Block)

  /** Every body block in reading order, under the headings open where it stands. */
  function Placement(blocks: seq<Block>): seq<Placed> {
    if blocks == [] then []
    else
      var init, b := blocks[..|blocks| - 1], blocks[|blocks| - 1];
      PlacedNext(Placement(init), Titles(OpenIn(init)), b)
  }

  function PlacedNext(placed: seq<Placed>, path: seq<string>, b: Block): seq<Placed> {
    if IsBody(b) then placed + [Placed(path, b)] else placed
  }

  function PlaceAll(path: seq<string>, blocks: seq<Block>): seq<Placed> {
    seq(|blocks|, i requires 0 <= i < |blocks| => Placed(path, blocks[i]))
  }

  function PlacedIn(sections: seq<Section>): seq<Placed> {
    if sections == [] then []
    else
      var last := sections[|sections| - 1];
      PlacedIn(sections[..|sections| - 1]) + PlaceAll(last.path, last.blocks)
  }

  lemma PlacedSnoc(sections: seq<Section>, s: Section)
    ensures PlacedIn(sections + [s]) == PlacedIn(sections) + PlaceAll(s.path, s.blocks)
  {
    assert (sections + [s])[..|sections|] == sections;
  }

  function PlacedSoFar(st: Outline): seq<Placed> {
    PlacedIn(st.sections) + PlaceAll(Titles(st.stack), st.current)
  }

  lemma FlushedPlaces(st: Outline)
    ensures PlacedIn(Flushed(st)) == PlacedSoFar(st)
  {
    if st.current == [] {
      assert Flushed(st) == st.sections;
    } else {
      PlacedSnoc(st.sections, Section(Titles(st.stack), st.current));
    }
  }

  lemma PlaceOneMore(path: seq<string>, blocks: seq<Block>, b: Block)
    ensures PlaceAll(path, blocks + [b]) == PlaceAll(path, blocks) + [Placed(path, b)]
  {
  }

  lemma OutlineStepPlaces(st: Outline, b: Block)
    ensures PlacedSoFar(OutlineStep(st, b)) == PlacedNext(PlacedSoFar(st), Titles(st.stack), b)
  {
    if b.kind == Heading {
      FlushedPlaces(st);
      assert PlacedIn(Flushed(st)) + [] == PlacedIn(Flushed(st));
    } else if IsBody(b) {
      PlaceOneMore(Titles(st.stack), st.current, b);
      Assoc(PlacedIn(st.sections), PlaceAll(Titles(st.stack), st.current), [Placed(Titles(st.stack), b)]);
    }
  }

  lemma {:induction false} OutlinePlaces(blocks: seq<Block>)
    ensures PlacedSoFar(OutlineOf(blocks)) == Placement(blocks)
  {
    if blocks != [] {
      var init, b := blocks[..|blocks| - 1], blocks[|blocks| - 1];
      OutlinePlaces(init);
      StackIsOpenHeadings(init);
      OutlineStepPlaces(OutlineOf(init), b);
    }
  }

  /**
   With headings respected, the sections in order hold every body block of the
   document in reading order, each under exactly the headings open where it stands;
   a document with no body block is one section of its headings.
   */
  lemma SectionsPlaceEverything(pages: seq<Page>)
    ensures var blocks := ReadingOrder(pages);
            SectionsOf(pages, true)
            == if Placement(blocks) == [] then [Section([], Contents(Stored(pages)))]
               else Flushed(OutlineOf(blocks))
    ensures Placement(ReadingOrder(pages)) != [] ==>
              PlacedIn(SectionsOf(pages, true)) == Placement(ReadingOrder(pages))
  {
    var st := OutlineOf(ReadingOrder(pages));
    OutlinePlaces(ReadingOrder(pages));
    FlushedPlaces(st);
    NoEmptySections(ReadingOrder(pages));
    if Flushed(st) != [] {
      PlacedNonEmpty(Flushed(st));
    }
  }

  lemma {:induction false} NoEmptySections(blocks: seq<Block>)
    ensures forall s <- OutlineOf(blocks).sections :: s.blocks != []
    ensures forall s <- Flushed(OutlineOf(blocks)) :: s.blocks != []
  {
    if blocks != [] {
      NoEmptySections(blocks[..|blocks| - 1]);
    }
  }

  lemma PlacedNonEmpty(sections: seq<Section>)
    requires sections != [] && forall s <- sections :: s.blocks != []
    ensures PlacedIn(sections) != []
  {
    assert sections[|sections| - 1] in sections;
  }

  lemma {:induction false} SomeSection(sections: seq<Section>, p: Placed)
    requires p in PlacedIn(sections)
    ensures exists s <- sections :: p.block in s.blocks
  {
    var init, last := sections[..|sections| - 1], sections[|sections| - 1];
    if p in PlacedIn(init) {
      SomeSection(init, p);
      var s :| s in init && p.block in s.blocks;
      assert s in sections;
    } else {
      var i :| 0 <= i < |last.blocks| && PlaceAll(last.path, last.blocks)[i] == p;
      assert last in sections && last.blocks[i] == p.block;
    }
  }

  lemma {:induction false} BodyIsPlaced(blocks: seq<Block>, b: Block)
    requires b in blocks && IsBody(b)
    ensures exists p <- Placement(blocks) :: p.block == b
  {
    var init, last := blocks[..|blocks| - 1], blocks[|blocks| - 1];
    if b == last {
      var p := Placed(Titles(OpenIn(init)), b);
      assert Placement(blocks) == Placement(init) + [p];
      assert p in Placement(blocks);
    } else {
      assert blocks == init + [last];
      BodyIsPlaced(init, b);
    }
  }

  /** With headings respected, every body block of the document is in a section. */
  lemma BodyHasSection(pages: seq<Page>, b: Block)
    requires b in Stored(pages) && IsBody(b)
    ensures exists s <- SectionsOf(pages, true) :: b in s.blocks
  {
    ReadingOrderHolds(pages);
    BodyIsPlaced(ReadingOrder(pages), b);
    var p :| p in Placement(ReadingOrder(pages)) && p.block == b;
    SectionsPlaceEverything(pages);
    SomeSection(SectionsOf(pages, true), p);
  }

  lemma {:induction false} ReadingOrderHolds(pages: seq<Page>)
    ensures forall b :: b in ReadingOrder(pages) <==> b in Stored(pages)
  {
    if pages != [] {
      ReadingOrderHolds(pages[..|pages| - 1]);
      SortKeepsBlocks(pages[|pages| - 1]);
    }
  }

  /** The document has text that is not a heading, a header or a footer. */
  predicate HasBody(pages: seq<Page>) {
    exists b <- Stored(pages) :: IsBody(b)
  }

  lemma {:induction false} NothingPlaced(blocks: seq<Block>)
    requires forall b <- blocks :: !IsBody(b)
    ensures Placement(blocks) == []
  {
    if blocks != [] {
      var init, last := blocks[..|blocks| - 1], blocks[|blocks| - 1];
      assert last in blocks && forall b <- init :: b in blocks;
      NothingPlaced(init);
    }
  }

  /** Without headings to respect, or without anything under them, all content is one section. */
  lemma OneSection(pages: seq<Page>, respectHeadings: bool)
    requires !respectHeadings || !HasBody(pages)
    ensures SectionsOf(pages, respectHeadings) == [Section([], Contents(Stored(pages)))]
  {
    if respectHeadings {
      SectionsPlaceEverything(pages);
      ReadingOrderHolds(pages);
      NothingPlaced(ReadingOrder(pages));
    }
  }

  /**
   What must be found again: text that is not a running header or footer, and headings
   too where they are not respected or there is nothing under them.
   */
  predicate MustBeFound(pages: seq<Page>, b: Block, respectHeadings: bool) {
    && b in Stored(pages) && !Blank(b.text) && b.kind != Header && b.kind != Footer
    && (b.kind != Heading || !respectHeadings || OnlyHeadings(pages))
  }

  /** All the text there is stands in headings, headers and footers. */
  predicate OnlyHeadings(pages: seq<Page>) {
    forall d <- Stored(pages) :: d.kind == Heading || d.kind == Header || d.kind == Footer || Blank(d.text)
  }

  predicate BodyWithin(sections: seq<Section>, blocks: seq<Block>) {
    forall s <- sections :: forall b <- s.blocks :: b in blocks && IsBody(b)
  }

  lemma {:induction false} OutlineHoldsBody(all: seq<Block>, n: nat)
    requires n <= |all|
    ensures var st := OutlineOf(all[..n]);
            BodyWithin(st.sections, all) && forall b <- st.current :: b in all && IsBody(b)
  {
    if n > 0 {
      OutlineHoldsBody(all, n - 1);
      assert all[..n][..n - 1] == all[..n - 1] && all[..n][n - 1] == all[n - 1] && all[n - 1] in all;
    }
  }

  /** The sections hold nothing but what must be found. */
  lemma SectionsHoldNoMore(pages: seq<Page>, respectHeadings: bool, s: Section, b: Block)
    requires s in SectionsOf(pages, respectHeadings) && b in s.blocks
    ensures MustBeFound(pages, b, respectHeadings)
  {
    var blocks := ReadingOrder(pages);
    assert blocks[..|blocks|] == blocks;
    OutlineHoldsBody(blocks, |blocks|);
    ReadingOrderHolds(pages);
    if respectHeadings && OnlyHeadings(pages) {
      OneSection(pages, true);
    } else if respectHeadings {
      var d :| d in Stored(pages) && IsBody(d);
      BodyHasSection(pages, d);
      BodyIsPlaced(blocks, d);
      SectionsPlaceEverything(pages);
    }
  }
}
