/**
 Greedy packing of blocks into groups that fit a token budget, each group after a
 full one starting with the tail of the one before it.
 */
module Packing {
  import opened Collections
  import opened Text
  import opened Splitting

  datatype ChunkSpec = ChunkSpec(childTokens: int, parentTokens: int, overlapTokens: int,
                                 respectHeadings: bool, neverSplitTableRows: bool, maxChildTokens: int)

  const DEFAULT_SPEC := ChunkSpec(256, 900, 32, true, true, 1800)

  /** A run of blocks with what it carried over, or one piece of an oversized block. */
  datatype Group = Run(carried: seq<Block>, own: seq<Block>) | Single(piece: Block)

  function Blocks(g: Group): seq<Block> {
    match g
    case Run(carried, own) => carried + own
    case Single(piece) => [piece]
  }

  function Own(g: Group): seq<Block> {
    match g
    case Run(_, own) => own
    case Single(piece) => [piece]
  }

  function CostOf(blocks: seq<Block>): nat {
    if blocks == [] then 0 else CostOf(blocks[..|blocks| - 1]) + Estimate(blocks[|blocks| - 1].text)
  }

  lemma CostOfSnoc(blocks: seq<Block>, last: Block)
    ensures CostOf(blocks + [last]) == CostOf(blocks) + Estimate(last.text)
  {
    assert (blocks + [last])[..|blocks|] == blocks;
  }

  lemma {:induction false} CostOfTexts(blocks: seq<Block>)
    ensures Cost(Texts(blocks)) == CostOf(blocks)
  {
    if blocks != [] {
      CostOfTexts(blocks[..|blocks| - 1]);
      assert Texts(blocks)[..|blocks| - 1] == Texts(blocks[..|blocks| - 1]);
    }
  }

  /** The longest tail of `group` that costs at most `room`. */
  function TailWithin(group: seq<Block>, room: int): seq<Block> {
    if group == [] then []
    else
      var last := group[|group| - 1];
      if Estimate(last.text) > room then []
      else TailWithin(group[..|group| - 1], room - Estimate(last.text)) + [last]
  }

  function OverlapBlocks(group: seq<Block>, overlapTokens: int): seq<Block> {
    if overlapTokens == 0 then [] else TailWithin(group, overlapTokens)
  }

  method OverlapBlocksLoop(group: seq<Block>, overlapTokens: int) returns (carried: seq<Block>)
    ensures carried == OverlapBlocks(group, overlapTokens)
  {
    if overlapTokens == 0 {
      return [];
    }
    carried := [];
    var total := 0;
    var i := |group|;
    assert group[..i] == group;
    while i > 0
      invariant 0 <= i <= |group|
      invariant TailWithin(group, overlapTokens) == TailWithin(group[..i], overlapTokens - total) + carried
    {
      var block := group[i - 1];
      var tokens := Estimate(block.text);
      assert group[..i][..i - 1] == group[..i - 1];
      if total + tokens > overlapTokens {
        break;
      }
      carried := [block] + carried;
      total := total + tokens;
      i := i - 1;
    }
  }

  /** A tail of the group that fits the room, and the longest one that does. */
  predicate LongestTail(group: seq<Block>, tail: seq<Block>, room: int) {
    && |tail| <= |group| && group == group[..|group| - |tail|] + tail
    && (tail != [] ==> CostOf(tail) <= room)
    && (|tail| < |group| ==> CostOf(tail) + Estimate(group[|group| - |tail| - 1].text) > room)
  }

  lemma LongerTail(group: seq<Block>, tail: seq<Block>, last: Block, room: int)
    requires Estimate(last.text) <= room && LongestTail(group, tail, room - Estimate(last.text))
    ensures LongestTail(group + [last], tail + [last], room)
  {
    CostOfSnoc(tail, last);
    var all, longer := group + [last], tail + [last];
    assert all[..|all| - |longer|] == group[..|group| - |tail|];
    if |tail| < |group| {
      assert all[|all| - |longer| - 1] == group[|group| - |tail| - 1];
    }
  }

  lemma NoTail(group: seq<Block>, room: int)
    requires group == [] || Estimate(group[|group| - 1].text) > room
    ensures LongestTail(group, [], room)
  {
    assert group[..|group|] + [] == group;
  }

  lemma {:induction false} TailWithinIsLongest(group: seq<Block>, room: int)
    ensures LongestTail(group, TailWithin(group, room), room)
  {
    if group == [] || Estimate(group[|group| - 1].text) > room {
      NoTail(group, room);
    } else {
      var init, last := group[..|group| - 1], group[|group| - 1];
      var tail := TailWithin(init, room - Estimate(last.text));
      assert group == init + [last] && TailWithin(group, room) == tail + [last];
      TailWithinIsLongest(init, room - Estimate(last.text));
      LongerTail(init, tail, last, room);
    }
  }

  /** Groups closed so far, and the run being filled. */
  datatype PackState = PackState(groups: seq<Group>, carried: seq<Block>, own: seq<Block>)

  function Current(st: PackState): seq<Block> {
    st.carried + st.own
  }

  function Closed(st: PackState): seq<Group> {
    st.groups + if st.own == [] then [] else [Run(st.carried, st.own)]
  }

  function Singles(pieces: seq<Block>): seq<Group> {
    seq(|pieces|, i requires 0 <= i < |pieces| => Single(pieces[i]))
  }

  function PackStep(st: PackState, block: Block, budget: int, spec: ChunkSpec): PackState {
    if Estimate(block.text) > budget then
      PackState(Closed(st) + Singles(Split(block, budget, spec.neverSplitTableRows)), [], [])
    else if CostOf(Current(st)) + Estimate(block.text) > budget && st.own != [] then
      PackState(Closed(st), OverlapBlocks(Current(st), spec.overlapTokens), [block])
    else PackState(st.groups, st.carried, st.own + [block])
  }

  function PackFold(blocks: seq<Block>, budget: int, spec: ChunkSpec): PackState {
    if blocks == [] then PackState([], [], [])
    else PackStep(PackFold(blocks[..|blocks| - 1], budget, spec), blocks[|blocks| - 1], budget, spec)
  }

  function Pack(blocks: seq<Block>, budget: int, spec: ChunkSpec): seq<Group> {
    Closed(PackFold(blocks, budget, spec))
  }

  /** Each piece in a group of its own. */
  function Apart(pieces: seq<Block>): seq<seq<Block>> {
    seq(|pieces|, i requires 0 <= i < |pieces| => [pieces[i]])
  }

  function BlocksOfAll(groups: seq<Group>): seq<seq<Block>> {
    seq(|groups|, i requires 0 <= i < |groups| => Blocks(groups[i]))
  }

  // -------------------------------------------------------------- the loop

  function WithGroup(groups: seq<seq<Block>>, current: seq<Block>): seq<seq<Block>> {
    if current == [] then groups else groups + [current]
  }

  lemma BlocksOfClosed(st: PackState)
    requires st.own == [] ==> st.carried == []
    ensures BlocksOfAll(Closed(st)) == WithGroup(BlocksOfAll(st.groups), Current(st))
    ensures Current(st) == [] <==> st.own == []
  {
  }

  lemma BlocksOfSingles(groups: seq<Group>, pieces: seq<Block>)
    ensures BlocksOfAll(groups + Singles(pieces))
            == BlocksOfAll(groups) + Apart(pieces)
  {
  }

  method SplitOversized(block: Block, budget: int, neverSplitRows: bool) returns (pieces: seq<Block>)
    ensures pieces == Split(block, budget, neverSplitRows)
  {
    if block.kind == Table && neverSplitRows {
      pieces := SplitTableLoop(block, budget);
    } else {
      pieces := SplitProseLoop(block, budget);
    }
  }

  /** The plain lists of the loop stand for this state. */
  predicate StandsFor(groups: seq<seq<Block>>, current: seq<Block>, tokens: nat, st: PackState) {
    && groups == BlocksOfAll(st.groups) && current == Current(st) && tokens == CostOf(current)
    && (st.own == [] ==> st.carried == [])
  }

  /** What each branch of the loop does. */
  lemma SplitBranch(groups: seq<seq<Block>>, current: seq<Block>, tokens: nat, st: PackState, block: Block,
                    budget: int, spec: ChunkSpec)
    requires StandsFor(groups, current, tokens, st) && Estimate(block.text) > budget
    ensures StandsFor(WithGroup(groups, current) + Apart(Split(block, budget, spec.neverSplitTableRows)), [], 0,
                      PackStep(st, block, budget, spec))
  {
    var pieces := Split(block, budget, spec.neverSplitTableRows);
    BlocksOfClosed(st);
    BlocksOfSingles(Closed(st), pieces);
    NothingRuns(Closed(st) + Singles(pieces));
  }

  lemma NothingRuns(groups: seq<Group>)
    ensures StandsFor(BlocksOfAll(groups), [], 0, PackState(groups, [], []))
  {
  }

  lemma CloseBranch(groups: seq<seq<Block>>, current: seq<Block>, tokens: nat, st: PackState, block: Block,
                    budget: int, spec: ChunkSpec)
    requires StandsFor(groups, current, tokens, st) && current != []
    requires Estimate(block.text) <= budget && tokens + Estimate(block.text) > budget
    ensures var next := OverlapBlocks(current, spec.overlapTokens) + [block];
            StandsFor(groups + [current], next, CostOf(next), PackStep(st, block, budget, spec))
  {
    BlocksOfClosed(st);
  }

  lemma KeepBranch(groups: seq<seq<Block>>, current: seq<Block>, tokens: nat, st: PackState, block: Block, budget: int,
                   spec: ChunkSpec)
    requires StandsFor(groups, current, tokens, st)
    requires Estimate(block.text) <= budget && (tokens + Estimate(block.text) <= budget || current == [])
    ensures StandsFor(groups, current + [block], tokens + Estimate(block.text), PackStep(st, block, budget, spec))
  {
    Assoc(st.carried, st.own, [block]);
    CostOfSnoc(current, block);
  }

  /** The body of the packing loop; `st` is what the plain lists stand for. */
  method AddBlock(groups: seq<seq<Block>>, current: seq<Block>, currentTokens: nat, block: Block,
                  budget: int, spec: ChunkSpec, ghost st: PackState)
    returns (groups': seq<seq<Block>>, current': seq<Block>, currentTokens': nat)
    requires StandsFor(groups, current, currentTokens, st)
    ensures StandsFor(groups', current', currentTokens', PackStep(st, block, budget, spec))
  {
    groups', current', currentTokens' := groups, current, currentTokens;
    var blockTokens := Estimate(block.text);
    if blockTokens > budget {
      if current' != [] {
        groups' := groups' + [current'];
        current', currentTokens' := [], 0;
      }
      var pieces := SplitOversized(block, budget, spec.neverSplitTableRows);
      groups' := groups' + Apart(pieces);
      SplitBranch(groups, current, currentTokens, st, block, budget, spec);
      return;
    }
    if currentTokens' + blockTokens > budget && current' != [] {
      groups' := groups' + [current'];
      var overlap := OverlapBlocksLoop(current', spec.overlapTokens);
      current' := overlap + [block];
      currentTokens' := CostOf(current');
      CloseBranch(groups, current, currentTokens, st, block, budget, spec);
      return;
    }
    current' := current' + [block];
    currentTokens' := currentTokens' + blockTokens;
    KeepBranch(groups, current, currentTokens, st, block, budget, spec);
  }

  method PackLoop(blocks: seq<Block>, budget: int, spec: ChunkSpec) returns (groups: seq<seq<Block>>)
    ensures groups == BlocksOfAll(Pack(blocks, budget, spec))
  {
    groups := [];
    var current: seq<Block> := [];
    var currentTokens := 0;
    ghost var st := PackState([], [], []);
    for i := 0 to |blocks|
      invariant st == PackFold(blocks[..i], budget, spec)
      invariant StandsFor(groups, current, currentTokens, st)
    {
      PackFoldNext(blocks, i, budget, spec);
      groups, current, currentTokens := AddBlock(groups, current, currentTokens, blocks[i], budget, spec, st);
      st := PackStep(st, blocks[i], budget, spec);
    }
    assert blocks[..|blocks|] == blocks;
    BlocksOfClosed(st);
    if current != [] {
      groups := groups + [current];
    }
  }

  lemma PackFoldNext(blocks: seq<Block>, i: nat, budget: int, spec: ChunkSpec)
    requires i < |blocks|
    ensures PackFold(blocks[..i + 1], budget, spec)
            == PackStep(PackFold(blocks[..i], budget, spec), blocks[i], budget, spec)
  {
    assert blocks[..i + 1][..i] == blocks[..i];
  }

  // ------------------------------------------------------------ conservation

  function Replaced(block: Block, budget: int, spec: ChunkSpec): seq<Block> {
    if Estimate(block.text) > budget then Split(block, budget, spec.neverSplitTableRows) else [block]
  }

  lemma PieceKeepsKind(y: Block, piece: Block, budget: int, neverSplitRows: bool)
    requires piece in Split(y, budget, neverSplitRows)
    ensures piece.kind == y.kind
  {
    if y.kind == Table && neverSplitRows {
      var rows := Rows(y.text);
      if |rows| > 1 {
        SplitTableKeepsRows(y, budget);
        var i := TablePieceAt(y, rows[0], RowGroups(rows[0], rows[1..], budget), piece);
      }
    } else {
      ProsePiecesPackedOrCut(y, budget);
      assert Packed(y, piece, budget) || Cut(y, piece, budget);
    }
  }

  lemma ReplacedKeepsKind(block: Block, x: Block, budget: int, spec: ChunkSpec)
    requires x in Replaced(block, budget, spec)
    ensures x.kind == block.kind
  {
    if Estimate(block.text) > budget {
      PieceKeepsKind(block, x, budget, spec.neverSplitTableRows);
    }
  }

  /** The blocks in order, each oversized one replaced by its pieces. */
  function Expand(blocks: seq<Block>, budget: int, spec: ChunkSpec): seq<Block> {
    if blocks == [] then []
    else
      var last := blocks[|blocks| - 1];
      Expand(blocks[..|blocks| - 1], budget, spec) + Replaced(last, budget, spec)
  }

  function OwnOfAll(groups: seq<Group>): seq<Block> {
    if groups == [] then [] else OwnOfAll(groups[..|groups| - 1]) + Own(groups[|groups| - 1])
  }

  lemma OwnSnoc(groups: seq<Group>, g: Group)
    ensures OwnOfAll(groups + [g]) == OwnOfAll(groups) + Own(g)
  {
    assert (groups + [g])[..|groups|] == groups;
  }

  lemma {:induction false} OwnConcat(a: seq<Group>, b: seq<Group>)
    ensures OwnOfAll(a + b) == OwnOfAll(a) + OwnOfAll(b)
  {
    if b == [] {
      assert a + b == a;
    } else {
      var init, last := b[..|b| - 1], b[|b| - 1];
      assert a + b == a + init + [last];
      OwnSnoc(a + init, last);
      OwnConcat(a, init);
      Assoc(OwnOfAll(a), OwnOfAll(init), Own(last));
    }
  }

  lemma {:induction false} OwnSingles(pieces: seq<Block>)
    ensures OwnOfAll(Singles(pieces)) == pieces
  {
    if pieces != [] {
      var init, last := pieces[..|pieces| - 1], pieces[|pieces| - 1];
      OwnSingles(init);
      OwnSnoc(Singles(init), Single(last));
      assert Singles(pieces) == Singles(init) + [Single(last)];
      assert pieces == init + [last];
    }
  }

  lemma ClosedOwn(st: PackState)
    ensures OwnOfAll(Closed(st)) == OwnOfAll(st.groups) + st.own
  {
    if st.own == [] {
      assert Closed(st) == st.groups;
    } else {
      OwnSnoc(st.groups, Run(st.carried, st.own));
    }
  }

  /** What has been packed, in order. */
  function Content(st: PackState): seq<Block> {
    OwnOfAll(st.groups) + st.own
  }

  lemma SplitConserves(groups: seq<Group>, pieces: seq<Block>)
    ensures Content(PackState(groups + Singles(pieces), [], [])) == OwnOfAll(groups) + pieces
  {
    OwnConcat(groups, Singles(pieces));
    OwnSingles(pieces);
  }

  lemma PackStepConserves(st: PackState, block: Block, budget: int, spec: ChunkSpec)
    ensures Content(PackStep(st, block, budget, spec)) == Content(st) + Replaced(block, budget, spec)
  {
    ClosedOwn(st);
    if Estimate(block.text) > budget {
      SplitConserves(Closed(st), Split(block, budget, spec.neverSplitTableRows));
    } else {
      Assoc(OwnOfAll(st.groups), st.own, [block]);
    }
  }

  lemma {:induction false} PackFoldConserves(blocks: seq<Block>, budget: int, spec: ChunkSpec)
    ensures Content(PackFold(blocks, budget, spec)) == Expand(blocks, budget, spec)
  {
    if blocks != [] {
      PackFoldConserves(blocks[..|blocks| - 1], budget, spec);
      PackStepConserves(PackFold(blocks[..|blocks| - 1], budget, spec), blocks[|blocks| - 1], budget, spec);
    }
  }

  /** Without what each group carried over, the groups are the blocks, in order, nothing lost or repeated. */
  lemma PackConserves(blocks: seq<Block>, budget: int, spec: ChunkSpec)
    ensures OwnOfAll(Pack(blocks, budget, spec)) == Expand(blocks, budget, spec)
  {
    PackFoldConserves(blocks, budget, spec);
    ClosedOwn(PackFold(blocks, budget, spec));
  }

  // ------------------------------------------------------ budget and greed

  /** What a run may carry over. */
  function Overlap(spec: ChunkSpec): nat {
    if spec.overlapTokens > 0 then spec.overlapTokens else 0
  }

  /** Within budget, or one block after what was carried over. */
  predicate GroupFits(g: Group, budget: int, spec: ChunkSpec) {
    g.Run? ==>
      && g.own != []
      && (CostOf(Blocks(g)) <= budget || (|g.own| == 1 && CostOf(g.carried) <= Overlap(spec)))
      && forall b <- Blocks(g) :: Estimate(b.text) <= budget
  }

  /** `h` follows `g`: it carries over the tail of `g`, and its first block did not fit into `g`. */
  predicate Follows(g: Group, h: Group, budget: int, spec: ChunkSpec) {
    match (g, h)
    case (Run(_, _), Run(carried, own)) =>
      && own != [] && carried == OverlapBlocks(Blocks(g), spec.overlapTokens)
      && CostOf(Blocks(g)) + Estimate(own[0].text) > budget
    case (Single(_), Run(carried, _)) => carried == []
    case (_, Single(_)) => true
  }

  predicate Tight(groups: seq<Group>, budget: int, spec: ChunkSpec) {
    && (forall g <- groups :: GroupFits(g, budget, spec))
    && (forall i :: 0 < i < |groups| ==> Follows(groups[i - 1], groups[i], budget, spec))
    && (groups != [] && groups[0].Run? ==> groups[0].carried == [])
  }

  /** `g` may be appended to `groups`. */
  predicate MayFollow(groups: seq<Group>, g: Group, budget: int, spec: ChunkSpec) {
    if groups == [] then g.Run? ==> g.carried == [] else Follows(groups[|groups| - 1], g, budget, spec)
  }

  /** The closed groups are tight, and so they stay when the run being filled is closed. */
  predicate TightState(st: PackState, budget: int, spec: ChunkSpec) {
    && Tight(st.groups, budget, spec)
    && (st.own == [] ==> st.carried == [] && (st.groups == [] || st.groups[|st.groups| - 1].Single?))
    && (st.own != [] ==>
          GroupFits(Run(st.carried, st.own), budget, spec)
            && MayFollow(st.groups, Run(st.carried, st.own), budget, spec))
  }

  lemma TightSnoc(groups: seq<Group>, g: Group, budget: int, spec: ChunkSpec)
    requires Tight(groups, budget, spec) && GroupFits(g, budget, spec) && MayFollow(groups, g, budget, spec)
    ensures Tight(groups + [g], budget, spec)
  {
    var all := groups + [g];
    forall i | 0 < i < |all|
      ensures Follows(all[i - 1], all[i], budget, spec)
    {
      if i < |groups| {
        assert all[i - 1] == groups[i - 1] && all[i] == groups[i];
      }
    }
  }

  lemma {:induction false} TightSingles(groups: seq<Group>, pieces: seq<Block>, budget: int, spec: ChunkSpec)
    requires Tight(groups, budget, spec)
    ensures Tight(groups + Singles(pieces), budget, spec)
  {
    if pieces == [] {
      assert groups + Singles(pieces) == groups;
    } else {
      var init, last := pieces[..|pieces| - 1], pieces[|pieces| - 1];
      assert groups + Singles(pieces) == groups + Singles(init) + [Single(last)];
      TightSingles(groups, init, budget, spec);
      TightSnoc(groups + Singles(init), Single(last), budget, spec);
    }
  }

  lemma OverlapFits(group: seq<Block>, spec: ChunkSpec)
    ensures CostOf(OverlapBlocks(group, spec.overlapTokens)) <= Overlap(spec)
    ensures forall b <- OverlapBlocks(group, spec.overlapTokens) :: b in group
  {
    TailWithinIsLongest(group, spec.overlapTokens);
  }

  lemma ClosedIsTight(st: PackState, budget: int, spec: ChunkSpec)
    requires TightState(st, budget, spec)
    ensures Tight(Closed(st), budget, spec)
  {
    if st.own == [] {
      assert Closed(st) == st.groups;
    } else {
      TightSnoc(st.groups, Run(st.carried, st.own), budget, spec);
    }
  }

  /** Splitting always yields something. */
  lemma SplitYields(block: Block, budget: int, neverSplitRows: bool)
    ensures Split(block, budget, neverSplitRows) != []
  {
  }

  predicate StillFits(st: PackState, block: Block, budget: int) {
    Estimate(block.text) <= budget && (CostOf(Current(st)) + Estimate(block.text) <= budget || st.own == [])
  }

  lemma ExtendRunFits(st: PackState, block: Block, budget: int, spec: ChunkSpec)
    requires TightState(st, budget, spec) && StillFits(st, block, budget)
    ensures GroupFits(Run(st.carried, st.own + [block]), budget, spec)
  {
    Assoc(st.carried, st.own, [block]);
    CostOfSnoc(Current(st), block);
  }

  lemma ExtendRunFollows(st: PackState, block: Block, budget: int, spec: ChunkSpec)
    requires TightState(st, budget, spec) && StillFits(st, block, budget)
    ensures MayFollow(st.groups, Run(st.carried, st.own + [block]), budget, spec)
  {
    if st.own != [] {
      assert (st.own + [block])[0] == st.own[0];
    }
  }

  lemma NextRunFits(group: seq<Block>, block: Block, budget: int, spec: ChunkSpec)
    requires Estimate(block.text) <= budget && forall b <- group :: Estimate(b.text) <= budget
    ensures GroupFits(Run(OverlapBlocks(group, spec.overlapTokens), [block]), budget, spec)
  {
    OverlapFits(group, spec);
  }

  lemma NextRunFollows(st: PackState, block: Block, budget: int, spec: ChunkSpec)
    requires st.own != [] && CostOf(Current(st)) + Estimate(block.text) > budget
    ensures MayFollow(Closed(st), Run(OverlapBlocks(Current(st), spec.overlapTokens), [block]), budget, spec)
  {
    assert Closed(st)[|Closed(st)| - 1] == Run(st.carried, st.own);
  }

  lemma PackStepTight(st: PackState, block: Block, budget: int, spec: ChunkSpec)
    requires TightState(st, budget, spec)
    ensures TightState(PackStep(st, block, budget, spec), budget, spec)
  {
    ClosedIsTight(st, budget, spec);
    if Estimate(block.text) > budget {
      var pieces := Split(block, budget, spec.neverSplitTableRows);
      SplitYields(block, budget, spec.neverSplitTableRows);
      TightSingles(Closed(st), pieces, budget, spec);
    } else if CostOf(Current(st)) + Estimate(block.text) > budget && st.own != [] {
      NextRunFits(Current(st), block, budget, spec);
      NextRunFollows(st, block, budget, spec);
    } else {
      ExtendRunFits(st, block, budget, spec);
      ExtendRunFollows(st, block, budget, spec);
    }
  }

  lemma {:induction false} PackFoldTight(blocks: seq<Block>, budget: int, spec: ChunkSpec)
    ensures TightState(PackFold(blocks, budget, spec), budget, spec)
  {
    if blocks != [] {
      PackFoldTight(blocks[..|blocks| - 1], budget, spec);
      PackStepTight(PackFold(blocks[..|blocks| - 1], budget, spec), blocks[|blocks| - 1], budget, spec);
    }
  }

  /**
   Every run is within budget or adds one block to what it carried over; each run after
   a run starts with that one's overlap; and no run was closed while its next block still
   fitted.
   */
  lemma PackIsTight(blocks: seq<Block>, budget: int, spec: ChunkSpec)
    ensures Tight(Pack(blocks, budget, spec), budget, spec)
  {
    PackFoldTight(blocks, budget, spec);
    ClosedIsTight(PackFold(blocks, budget, spec), budget, spec);
  }

  function Joined(blocks: seq<Block>): string {
    Join(Texts(blocks), "\n")
  }

  function TextOf(blocks: seq<Block>): string {
    Strip(Joined(blocks))
  }

  lemma TextIsShorter(blocks: seq<Block>)
    ensures |TextOf(blocks)| <= |Joined(blocks)|
  {
    StripKeepsInk(Joined(blocks));
  }

  /**
   Five times the longest a run can be, in characters: as many one-token blocks as the
   budget allows, or as many as the overlap allows and then one block of the whole budget.
   */
  function Peak(budget: int, overlap: nat): int {
    var spread, lumped := 40 * budget - 5, 40 * overlap + 5 * ((18 * budget + 17) / 5);
    if spread >= lumped then spread else lumped
  }

  lemma JoinOneMore(texts: seq<string>, last: string)
    ensures |Join(texts + [last], "\n")| == TotalLength(texts) + |last| + |texts|
  {
    TotalLengthSnoc(texts, last);
    JoinLength(texts + [last], "\n");
  }

  lemma PeakBounds(cost: nat, total: nat, count: nat, last: nat, budget: int, overlap: nat)
    requires 5 * total <= 18 * cost + 17 * count && count <= cost <= overlap && 5 * last <= 18 * budget + 17
    ensures 5 * (total + last + count) <= Peak(budget, overlap)
  {
    assert 5 * (total + count) <= 40 * overlap;
    assert last <= (18 * budget + 17) / 5;
  }

  lemma OneTextMore(texts: seq<string>, last: string, budget: int, overlap: nat)
    requires Cost(texts) <= overlap && Estimate(last) <= budget
    ensures 5 * (TotalLength(texts) + |last| + |texts|) <= Peak(budget, overlap)
  {
    CostBoundsLength(texts);
    PeakBounds(Cost(texts), TotalLength(texts), |texts|, |last|, budget, overlap);
  }

  /** One block after what was carried over. */
  lemma OneBlockMore(carried: seq<Block>, x: Block, budget: int, overlap: nat)
    requires CostOf(carried) <= overlap && Estimate(x.text) <= budget
    ensures 5 * |Joined(carried + [x])| <= Peak(budget, overlap)
  {
    CostOfTexts(carried);
    OneTextMore(Texts(carried), x.text, budget, overlap);
    JoinOneMore(Texts(carried), x.text);
    TextsConcat(carried, [x]);
    assert Texts([x]) == [x.text];
  }

  lemma WithinBudgetLength(blocks: seq<Block>, budget: int)
    requires blocks != [] && CostOf(blocks) <= budget
    ensures 5 * |Joined(blocks)| <= 40 * budget - 5
  {
    CostOfTexts(blocks);
    JoinedEstimate(Texts(blocks), "\n");
  }

  lemma RunLength(g: Group, budget: int, spec: ChunkSpec)
    requires g.Run? && GroupFits(g, budget, spec)
    ensures 5 * |TextOf(Blocks(g))| <= 5 * |Joined(Blocks(g))| <= Peak(budget, Overlap(spec))
    ensures budget >= 1
  {
    TextIsShorter(Blocks(g));
    assert g.own[0] in Blocks(g);
    if CostOf(Blocks(g)) <= budget {
      WithinBudgetLength(Blocks(g), budget);
    } else {
      assert g.own == [g.own[0]];
      OneBlockMore(g.carried, g.own[0], budget, Overlap(spec));
    }
  }

  /** With the default parameters a run of child blocks stays far inside the embedding window. */
  lemma DefaultChildFitsWindow(blocks: seq<Block>, g: Group)
    requires g in Pack(blocks, DEFAULT_SPEC.childTokens, DEFAULT_SPEC) && g.Run?
    ensures Estimate(TextOf(Blocks(g))) <= 568 < DEFAULT_SPEC.maxChildTokens
  {
    PackIsTight(blocks, DEFAULT_SPEC.childTokens, DEFAULT_SPEC);
    RunLength(g, DEFAULT_SPEC.childTokens, DEFAULT_SPEC);
  }

  // ------------------------------------------------- what can still overrun

  /** A piece of some oversized block among those packed. */
  ghost predicate PieceOf(blocks: seq<Block>, piece: Block, budget: int, spec: ChunkSpec) {
    exists x <- blocks :: Estimate(x.text) > budget && piece in Split(x, budget, spec.neverSplitTableRows)
  }

  ghost predicate SinglesArePieces(groups: seq<Group>, blocks: seq<Block>, budget: int, spec: ChunkSpec) {
    forall g <- groups :: g.Single? ==> PieceOf(blocks, g.piece, budget, spec)
  }

  lemma SinglesOfSplit(blocks: seq<Block>, x: Block, budget: int, spec: ChunkSpec)
    requires x in blocks && Estimate(x.text) > budget
    ensures SinglesArePieces(Singles(Split(x, budget, spec.neverSplitTableRows)), blocks, budget, spec)
  {
    var pieces := Split(x, budget, spec.neverSplitTableRows);
    forall i | 0 <= i < |pieces|
      ensures PieceOf(blocks, pieces[i], budget, spec)
    {
      assert pieces[i] in pieces;
    }
  }

  lemma PackStepSingles(blocks: seq<Block>, st: PackState, b: Block, budget: int, spec: ChunkSpec)
    requires b in blocks && SinglesArePieces(st.groups, blocks, budget, spec)
    ensures SinglesArePieces(PackStep(st, b, budget, spec).groups, blocks, budget, spec)
  {
    if Estimate(b.text) > budget {
      SinglesOfSplit(blocks, b, budget, spec);
    }
  }

  lemma {:induction false} PackFoldSingles(all: seq<Block>, blocks: seq<Block>, budget: int, spec: ChunkSpec)
    requires forall b <- blocks :: b in all
    ensures SinglesArePieces(PackFold(blocks, budget, spec).groups, all, budget, spec)
  {
    if blocks != [] {
      var init, last := blocks[..|blocks| - 1], blocks[|blocks| - 1];
      assert last in blocks && forall b <- init :: b in blocks;
      PackFoldSingles(all, init, budget, spec);
      PackStepSingles(all, PackFold(init, budget, spec), last, budget, spec);
    }
  }

  /** One row of the table `x` that cannot be within budget, or words cut from an oversized sentence of `x`. */
  ghost predicate OverrunOf(x: Block, piece: Block, budget: int, spec: ChunkSpec) {
    && Estimate(x.text) > budget && piece in Split(x, budget, spec.neverSplitTableRows)
    && if x.kind == Table && spec.neverSplitTableRows then RowTooLong(x, piece, budget)
       else Cut(x, piece, budget) && !Packed(x, piece, budget)
  }

  ghost predicate Overrun(blocks: seq<Block>, piece: Block, budget: int, spec: ChunkSpec) {
    exists x <- blocks :: OverrunOf(x, piece, budget, spec)
  }

  lemma PieceLength(x: Block, piece: Block, budget: int, spec: ChunkSpec)
    requires Estimate(x.text) > budget && piece in Split(x, budget, spec.neverSplitTableRows)
    ensures 5 * |piece.text| <= 40 * budget - 5 || OverrunOf(x, piece, budget, spec)
  {
    if x.kind == Table && spec.neverSplitTableRows {
      TablePieceLength(x, piece, budget);
    } else {
      ProsePiecesPackedOrCut(x, budget);
      if Packed(x, piece, budget) {
        PackedLength(x, piece, budget);
      }
    }
  }

  lemma SingleLength(blocks: seq<Block>, piece: Block, budget: int, spec: ChunkSpec)
    requires Single(piece) in Pack(blocks, budget, spec)
    ensures 5 * |piece.text| <= 40 * budget - 5 || Overrun(blocks, piece, budget, spec)
  {
    PackFoldSingles(blocks, blocks, budget, spec);
    assert PieceOf(blocks, piece, budget, spec);
    var x :| x in blocks && Estimate(x.text) > budget && piece in Split(x, budget, spec.neverSplitTableRows);
    PieceLength(x, piece, budget, spec);
  }

  /**
   A packed group overruns only as a lone piece of one of the blocks: one row of a table,
   or words cut from one long sentence. Every other group is within the peak, and there is
   one only if the budget is at least one token.
   */
  lemma GroupEstimate(blocks: seq<Block>, g: Group, budget: int, spec: ChunkSpec)
    requires g in Pack(blocks, budget, spec)
    ensures (budget >= 1 && 5 * |TextOf(Blocks(g))| <= Peak(budget, Overlap(spec)))
         || (g.Single? && Overrun(blocks, g.piece, budget, spec))
  {
    if g.Run? {
      PackIsTight(blocks, budget, spec);
      RunLength(g, budget, spec);
    } else {
      SingleLength(blocks, g.piece, budget, spec);
      LonePieceText(g.piece);
    }
  }

  lemma LonePieceText(piece: Block)
    ensures |TextOf([piece])| <= |piece.text|
  {
    assert Texts([piece]) == [piece.text];
    StripKeepsInk(piece.text);
  }

  // ------------------------------------------------ where grouped blocks come from

  /** A block as it is packed: one of `blocks`, or a piece of an oversized one. */
  predicate ComesFrom(blocks: seq<Block>, x: Block, budget: int, spec: ChunkSpec) {
    exists b <- blocks :: x in Replaced(b, budget, spec)
  }

  predicate AllComeFrom(blocks: seq<Block>, xs: seq<Block>, budget: int, spec: ChunkSpec) {
    forall i :: 0 <= i < |xs| ==> ComesFrom(blocks, xs[i], budget, spec)
  }

  predicate GroupsComeFrom(blocks: seq<Block>, groups: seq<Group>, budget: int, spec: ChunkSpec) {
    forall i :: 0 <= i < |groups| ==> AllComeFrom(blocks, Blocks(groups[i]), budget, spec)
  }

  predicate StateComesFrom(blocks: seq<Block>, st: PackState, budget: int, spec: ChunkSpec) {
    GroupsComeFrom(blocks, st.groups, budget, spec) && AllComeFrom(blocks, Current(st), budget, spec)
  }

  lemma TailComesFrom(blocks: seq<Block>, group: seq<Block>, tail: seq<Block>, budget: int, spec: ChunkSpec)
    requires AllComeFrom(blocks, group, budget, spec) && |tail| <= |group| && tail == group[|group| - |tail|..]
    ensures AllComeFrom(blocks, tail, budget, spec)
  {
  }

  lemma OverlapComesFrom(blocks: seq<Block>, group: seq<Block>, budget: int, spec: ChunkSpec)
    requires AllComeFrom(blocks, group, budget, spec)
    ensures AllComeFrom(blocks, OverlapBlocks(group, spec.overlapTokens), budget, spec)
  {
    TailWithinIsLongest(group, spec.overlapTokens);
    TailComesFrom(blocks, group, OverlapBlocks(group, spec.overlapTokens), budget, spec);
  }

  lemma SinglesComeFrom(blocks: seq<Block>, b: Block, pieces: seq<Block>, budget: int, spec: ChunkSpec)
    requires b in blocks && pieces == Replaced(b, budget, spec)
    ensures GroupsComeFrom(blocks, Singles(pieces), budget, spec)
  {
    forall i | 0 <= i < |pieces|
      ensures AllComeFrom(blocks, Blocks(Singles(pieces)[i]), budget, spec)
    {
      assert pieces[i] in pieces;
      assert ComesFrom(blocks, pieces[i], budget, spec);
    }
  }

  lemma ClosedComesFrom(blocks: seq<Block>, st: PackState, budget: int, spec: ChunkSpec)
    requires StateComesFrom(blocks, st, budget, spec)
    ensures GroupsComeFrom(blocks, Closed(st), budget, spec)
  {
  }

  lemma SnocComesFrom(blocks: seq<Block>, xs: seq<Block>, b: Block, budget: int, spec: ChunkSpec)
    requires AllComeFrom(blocks, xs, budget, spec) && b in blocks && Estimate(b.text) <= budget
    ensures AllComeFrom(blocks, xs + [b], budget, spec)
  {
    assert Replaced(b, budget, spec) == [b] && b in [b];
    assert ComesFrom(blocks, b, budget, spec);
  }

  lemma PackStepComesFrom(blocks: seq<Block>, st: PackState, b: Block, budget: int, spec: ChunkSpec)
    requires StateComesFrom(blocks, st, budget, spec) && b in blocks
    ensures StateComesFrom(blocks, PackStep(st, b, budget, spec), budget, spec)
  {
    ClosedComesFrom(blocks, st, budget, spec);
    if Estimate(b.text) > budget {
      SinglesComeFrom(blocks, b, Split(b, budget, spec.neverSplitTableRows), budget, spec);
    } else if CostOf(Current(st)) + Estimate(b.text) > budget && st.own != [] {
      OverlapComesFrom(blocks, Current(st), budget, spec);
      SnocComesFrom(blocks, OverlapBlocks(Current(st), spec.overlapTokens), b, budget, spec);
    } else {
      SnocComesFrom(blocks, Current(st), b, budget, spec);
      Assoc(st.carried, st.own, [b]);
    }
  }

  lemma {:induction false} PackFoldComesFrom(all: seq<Block>, blocks: seq<Block>, budget: int, spec: ChunkSpec)
    requires forall b <- blocks :: b in all
    ensures StateComesFrom(all, PackFold(blocks, budget, spec), budget, spec)
  {
    if blocks != [] {
      var init, last := blocks[..|blocks| - 1], blocks[|blocks| - 1];
      assert last in blocks && forall b <- init :: b in blocks;
      PackFoldComesFrom(all, init, budget, spec);
      PackStepComesFrom(all, PackFold(init, budget, spec), last, budget, spec);
    }
  }

  /** Packing makes nothing up: what a group holds, carried over or not, is a block or a piece of one. */
  lemma GroupsHoldBlocks(blocks: seq<Block>, budget: int, spec: ChunkSpec)
    ensures GroupsComeFrom(blocks, Pack(blocks, budget, spec), budget, spec)
  {
    PackFoldComesFrom(blocks, blocks, budget, spec);
    ClosedComesFrom(blocks, PackFold(blocks, budget, spec), budget, spec);
  }
}
