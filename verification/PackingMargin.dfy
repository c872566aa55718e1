/** How much room a child budget needs under the embedding window. */
module PackingMargin {
  import opened Text
  import opened Splitting
  import opened Packing

  // The budget is spent block by block, each estimate rounded down; the chunk is estimated once,
  // on the joined text.

  /** A block whose estimate loses the most to rounding: seven characters count as one token. */
  const SMALL := Paragraphed(7)

  function Paragraphed(length: nat): Block {
    Block(Named("b"), 1, Paragraph, Letters(length), 0, 1)
  }

  /** The longest block that costs no more than the budget. */
  function Big(budget: nat): (r: Block)
    ensures budget >= 1 ==> Estimate(r.text) == budget
  {
    Paragraphed((18 * budget + 17) / 5)
  }

  function Small(n: nat): (r: seq<Block>)
    ensures |r| == n && forall b <- r :: b == SMALL
  {
    if n == 0 then [] else Small(n - 1) + [SMALL]
  }

  lemma SmallNext(n: nat)
    ensures Small(n + 1)[..n] == Small(n) && Small(n + 1)[n] == SMALL && Estimate(SMALL.text) == 1
  {
  }

  lemma {:induction false} SmallCost(n: nat)
    ensures CostOf(Small(n)) == n
  {
    if n > 0 {
      SmallCost(n - 1);
      SmallNext(n - 1);
      CostOfSnoc(Small(n - 1), SMALL);
    }
  }

  lemma {:induction false} SmallTailWithin(n: nat, room: int)
    requires n <= room
    ensures TailWithin(Small(n), room) == Small(n)
  {
    if n > 0 {
      SmallTailWithin(n - 1, room - 1);
      SmallNext(n - 1);
    }
  }

  lemma SmallOverlap(n: nat, spec: ChunkSpec)
    requires n <= Overlap(spec)
    ensures OverlapBlocks(Small(n), spec.overlapTokens) == Small(n)
  {
    if spec.overlapTokens > 0 {
      SmallTailWithin(n, spec.overlapTokens);
    } else {
      assert Small(0) == [];
    }
  }

  /** The packing of one-token blocks: one run up to the budget, and all of them carried over up to the overlap. */
  predicate PackedSmall(st: PackState, n: nat, budget: int) {
    && Current(st) == Small(n) && (st.own == [] <==> n == 0)
    && (n <= budget ==> st == PackState([], [], Small(n)))
  }

  /** The next one-token block goes into the run, or opens one that carries all the others. */
  lemma PackSmallStep(st: PackState, n: nat, x: Block, budget: int, spec: ChunkSpec)
    requires 1 <= budget && Estimate(x.text) == 1 && PackedSmall(st, n, budget) && CostOf(Small(n)) == n
    requires n < budget || OverlapBlocks(Small(n), spec.overlapTokens) == Small(n)
    ensures var next := PackStep(st, x, budget, spec);
            && Current(next) == Small(n) + [x] && next.own != []
            && (n < budget ==> next == PackState([], [], Small(n) + [x]))
  {
    if n < budget {
      assert [] + Small(n) == Small(n);
    } else {
      assert st.own != [];
      assert PackStep(st, x, budget, spec) == PackState(Closed(st), Small(n), [x]);
    }
  }

  lemma {:induction false} PackSmall(n: nat, budget: int, spec: ChunkSpec)
    requires 1 <= budget && (n <= budget || n <= Overlap(spec))
    ensures PackedSmall(PackFold(Small(n), budget, spec), n, budget)
  {
    if n == 0 {
      assert Current(PackState([], [], [])) == Small(0);
    } else {
      var m, all := n - 1, Small(n);
      PackSmall(m, budget, spec);
      SmallCost(m);
      if m >= budget {
        SmallOverlap(m, spec);
      }
      SmallNext(m);
      PackSmallStep(PackFold(Small(m), budget, spec), m, SMALL, budget, spec);
      assert PackFold(all, budget, spec) == PackStep(PackFold(all[..m], budget, spec), all[m], budget, spec);
    }
  }

  // ---------------------------------------------------------------- lengths

  lemma {:induction false} SmallTotal(n: nat)
    ensures TotalLength(Texts(Small(n))) == 7 * n
  {
    if n > 0 {
      SmallTotal(n - 1);
      assert Texts(Small(n)) == Texts(Small(n - 1)) + [SMALL.text];
      TotalLengthSnoc(Texts(Small(n - 1)), SMALL.text);
    }
  }

  lemma SmallTrimmed(n: nat)
    ensures forall text <- Texts(Small(n)) :: Trimmed(text)
  {
    LettersTrimmed(7);
    forall i | 0 <= i < n
      ensures Trimmed(Texts(Small(n))[i])
    {
      assert Small(n)[i] in Small(n);
    }
  }

  lemma SmallText(n: nat)
    requires n > 0
    ensures |TextOf(Small(n))| == 8 * n - 1
  {
    var texts := Texts(Small(n));
    SmallTotal(n);
    SmallTrimmed(n);
    JoinTrimmed(texts, "\n");
    JoinLength(texts, "\n");
    TrimmedStaysWhole(Join(texts, "\n"));
  }

  /** One-token blocks, and then a block of the whole budget. */
  function Lumped(overlap: nat, budget: nat): seq<Block> {
    Small(overlap) + [Big(budget)]
  }

  lemma LumpedText(overlap: nat, budget: nat)
    requires budget >= 1
    ensures |TextOf(Lumped(overlap, budget))| == 8 * overlap + (18 * budget + 17) / 5
  {
    var small, big := Texts(Small(overlap)), Big(budget).text;
    assert Texts(Lumped(overlap, budget)) == small + [big];
    SmallTotal(overlap);
    TotalLengthSnoc(small, big);
    SmallTrimmed(overlap);
    LettersTrimmed((18 * budget + 17) / 5);
    JoinTrimmed(small + [big], "\n");
    JoinLength(small + [big], "\n");
    TrimmedStaysWhole(Join(small + [big], "\n"));
  }

  // ------------------------------------------------------------- the margin

  lemma FitsWindow(text: string, window: int)
    ensures Estimate(text) <= window <==> window >= 1 && 5 * |text| < 18 * (window + 1)
  {
  }

  /** The blocks of a longest run: `Small` or `Lumped`, whichever is longer. */
  function Longest(budget: nat, overlap: nat): seq<Block> {
    if Peak(budget, overlap) == 40 * budget - 5 then Small(budget) else Lumped(overlap, budget)
  }

  lemma LongestText(budget: nat, overlap: nat)
    requires budget >= 1
    ensures 5 * |TextOf(Longest(budget, overlap))| == Peak(budget, overlap)
  {
    SmallText(budget);
    LumpedText(overlap, budget);
  }

  /** For any budget that takes its largest block, the last run packed from `Lumped` is all of it. */
  lemma PackLumped(size: nat, budget: int, spec: ChunkSpec)
    requires 1 <= size <= budget && 1 <= Overlap(spec)
    ensures var o := Overlap(spec);
            exists groups, carried, own ::
              Pack(Lumped(o, size), budget, spec) == groups + [Run(carried, own)] && carried + own == Lumped(o, size)
  {
    var o, big := Overlap(spec), Big(size);
    var st := PackFold(Small(o), budget, spec);
    PackSmall(o, budget, spec);
    SmallCost(o);
    SmallOverlap(o, spec);
    PackLast(st, o, big, budget, spec);
    var next := PackStep(st, big, budget, spec);
    assert Lumped(o, size)[..o] == Small(o) && Lumped(o, size)[o] == big;
    assert PackFold(Lumped(o, size), budget, spec) == next;
    assert Closed(next) == next.groups + [Run(next.carried, next.own)];
  }

  lemma PackLast(st: PackState, n: nat, x: Block, budget: int, spec: ChunkSpec)
    requires Estimate(x.text) <= budget && n > 0 && PackedSmall(st, n, budget)
    requires OverlapBlocks(Small(n), spec.overlapTokens) == Small(n)
    ensures var next := PackStep(st, x, budget, spec);
            next.own != [] && next.carried + next.own == Small(n) + [x]
  {
    if CostOf(Current(st)) + Estimate(x.text) > budget {
      assert PackStep(st, x, budget, spec) == PackState(Closed(st), Small(n), [x]);
    } else {
      assert PackStep(st, x, budget, spec) == PackState(st.groups, st.carried, st.own + [x]);
      assert st.carried + (st.own + [x]) == Current(st) + [x];
    }
  }

  /** Under the child budget or a larger one, the longest run is packed whole. */
  lemma PackLongest(size: nat, budget: int, spec: ChunkSpec)
    requires 1 <= size <= budget
    ensures exists g <- Pack(Longest(size, Overlap(spec)), budget, spec) ::
              g.Run? && Blocks(g) == Longest(size, Overlap(spec))
  {
    var longest := Longest(size, Overlap(spec));
    var groups := Pack(longest, budget, spec);
    if longest == Small(size) {
      PackSmall(size, budget, spec);
      assert groups == [Run([], longest)];
      assert Blocks(groups[0]) == longest && groups[0] in groups;
    } else {
      PackLumped(size, budget, spec);
      var init, carried, own :| groups == init + [Run(carried, own)] && carried + own == longest;
      assert Run(carried, own) in groups;
    }
  }

  predicate RoomFor(budget: int, overlap: nat, window: int) {
    budget < 1 || Peak(budget, overlap) < 18 * (window + 1)
  }

  predicate EveryRunFits(spec: ChunkSpec, blocks: seq<Block>) {
    forall g <- Pack(blocks, spec.childTokens, spec) :: g.Run? ==> Estimate(TextOf(Blocks(g))) <= spec.maxChildTokens
  }

  /** With room for the peak, no packed run overruns the window. */
  lemma RunsFitWindow(blocks: seq<Block>, spec: ChunkSpec)
    requires RoomFor(spec.childTokens, Overlap(spec), spec.maxChildTokens)
    ensures EveryRunFits(spec, blocks)
  {
    forall g | g in Pack(blocks, spec.childTokens, spec) && g.Run?
      ensures Estimate(TextOf(Blocks(g))) <= spec.maxChildTokens
    {
      GroupEstimate(blocks, g, spec.childTokens, spec);
      FitsWindow(TextOf(Blocks(g)), spec.maxChildTokens);
    }
  }

  /** Without it, the longest run does. */
  lemma SomeRunOverruns(spec: ChunkSpec)
    requires !RoomFor(spec.childTokens, Overlap(spec), spec.maxChildTokens)
    ensures !EveryRunFits(spec, Longest(spec.childTokens, Overlap(spec)))
  {
    var longest := Longest(spec.childTokens, Overlap(spec));
    PackLongest(spec.childTokens, spec.childTokens, spec);
    LongestText(spec.childTokens, Overlap(spec));
    FitsWindow(TextOf(longest), spec.maxChildTokens);
  }

  /** What the parameters are checked for when they are set. */
  predicate Accepted(spec: ChunkSpec) {
    spec.childTokens <= spec.maxChildTokens
  }

  /**
   The margin is exact, whatever the budget, the overlap and the window. It implies the
   check made when parameters are set, unless the window is negative.
   */
  lemma WindowNeedsMargin(spec: ChunkSpec)
    ensures (forall blocks: seq<Block> :: EveryRunFits(spec, blocks))
       <==> RoomFor(spec.childTokens, Overlap(spec), spec.maxChildTokens)
    ensures RoomFor(spec.childTokens, Overlap(spec), spec.maxChildTokens) && spec.maxChildTokens >= 0 ==> Accepted(spec)
  {
    if RoomFor(spec.childTokens, Overlap(spec), spec.maxChildTokens) {
      forall blocks: seq<Block>
        ensures EveryRunFits(spec, blocks)
      {
        RunsFitWindow(blocks, spec);
      }
    } else {
      SomeRunOverruns(spec);
    }
  }

  /** A budget as large as the window is accepted, whatever the overlap, and overruns it. */
  lemma AcceptedBudgetCanOverrun(spec: ChunkSpec)
    requires spec.childTokens == spec.maxChildTokens >= 2
    ensures Accepted(spec) && !EveryRunFits(spec, Longest(spec.childTokens, Overlap(spec)))
  {
    SomeRunOverruns(spec);
  }
}
