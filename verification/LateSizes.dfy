/** One BCJ2 folder, followed from its coders to its plan: a size that is declared too late. */
module LateSizes {
  import opened Wrappers
  import opened Words
  import opened Folders
  import opened FolderGraphs
  import opened Dataflow
  import opened Bcj2Plans
  import opened OutputSizes
  import opened DecoderPlans
  import opened ChannelSizes
  import opened CoderPlans
  import opened PlanCompilers
  import opened CompleteSizes
  import Methods

  const DEFLATE_CODER := CoderInfo(Methods.CODEC_DEFLATE, 1, 1, None)
  const COPY_CODER := CoderInfo(Methods.CODEC_COPY, 1, 1, None)
  const BCJ2_CODER := CoderInfo(Methods.CODEC_BCJ2, 4, 1, None)

  /** Deflate feeds Copy and Copy the main input of BCJ2; the other three inputs are packed streams. */
  const LATE_FOLDER := Folder([COPY_CODER, BCJ2_CODER, DEFLATE_CODER], [(0, 2), (1, 0)], [2, 3, 4, 5])

  /** Only the output size of Copy is given, beside the folder size. */
  const LATE_SIZES := CoderOutputSizes([5], 1, 5)

  lemma OwnersPush(counts: seq<nat>, n: nat, counts': seq<nat>, table: seq<nat>, table': seq<nat>)
    requires counts' == counts + [n] && table' == table + seq(n, _ => |counts|)
    requires OwnerTable(counts) == table
    ensures OwnerTable(counts') == table' && Sum(counts') == Sum(counts) + n
  {
    assert counts'[..|counts|] == counts;
  }

  lemma LateOwners()
    ensures OwnersOf(LATE_FOLDER.coders) == StreamOwners([0, 1, 1, 1, 1, 2], [0, 1, 2])
    ensures ArityOk(LATE_FOLDER.coders)
  {
    hide OwnerTable, Sum;
    NoOwners();
    OwnersPush([], 1, [1], [], [0]);
    OwnersPush([1], 4, [1, 4], [0], [0, 1, 1, 1, 1]);
    OwnersPush([1, 4], 1, [1, 4, 1], [0, 1, 1, 1, 1], [0, 1, 1, 1, 1, 2]);
    OwnersPush([1], 1, [1, 1], [0], [0, 1]);
    OwnersPush([1, 1], 1, [1, 1, 1], [0, 1], [0, 1, 2]);
    assert InputCounts(LATE_FOLDER.coders) == [1, 4, 1] && OutputCounts(LATE_FOLDER.coders) == [1, 1, 1];
  }

  lemma NoOwners()
    ensures OwnerTable([]) == [] && Sum([]) == 0
  {
  }

  lemma LateAccepted()
    ensures Accepts(LATE_FOLDER)
  {
    hide OwnersOf, ArityOk, HasCycle;
    LateOwners();
    var owners, pairs := OwnersOf(LATE_FOLDER.coders), LATE_FOLDER.bindPairs;
    assert pairs[0] == (0, 2) && pairs[1] == (1, 0);
    LateLinked();
    LateOrder();
    assert LATE_FOLDER.packedIndices[0] == 2 && LATE_FOLDER.packedIndices[1] == 3;
    assert LATE_FOLDER.packedIndices[2] == 4 && LATE_FOLDER.packedIndices[3] == 5;
  }

  lemma LateLinked()
    ensures Linked(LATE_FOLDER.bindPairs, StreamOwners([0, 1, 1, 1, 1, 2], [0, 1, 2]))
  {
  }

  lemma LateOrder()
    ensures Linked(LATE_FOLDER.bindPairs, StreamOwners([0, 1, 1, 1, 1, 2], [0, 1, 2]))
    ensures !HasCycle(LATE_FOLDER.bindPairs, StreamOwners([0, 1, 1, 1, 1, 2], [0, 1, 2]))
  {
    LateLinked();
    var owners, pairs, order := StreamOwners([0, 1, 1, 1, 1, 2], [0, 1, 2]), LATE_FOLDER.bindPairs, [2, 0, 1];
    assert order[..1] == [2] && order[..2] == [2, 0];
    OrderedImpliesAcyclic(order, pairs, owners, 3);
  }

  lemma OwnedLast(owners: seq<nat>, x: nat, c: nat)
    ensures Owned(owners + [x], c) == Owned(owners, c) + if x == c then [|owners|] else []
  {
    assert (owners + [x])[..|owners|] == owners;
  }

  function From(first: nat, n: nat): seq<nat> {
    seq(n, k requires 0 <= k < n => first + k)
  }

  /** The last coder owns n more streams, numbered on from those before it. */
  lemma {:induction false} OwnedRun(owners: seq<nat>, x: nat, n: nat, owners': seq<nat>, c: nat)
    requires owners' == owners + seq(n, _ => x)
    ensures Owned(owners', c) == Owned(owners, c) + if x == c then From(|owners|, n) else []
    decreases n
  {
    hide Owned;
    if n == 0 {
      assert owners' == owners;
    } else {
      var init := owners + seq(n - 1, _ => x);
      assert owners' == init + [x];
      OwnedRun(owners, x, n - 1, init, c);
      OwnedLast(init, x, c);
      assert From(|owners|, n) == From(|owners|, n - 1) + [|init|];
    }
  }

  lemma LateOwned(c: nat)
    ensures Owned([0, 1, 1, 1, 1, 2], c) == LateInputs(c) && Owned([0, 1, 2], c) == LateOutputs(c)
  {
    hide Owned;
    OwnedNothing(c);
    OwnedRun([], 0, 1, [0], c);
    OwnedRun([0], 1, 4, [0, 1, 1, 1, 1], c);
    OwnedRun([0, 1, 1, 1, 1], 2, 1, [0, 1, 1, 1, 1, 2], c);
    OwnedRun([0], 1, 1, [0, 1], c);
    OwnedRun([0, 1], 2, 1, [0, 1, 2], c);
  }

  function LateInputs(c: nat): seq<nat> {
    if c == 0 then [0] else if c == 1 then [1, 2, 3, 4] else if c == 2 then [5] else []
  }

  function LateOutputs(c: nat): seq<nat> {
    if c <= 2 then [c] else []
  }

  lemma OwnedNothing(c: nat)
    ensures Owned([], c) == []
  {
  }

  /** What any resolution of the folder looks like. */
  lemma LateStreams(g: FolderGraph)
    requires GraphFor(g, LATE_FOLDER)
    ensures forall c: nat :: Owned(g.inputOwners, c) == LateInputs(c) && Owned(g.outputOwners, c) == LateOutputs(c)
    ensures g.inputSources == [Some(2), Some(0), None, None, None, None]
    ensures |g.packedInputs| == 4 && forall k :: 0 <= k < 4 ==> g.packedInputs[k] == (k, k + 2)
  {
    hide Owned, LateInputs, LateOutputs;
    LateOwners();
    forall c: nat
      ensures Owned(g.inputOwners, c) == LateInputs(c) && Owned(g.outputOwners, c) == LateOutputs(c)
    {
      LateOwned(c);
    }
    assert LATE_FOLDER.bindPairs[0] == (0, 2) && LATE_FOLDER.bindPairs[1] == (1, 0);
  }

  const LATE_MAIN := Bcj2Channel([Bcj2Coder(2, 2), Bcj2Coder(0, 0)], 3)
  const LATE_LAYOUT := Bcj2Layout(LATE_MAIN, Bcj2Channel([], 0), Bcj2Channel([], 1), Bcj2Channel([], 2))
  const LATE_PACKED: seq<u64> := [0, 0, 0, 9]

  lemma LateLayout(g: FolderGraph, layout: Bcj2Layout)
    requires GraphFor(g, LATE_FOLDER) && LayoutFor(g, LATE_FOLDER.coders, 1, layout)
    ensures layout == LATE_LAYOUT
  {
    hide GraphFor, SlotsDistinct, ChannelCoders, FindSlot, Owned;
    LateStreams(g);
    assert layout.Channel(0) == layout.main && layout.Channel(1) == layout.call;
    assert layout.Channel(2) == layout.jump && layout.Channel(3) == layout.control;
    assert g.packedInputs[0].1 == 2 && g.packedInputs[1].1 == 3 && g.packedInputs[2].1 == 4 && g.packedInputs[3].1 == 5;
    assert FindSlot(g.packedInputs, 2) == 0 && FindSlot(g.packedInputs, 3) == 1;
    assert FindSlot(g.packedInputs, 4) == 2 && FindSlot(g.packedInputs, 5) == 3;
    assert FeedsThrough(g, [], 3, 5);
    assert [2][..0] == [] && [2, 0][..1] == [2];
    assert FeedsThrough(g, [2], 3, 0);
    assert Indices(LATE_MAIN.coders) == [2, 0];
    assert ChannelFor(g, LATE_MAIN, 1, 1);
    ChannelUnique(g, layout.main, LATE_MAIN, 1, 1);
    ChannelUnique(g, layout.call, Bcj2Channel([], 0), 1, 2);
    ChannelUnique(g, layout.jump, Bcj2Channel([], 1), 1, 3);
    ChannelUnique(g, layout.control, Bcj2Channel([], 2), 1, 4);
  }

  lemma LateMain()
    ensures Indexed(LATE_FOLDER.coders, LATE_MAIN, LATE_PACKED)
    ensures ChannelRules(LATE_FOLDER.coders, LATE_MAIN) == [Independent, Preserves]
    ensures ChannelDeclared(LATE_SIZES, LATE_MAIN) == [Unknown, Known(5)]
    ensures Forced([Independent, Preserves], [Unknown, Known(5)], 9, 1, 5)
    ensures Forced([Independent, Preserves], [Unknown, Known(5)], 9, 2, 5)
    ensures Solvable([Independent, Preserves], [Unknown, Known(5)], 9)
  {
    var rules, declared := [Independent, Preserves], [Unknown, Known(5)];
    forall z | Consistent(z, rules, declared, 9) ensures z[1] == z[2] == 5 {
      assert rules[1].Preserves? && declared[1].Allows(z[2]);
    }
    assert Consistent([9, 5, 5], rules, declared, 9);
  }

  lemma EmptyChannel(slot: nat)
    requires slot < 3
    ensures var channel := Bcj2Channel([], slot);
      && Indexed(LATE_FOLDER.coders, channel, LATE_PACKED)
      && ChannelCompiles(LATE_FOLDER.coders, LATE_SIZES, channel, LATE_PACKED)
      && Delivers(LATE_FOLDER.coders, LATE_SIZES, channel, LATE_PACKED, 0)
  {
    assert ChannelRules(LATE_FOLDER.coders, Bcj2Channel([], slot)) == [];
    assert ChannelDeclared(LATE_SIZES, Bcj2Channel([], slot)) == [];
    assert Consistent([0], [], [], 0);
  }

  lemma LateCompiles()
    ensures AllIndexed(LATE_FOLDER.coders, LATE_LAYOUT, LATE_PACKED)
    ensures SizesCompile(LATE_FOLDER.coders, LATE_SIZES, LATE_LAYOUT, LATE_PACKED, 5)
  {
    LateMain();
    EmptyChannel(0);
    EmptyChannel(1);
    EmptyChannel(2);
    hide Solvable, Forced;
    assert LATE_LAYOUT.Channel(0) == LATE_LAYOUT.main && LATE_LAYOUT.Channel(1) == LATE_LAYOUT.call;
    assert LATE_LAYOUT.Channel(2) == LATE_LAYOUT.jump && LATE_LAYOUT.Channel(3) == LATE_LAYOUT.control;
    assert ChannelCompiles(LATE_FOLDER.coders, LATE_SIZES, LATE_MAIN, LATE_PACKED);
    assert Delivers(LATE_FOLDER.coders, LATE_SIZES, LATE_MAIN, LATE_PACKED, 5);
    hide ChannelCompiles, Delivers, Indexed;
    assert 5 + 0 + 0 == 5;
    FourCompile(LATE_FOLDER.coders, LATE_SIZES, LATE_LAYOUT, LATE_PACKED, 5);
  }

  lemma LateFinal(g: FolderGraph)
    requires GraphFor(g, LATE_FOLDER)
    ensures g.finalOutput == 1
  {
    hide OwnersOf, Linked, SourcesMatch, IsExecutionOrder, PackedTableFor;
    LateOwners();
    assert LATE_FOLDER.bindPairs[0] == (0, 2) && LATE_FOLDER.bindPairs[1] == (1, 0);
    assert OutputUsed(LATE_FOLDER.bindPairs, 0) && OutputUsed(LATE_FOLDER.bindPairs, 2);
  }

  lemma LateMerges(g: FolderGraph)
    requires GraphFor(g, LATE_FOLDER)
    ensures MergesBcj2(g, LATE_FOLDER.coders) && Bcj2Positions(LATE_FOLDER.coders) == [1]
  {
    hide GraphFor, Owned;
    LateStreams(g);
    LateFinal(g);
    LatePositions();
  }

  lemma LatePositions()
    ensures Bcj2Positions(LATE_FOLDER.coders) == [1]
  {
    var coders := LATE_FOLDER.coders;
    assert coders[..2] == [COPY_CODER, BCJ2_CODER] && [COPY_CODER, BCJ2_CODER][..1] == [COPY_CODER];
    assert Bcj2Positions([COPY_CODER]) == [];
    assert Bcj2Positions([COPY_CODER, BCJ2_CODER]) == [1];
  }

  /** What the decoders, the merging reader and the output take up. */
  const LATE_MEMORY: u64 := OTHER_CODER_WORKING_SET_BYTES + BCJ2_READER_WORKING_SET_BYTES + 5

  lemma LateFits(memory: LzmaMemory, limit: u64)
    requires limit >= LATE_MEMORY
    ensures forall c :: c in ChannelCoders(LATE_LAYOUT) ==> c < |LATE_FOLDER.coders|
    ensures Bcj2Fits(LATE_FOLDER.coders, LATE_LAYOUT, 5, EstimateWith(memory), limit)
  {
    var coders, estimate := CodersOf(LATE_FOLDER.coders, LATE_LAYOUT), EstimateWith(memory);
    assert Indices(LATE_MAIN.coders) == [2, 0];
    assert coders == [DEFLATE_CODER, COPY_CODER];
    assert coders[..1] == [DEFLATE_CODER] && [DEFLATE_CODER][..0] == [];
    assert WorkingSet(estimate, []) == Some(0);
    assert WorkingSet(estimate, [DEFLATE_CODER]) == Some(OTHER_CODER_WORKING_SET_BYTES);
  }

  lemma LateAdmitted(g: FolderGraph, layout: Bcj2Layout, memory: LzmaMemory, limit: u64)
    requires GraphFor(g, LATE_FOLDER) && LayoutFor(g, LATE_FOLDER.coders, 1, layout) && limit >= LATE_MEMORY
    ensures Bcj2Positions(LATE_FOLDER.coders) == [1]
    ensures Bcj2Compiles(g, LATE_FOLDER.coders, LATE_SIZES, LATE_PACKED, EstimateWith(memory), limit)
  {
    hide SizesCompile, Bcj2Fits, LayoutFor, MergesLast, GraphFor, AllIndexed, ChannelCoders;
    LateMerges(g);
    LateLayout(g, layout);
    LateCompiles();
    LateFits(memory, limit);
    assert LayoutCompiles(g, LATE_FOLDER.coders, layout, LATE_SIZES, LATE_PACKED, EstimateWith(memory), limit);
  }

  /**
   * A folder that resolves and compiles within any limit that its memory allows, in whose main channel the
   * output size of Deflate stays unknown although every solution makes it 5. A chain of the same coders
   * would know it. The table has one size for three outputs, which an archive folder may not have.
   */
  method ForwardOnlyKnowsLess(memory: LzmaMemory, limit: u64) returns (g: FolderGraph, plan: DecoderPlan)
    requires limit >= LATE_MEMORY
    ensures CoderOutputSizes.Partial(3, g.finalOutput, 5, [5]) == Success(LATE_SIZES)
    ensures !GivesEverySize(LATE_SIZES, 3)
    ensures Accepts(LATE_FOLDER) && GraphFor(g, LATE_FOLDER) && plan.Bcj2Plan? && |plan.channels| == 4
    ensures PlanMatches(plan, g, LATE_FOLDER.coders, LATE_SIZES, LATE_PACKED)
    ensures |plan.channels[0]| == 2 && plan.channels[0][0].output == Unknown
    ensures var main := plan.layout.main;
      && Indexed(LATE_FOLDER.coders, main, LATE_PACKED) && |main.coders| == 2
      && Forced(ChannelRules(LATE_FOLDER.coders, main), ChannelDeclared(LATE_SIZES, main),
                LATE_PACKED[main.packed], 1, 5)
  {
    LateAccepted();
    LateOwners();
    var resolved := Graph(LATE_FOLDER);
    g := resolved.value;
    LateMerges(g);
    LateFinal(g);
    LateStreams(g);
    var topology := DecoderTopology(g, LATE_FOLDER);
    LateAdmitted(g, topology.value.layout, memory, limit);
    var compiled := CompilePlan(g, LATE_FOLDER, LATE_SIZES, LATE_PACKED, EstimateWith(memory), limit);
    plan := compiled.value;
    LateLayout(g, plan.layout);
    LateMain();
    assert plan.layout.Channel(0) == LATE_MAIN;
    assert ChannelCompiled(plan.channels[0], LATE_FOLDER.coders, LATE_SIZES, LATE_MAIN, LATE_PACKED);
    assert Forwarded(plan.channels[0], [Unknown, Known(5)], [Independent, Preserves], 9, 0);
  }
}
