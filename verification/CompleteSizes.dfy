/** Archive folders give the size of every coder output, so that nothing has to be inferred. */
module CompleteSizes {
  import opened Wrappers
  import opened Words
  import opened Folders
  import opened FolderGraphs
  import opened Dataflow
  import opened ChainPlans
  import opened Bcj2Plans
  import opened OutputSizes
  import opened DecoderPlans
  import opened ChannelSizes
  import opened PlanCompilers

  /** A table with a size for each output of the graph. */
  predicate GivesEverySize(sizes: CoderOutputSizes, outputs: nat) {
    CoderOutputSizes.Complete(outputs, sizes.finalIndex, sizes.finalSize, sizes.declared) == Success(sizes)
  }

  predicate AllKnown(declared: seq<OutputSize>) {
    forall p :: 0 <= p < |declared| ==> declared[p].Known?
  }

  // ---------------------------------------------------------------- the equations

  /** What is left of the equations where every size is given. */
  predicate KeepsSizes(rules: seq<SizeRule>, declared: seq<OutputSize>, packed: u64)
    requires |declared| == |rules| && AllKnown(declared)
  {
    forall p :: 0 <= p < |rules| && rules[p].Preserves? ==>
      declared[p].size == if p == 0 then packed else declared[p - 1].size
  }

  /** The only sizes that the given ones allow. */
  function SizesAlong(declared: seq<OutputSize>, packed: u64): (z: seq<u64>)
    requires AllKnown(declared)
    ensures |z| == |declared| + 1 && z[0] == packed
    ensures forall p :: 0 <= p < |declared| ==> z[p + 1] == declared[p].size
  {
    [packed] + seq(|declared|, p requires 0 <= p < |declared| => declared[p].size)
  }

  lemma OnlySizesAlong(z: seq<u64>, rules: seq<SizeRule>, declared: seq<OutputSize>, packed: u64)
    requires |declared| == |rules| && AllKnown(declared) && Consistent(z, rules, declared, packed)
    ensures z == SizesAlong(declared, packed) && KeepsSizes(rules, declared, packed)
  {
    forall p | 0 <= p < |rules| ensures z[p + 1] == declared[p].size {
      assert declared[p].Allows(z[p + 1]);
    }
  }

  lemma SizesAlongSolve(rules: seq<SizeRule>, declared: seq<OutputSize>, packed: u64)
    requires |declared| == |rules| && AllKnown(declared) && KeepsSizes(rules, declared, packed)
    ensures Consistent(SizesAlong(declared, packed), rules, declared, packed)
  {
    var z := SizesAlong(declared, packed);
    forall p | 0 <= p < |rules| && rules[p].Preserves? ensures z[p + 1] == z[p] {
      assert z[p] == if p == 0 then packed else declared[p - 1].size;
    }
  }

  /** With every size given the equations decide at once, and no need is left open. */
  lemma KnownSizesDecide(rules: seq<SizeRule>, declared: seq<OutputSize>, packed: u64)
    requires |declared| == |rules| && AllKnown(declared)
    ensures Solvable(rules, declared, packed) <==> KeepsSizes(rules, declared, packed)
    ensures NeedsMet(rules, declared, packed) && NeedsDeclared(rules, declared)
    ensures forall p: nat :: p < |rules| ==> Forced(rules, declared, packed, p + 1, declared[p].size)
  {
    hide Consistent, KeepsSizes;
    if KeepsSizes(rules, declared, packed) {
      SizesAlongSolve(rules, declared, packed);
    }
    forall z | Consistent(z, rules, declared, packed)
      ensures z == SizesAlong(declared, packed) && KeepsSizes(rules, declared, packed)
    {
      OnlySizesAlong(z, rules, declared, packed);
    }
    forall p: nat | p < |rules|
      ensures rules[p].RequiresSize? ==> SizeForced(rules, declared, packed, p + 1)
    {
      assert Forced(rules, declared, packed, p + 1, declared[p].size);
    }
  }

  // ---------------------------------------------------------------- channels

  /** Nothing is declared too late in a channel whose sizes are all given, and every step knows its size. */
  lemma NothingTooLate(steps: seq<DecodeStep>, rules: seq<SizeRule>, declared: seq<OutputSize>, packed: u64)
    requires Compiled(steps, rules, declared, packed) && AllKnown(declared)
    ensures forall p: nat, q: nat, k: nat :: !DeclaredTooLate(rules, declared, p, q, k)
    ensures forall p: nat :: p < |steps| ==> steps[p].input == StepInput(steps, packed, p)
    ensures forall p: nat :: p < |steps| ==> steps[p].output == declared[p]
  {
    forall p: nat | p < |steps|
      ensures steps[p].input == StepInput(steps, packed, p) && steps[p].output == declared[p]
    {
      assert Forwarded(steps, declared, rules, packed, p);
    }
    forall p: nat, q: nat, k: nat ensures !DeclaredTooLate(rules, declared, p, q, k) {
      assert p < |declared| ==> declared[p].Known?;
    }
  }

  /** The outputs of a channel are outputs of the graph, so that a complete table has their sizes. */
  lemma ChannelAllKnown(
      g: FolderGraph, coders: seq<CoderInfo>, bcj2: nat, layout: Bcj2Layout, sizes: CoderOutputSizes, k: nat)
    requires LayoutFor(g, coders, bcj2, layout) && k < 4 && GivesEverySize(sizes, |g.outputOwners|)
    ensures AllKnown(ChannelDeclared(sizes, layout.Channel(k)))
  {
    var channel := layout.Channel(k);
    forall a | 0 <= a < |channel.coders| ensures sizes.Get(channel.coders[a].output).Known? {
      ChannelOfInput(g, bcj2, layout, k);
      assert OutputRecorded(g, channel.coders[a]);
      assert channel.coders[a].output in Owned(g.outputOwners, channel.coders[a].index);
    }
  }

  lemma ChainAllKnown(g: FolderGraph, sizes: CoderOutputSizes)
    requires ChainGraph(g) && GivesEverySize(sizes, |g.outputOwners|)
    ensures AllKnown(ChainSizes(g, sizes))
  {
    forall p | 0 <= p < |g.executionOrder| ensures sizes.Get(g.executionOrder[p]).Known? {
      assert g.executionOrder[p] < |g.executionOrder|;
    }
  }

  // ---------------------------------------------------------------- plans

  predicate StepsKnown(steps: seq<DecodeStep>) {
    forall p :: 0 <= p < |steps| ==> steps[p].input.Known? && steps[p].output.Known?
  }

  predicate PlanKnown(plan: DecoderPlan) {
    match plan
    case ChainPlan(steps) => StepsKnown(steps)
    case Bcj2Plan(channels, _, _) => forall k :: 0 <= k < |channels| ==> StepsKnown(channels[k])
  }

  lemma ChainStepsKnown(steps: seq<DecodeStep>, rules: seq<SizeRule>, declared: seq<OutputSize>, packed: u64)
    requires |declared| == |rules| && AllKnown(declared) && SizesDetermined(steps, rules, declared, packed)
    ensures StepsKnown(steps)
  {
    KnownSizesDecide(rules, declared, packed);
    forall p: nat | p < |steps| ensures steps[p].output == declared[p] {
      assert StepInput(steps, packed, p + 1) == Known(declared[p].size);
    }
  }

  /** A plan compiled from a complete table knows the size before and after each of its steps. */
  lemma CompletePlanKnows(
      plan: DecoderPlan, g: FolderGraph, coders: seq<CoderInfo>, sizes: CoderOutputSizes, packedSizes: seq<u64>)
    requires PlanMatches(plan, g, coders, sizes, packedSizes) && GivesEverySize(sizes, |g.outputOwners|)
    ensures PlanKnown(plan)
  {
    hide LayoutFor, SizesDetermined, ChainGraph, GivesEverySize;
    match plan
    case ChainPlan(steps) =>
      ChainAllKnown(g, sizes);
      ChainStepsKnown(steps, ChainRules(g, coders), ChainSizes(g, sizes), packedSizes[0]);
    case Bcj2Plan(channels, layout, _) =>
      forall k | 0 <= k < |channels| ensures StepsKnown(channels[k]) {
        var channel := layout.Channel(k);
        ChannelAllKnown(g, coders, Bcj2Positions(coders)[0], layout, sizes, k);
        assert ChannelCompiled(channels[k], coders, sizes, channel, packedSizes);
        NothingTooLate(channels[k], ChannelRules(coders, channel), ChannelDeclared(sizes, channel),
          packedSizes[channel.packed]);
      }
  }

  /**
   * For a complete table a chain is accepted exactly when its filters keep the sizes that are given and
   * its decoders are admitted: there is nothing to solve.
   */
  lemma CompleteChainAccepted(
      g: FolderGraph, folder: Folder, sizes: CoderOutputSizes, packedSizes: seq<u64>, estimate: Estimate, limit: u64)
    requires GraphFor(g, folder) && IsChain(folder.coders) && |packedSizes| == 1
    requires GivesEverySize(sizes, |g.outputOwners|)
    ensures forall p :: 0 <= p < |g.executionOrder| ==> g.executionOrder[p] < |folder.coders|
    ensures AllKnown(ChainSizes(g, sizes))
    ensures ChainAccepted(g, folder.coders, sizes, packedSizes, estimate, limit)
       <==> && KeepsSizes(ChainRules(g, folder.coders), ChainSizes(g, sizes), packedSizes[0])
            && Admitted(estimate, InOrder(g, folder.coders), 0, limit)
  {
    hide GraphFor, IsChain, ChainGraph, GivesEverySize, KeepsSizes, Admitted, Solvable, NeedsMet;
    ChainFacts(g, folder);
    ChainAllKnown(g, sizes);
    KnownSizesDecide(ChainRules(g, folder.coders), ChainSizes(g, sizes), packedSizes[0]);
  }

  /** Likewise for the four channels. */
  lemma CompleteChannelCompiles(
      g: FolderGraph, coders: seq<CoderInfo>, bcj2: nat, layout: Bcj2Layout, sizes: CoderOutputSizes,
      packedSizes: seq<u64>, k: nat)
    requires LayoutFor(g, coders, bcj2, layout) && k < 4 && GivesEverySize(sizes, |g.outputOwners|)
    requires Indexed(coders, layout.Channel(k), packedSizes)
    ensures AllKnown(ChannelDeclared(sizes, layout.Channel(k)))
    ensures var channel := layout.Channel(k);
      ChannelCompiles(coders, sizes, channel, packedSizes)
      <==> KeepsSizes(ChannelRules(coders, channel), ChannelDeclared(sizes, channel), packedSizes[channel.packed])
  {
    hide LayoutFor, GivesEverySize, KeepsSizes, Solvable, NeedsDeclared, NeedsMet;
    var channel := layout.Channel(k);
    ChannelAllKnown(g, coders, bcj2, layout, sizes, k);
    KnownSizesDecide(ChannelRules(coders, channel), ChannelDeclared(sizes, channel), packedSizes[channel.packed]);
  }
}
