/** Compiling a whole folder: either topology, with its limits and what it is charged up front. */
module PlanCompilers {
  import opened Wrappers
  import opened Words
  import opened Folders
  import opened FolderGraphs
  import opened ChainPlans
  import opened Bcj2Plans
  import opened OutputSizes
  import opened DecoderPlans
  import opened ChannelSizes

  const MAX_FOLDER_CODERS: nat := 64

  datatype DecoderPlan =
    | ChainPlan(steps: seq<DecodeStep>)
    | Bcj2Plan(channels: seq<seq<DecodeStep>>, layout: Bcj2Layout, outputSize: u64)

  // ---------------------------------------------------------------- early charges

  /** What starting the decoder is charged before it delivers anything. */
  function EagerSize(plan: DecoderPlan): Option<u64> {
    match plan
    case ChainPlan(steps) => EagerAmong(steps, |steps|)
    case Bcj2Plan(_, _, outputSize) => Some(outputSize)
  }

  ghost predicate IsBuffered(plan: DecoderPlan) {
    plan.Bcj2Plan? || HasAesTail(plan.steps)
  }

  /** What every compiled plan of a folder of that size satisfies. */
  ghost predicate PlanFor(plan: DecoderPlan, folderSize: u64) {
    match plan
    case ChainPlan(steps) => ChainSteps(steps, folderSize)
    case Bcj2Plan(_, _, outputSize) => outputSize == folderSize
  }

  /** BCJ2 and AES tails are charged early, with exactly the folder size; nothing else is. */
  lemma EagerIsFolderSize(plan: DecoderPlan, folderSize: u64)
    requires PlanFor(plan, folderSize)
    ensures EagerSize(plan) == if IsBuffered(plan) then Some(folderSize) else None
  {
    hide ChainSteps, HasAesTail;
    if plan.ChainPlan? {
      ChainEagerSize(plan.steps, folderSize);
    }
  }

  // ---------------------------------------------------------------- compilation

  ghost predicate IsChain(coders: seq<CoderInfo>) {
    forall i :: 0 <= i < |coders| ==> IsRegisteredSingle(coders[i])
  }

  /** With the only layout of the graph, the sizes compile and the limits are kept. */
  ghost predicate Bcj2Compiles(
      g: FolderGraph, coders: seq<CoderInfo>, sizes: CoderOutputSizes, packedSizes: seq<u64>,
      estimate: Estimate, limit: u64)
    requires Bcj2Positions(coders) != []
  {
    exists layout :: LayoutCompiles(g, coders, layout, sizes, packedSizes, estimate, limit)
  }

  ghost predicate LayoutCompiles(
      g: FolderGraph, coders: seq<CoderInfo>, layout: Bcj2Layout, sizes: CoderOutputSizes, packedSizes: seq<u64>,
      estimate: Estimate, limit: u64)
    requires Bcj2Positions(coders) != []
  {
    && LayoutFor(g, coders, Bcj2Positions(coders)[0], layout)
    && AllIndexed(coders, layout, packedSizes) && (forall c :: c in ChannelCoders(layout) ==> c < |coders|)
    && SizesCompile(coders, sizes, layout, packedSizes, sizes.finalSize)
    && Bcj2Fits(coders, layout, sizes.finalSize, estimate, limit)
  }

  /** A chain of registered single-stream coders whose sizes and working sets are accepted. */
  ghost predicate ChainAccepted(
      g: FolderGraph, coders: seq<CoderInfo>, sizes: CoderOutputSizes, packedSizes: seq<u64>,
      estimate: Estimate, limit: u64)
  {
    && IsChain(coders) && |packedSizes| == 1
    && (forall p :: 0 <= p < |g.executionOrder| ==> g.executionOrder[p] < |coders|)
    && ChainCompiles(g, coders, sizes, packedSizes[0], estimate, limit)
  }

  lemma ChainFacts(g: FolderGraph, folder: Folder)
    requires GraphFor(g, folder) && IsChain(folder.coders)
    ensures ChainGraph(g) && g.executionOrder != [] && |g.executionOrder| == |folder.coders|
    ensures forall p :: 0 <= p < |g.executionOrder| ==> g.executionOrder[p] < |folder.coders|
    ensures !MergesBcj2(g, folder.coders)
  {
    hide MergesLast;
    SingleStreamsMakeChainGraph(g, folder);
    if Bcj2Positions(folder.coders) != [] {
      assert Bcj2Positions(folder.coders)[0] in Bcj2Positions(folder.coders);
    }
  }

  lemma OnlyLayout(
      g: FolderGraph, coders: seq<CoderInfo>, layout: Bcj2Layout, sizes: CoderOutputSizes, packedSizes: seq<u64>,
      estimate: Estimate, limit: u64)
    requires Bcj2Positions(coders) != [] && LayoutFor(g, coders, Bcj2Positions(coders)[0], layout)
    ensures Bcj2Compiles(g, coders, sizes, packedSizes, estimate, limit)
       <==> LayoutCompiles(g, coders, layout, sizes, packedSizes, estimate, limit)
  {
    hide AllIndexed, SizesCompile, Bcj2Fits, ChannelCoders, ChannelsTraced;
    if layout' :| LayoutCompiles(g, coders, layout', sizes, packedSizes, estimate, limit) {
      LayoutUnique(g, Bcj2Positions(coders)[0], layout, layout');
    }
  }

  /** The steps of a chain know what its equations force; those of a channel what the sizes before them force. */
  ghost predicate PlanMatches(
      plan: DecoderPlan, g: FolderGraph, coders: seq<CoderInfo>, sizes: CoderOutputSizes, packedSizes: seq<u64>)
  {
    match plan
    case ChainPlan(steps) =>
      && ChainGraph(g) && |packedSizes| == 1
      && (forall p :: 0 <= p < |g.executionOrder| ==> g.executionOrder[p] < |coders|)
      && SizesDetermined(steps, ChainRules(g, coders), ChainSizes(g, sizes), packedSizes[0])
    case Bcj2Plan(channels, layout, _) =>
      && |Bcj2Positions(coders)| == 1 && LayoutFor(g, coders, Bcj2Positions(coders)[0], layout)
      && AllIndexed(coders, layout, packedSizes) && ChannelsCompiled(channels, coders, sizes, layout, packedSizes)
  }

  /**
   * A folder compiles exactly when it has at most 64 coders, one packed size for each packed stream,
   * and either a chain or a BCJ2 arrangement that is accepted. The plan then fits the folder size.
   */
  method CompilePlan(
      g: FolderGraph, folder: Folder, sizes: CoderOutputSizes, packedSizes: seq<u64>, estimate: Estimate, limit: u64)
    returns (r: Result<DecoderPlan, R7zError>)
    requires GraphFor(g, folder) && ArityOk(folder.coders) && sizes.finalIndex == g.finalOutput
    ensures r.Success? <==>
      && |folder.coders| <= MAX_FOLDER_CODERS && |packedSizes| == |g.packedInputs|
      && (|| ChainAccepted(g, folder.coders, sizes, packedSizes, estimate, limit)
          || (MergesBcj2(g, folder.coders) && Bcj2Compiles(g, folder.coders, sizes, packedSizes, estimate, limit)))
    ensures r.Success? ==> PlanFor(r.value, sizes.finalSize)
    ensures r.Success? ==> (r.value.Bcj2Plan? <==> MergesBcj2(g, folder.coders))
    ensures r.Success? ==> PlanMatches(r.value, g, folder.coders, sizes, packedSizes)
  {
    hide GraphFor, ArityOk, MergesLast, LayoutFor, SizesCompile, Bcj2Fits, ChainCompiles, Bcj2Compiles, AllIndexed,
      ChannelsCompiled, ChannelCoders, ChainSteps, SizesDetermined, IsRegisteredSingle, NoProperties;
    if |folder.coders| > MAX_FOLDER_CODERS {
      return Failure(LimitExceeded);
    }
    if |packedSizes| != |g.packedInputs| {
      return Failure(InvalidFolderGraph);
    }
    var topology := DecoderTopology(g, folder);
    if topology.Failure? {
      return Failure(topology.error);
    }
    match topology.value {
      case Chain =>
        ChainFacts(g, folder);
        var steps := CompileChain(g, folder.coders, sizes, packedSizes, estimate, limit);
        r := if steps.Success? then Success(ChainPlan(steps.value)) else Failure(steps.error);
      case Bcj2(bcj2, layout) =>
        GraphIsTraceable(g, folder);
        if IsChain(folder.coders) {
          ChainFacts(g, folder);
        }
        OnlyLayout(g, folder.coders, layout, sizes, packedSizes, estimate, limit);
        var channels :=
          CompileBcj2(g, folder.coders, bcj2, layout, sizes, packedSizes, sizes.finalSize, estimate, limit);
        r := if channels.Success? then Success(Bcj2Plan(channels.value, layout, sizes.finalSize))
             else Failure(channels.error);
    }
  }
}
