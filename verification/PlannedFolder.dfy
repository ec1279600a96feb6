/** From a folder layout to its decoder plan, and to what a session may rely on. */
module PlannedFolders {
  import opened Wrappers
  import opened Words
  import opened Folders
  import opened FolderGraphs
  import opened Bcj2Plans
  import opened OutputSizes
  import opened DecoderPlans
  import opened PlanCompilers
  import opened CompleteSizes
  import opened FolderLayouts
  import opened ReadSessions

  /** The table has a size for each output, and gives the final output the folder size. */
  predicate SizesComplete(layout: FolderLayout, g: FolderGraph) {
    && |layout.coderSizes| == |g.outputOwners|
    && (g.finalOutput < |layout.coderSizes| ==> layout.coderSizes[g.finalOutput] == layout.unpackSize)
  }

  /** The conditions of compilation, with the sizes that the layout holds. */
  ghost predicate Plannable(layout: FolderLayout, g: FolderGraph, estimate: Estimate, limit: u64) {
    var coders := layout.folder.coders;
    var sizes := CoderOutputSizes(layout.coderSizes, g.finalOutput, layout.unpackSize);
    && SizesComplete(layout, g)
    && |coders| <= MAX_FOLDER_CODERS && |layout.packSizes| == |g.packedInputs|
    && (|| ChainAccepted(g, coders, sizes, layout.packSizes, estimate, limit)
        || (MergesBcj2(g, coders) && Bcj2Compiles(g, coders, sizes, layout.packSizes, estimate, limit)))
  }

  /**
   * A laid-out folder is planned exactly when it can be, and no step of its plan is in doubt about a size.
   * Whatever its decoder will deliver, starting it is charged either nothing or the folder size, and the
   * latter exactly for BCJ2 and AES tails.
   */
  method PlanFolder(layout: FolderLayout, g: FolderGraph, estimate: Estimate, limit: u64)
    returns (r: Result<DecoderPlan, R7zError>)
    requires GraphFor(g, layout.folder) && ArityOk(layout.folder.coders)
    requires layout.streams.Tiles(layout.unpackSize)
    ensures r.Success? <==> Plannable(layout, g, estimate, limit)
    ensures r.Success? ==> PlanKnown(r.value)
    ensures r.Success? ==> forall content :: FolderWorld(layout, content, EagerSize(r.value)).Valid()
    ensures r.Success? ==> (EagerSize(r.value).Some? <==> IsBuffered(r.value))
  {
    hide GraphFor, ArityOk, ChainAccepted, MergesBcj2, Bcj2Compiles, IsBuffered, PlanFor, PlanMatches,
      PlanKnown;
    var sizes := CoderOutputSizes.Complete(|g.outputOwners|, g.finalOutput, layout.unpackSize, layout.coderSizes);
    if sizes.Failure? {
      return Failure(sizes.error);
    }
    r := CompilePlan(g, layout.folder, sizes.value, layout.packSizes, estimate, limit);
    if r.Success? {
      EagerIsFolderSize(r.value, layout.unpackSize);
      CompletePlanKnows(r.value, g, layout.folder.coders, sizes.value, layout.packSizes);
    }
  }
}
