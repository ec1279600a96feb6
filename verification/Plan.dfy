/** Compiling a resolved folder into a decoder plan and binding its packed inputs. */
module DecoderPlans {
  import opened Wrappers
  import opened Words
  import opened Counting
  import opened Folders
  import opened FolderGraphs
  import opened Dataflow
  import opened ChainPlans
  import opened Bcj2Plans
  import opened OutputSizes
  import Methods

  datatype Topology = Chain | Bcj2(coder: nat, layout: Bcj2Layout)

  /** Identifiers of the length-preserving filters. */
  const PRESERVING_IDS: set<Bytes> := {
    Methods.CODEC_COPY, Methods.CODEC_BCJ_X86, Methods.CODEC_BCJ_ARM, Methods.CODEC_BCJ_ARM64,
    Methods.CODEC_BCJ_ARM_THUMB, Methods.CODEC_BCJ_IA64, Methods.CODEC_BCJ_PPC, Methods.CODEC_BCJ_SPARC,
    Methods.CODEC_BCJ_RISCV, Methods.CODEC_DELTA, Methods.CODEC_SWAP2, Methods.CODEC_SWAP4
  }

  function RuleOf(coder: CoderInfo): SizeRule {
    if coder.codecId in PRESERVING_IDS then Preserves
    else if coder.codecId == Methods.CODEC_PPMD then RequiresSize
    else if coder.codecId == Methods.CODEC_AES_256_SHA_256 then Aes
    else Independent
  }

  predicate NoProperties(coder: CoderInfo) {
    coder.properties == None || coder.properties == Some([])
  }

  /** One BCJ2 coder, without properties, merges single-stream coders last. */
  ghost predicate MergesBcj2(g: FolderGraph, coders: seq<CoderInfo>) {
    && |Bcj2Positions(coders)| == 1
    && MergesLast(g, coders, Bcj2Positions(coders)[0])
    && (assert Bcj2Positions(coders)[0] in Bcj2Positions(coders); NoProperties(coders[Bcj2Positions(coders)[0]]))
  }

  predicate IsRegisteredSingle(coder: CoderInfo) {
    Methods.KnownArity(coder.codecId).Some? && IsSingle(coder) && !IsBcj2(coder)
  }

  /** Either the BCJ2 arrangement or, with known single-stream coders only, a chain. */
  method DecoderTopology(g: FolderGraph, folder: Folder) returns (r: Result<Topology, R7zError>)
    requires GraphFor(g, folder) && ArityOk(folder.coders)
    ensures r == Success(Chain) <==> forall i :: 0 <= i < |folder.coders| ==> IsRegisteredSingle(folder.coders[i])
    ensures r.Success? && r.value.Bcj2? <==> MergesBcj2(g, folder.coders)
    ensures r.Success? && r.value.Bcj2? ==>
      && Bcj2Positions(folder.coders) == [r.value.coder]
      && LayoutFor(g, folder.coders, r.value.coder, r.value.layout)
  {
    hide LayoutFor, MergesLast, GraphFor, Methods.IsSingleStreamId;
    var coders, positions := folder.coders, Bcj2Positions(folder.coders);
    var found := Layout(g, folder);
    if found.Failure? {
      assert positions[0] in positions;
      return Failure(found.error);
    }
    if found.value.Some? {
      assert positions[0] in positions;
      if !NoProperties(coders[positions[0]]) {
        return Failure(Decompression);
      }
      return Success(Bcj2(positions[0], found.value.value));
    }
    assert forall i: nat :: i < |coders| ==> i !in positions;
    for i := 0 to |coders|
      invariant forall k :: 0 <= k < i ==> Methods.KnownArity(coders[k].codecId).Some?
    {
      if Methods.KnownArity(coders[i].codecId).None? {
        return Failure(UnsupportedCodec(coders[i].codecId));
      }
    }
    r := if AllSingle(coders) then Success(Chain) else Failure(InvalidFolderGraph);
  }

  function ChainRules(g: FolderGraph, coders: seq<CoderInfo>): seq<SizeRule>
    requires forall p :: 0 <= p < |g.executionOrder| ==> g.executionOrder[p] < |coders|
  {
    seq(|g.executionOrder|, p requires 0 <= p < |g.executionOrder| => RuleOf(coders[g.executionOrder[p]]))
  }

  /** Sizes looked up with the coder index as output index, as the chain compiler does. */
  function ChainSizes(g: FolderGraph, sizes: CoderOutputSizes): seq<OutputSize> {
    seq(|g.executionOrder|, p requires 0 <= p < |g.executionOrder| => sizes.Get(g.executionOrder[p]))
  }

  // ---------------------------------------------------------------- working sets

  /** Estimated working set of a decoder, or none where the coder's properties do not parse. */
  type Estimate = CoderInfo -> Option<u64>

  function WorkingSet(estimate: Estimate, coders: seq<CoderInfo>): Option<nat> {
    if coders == [] then Some(0) else
      var init := WorkingSet(estimate, coders[..|coders| - 1]);
      var last := estimate(coders[|coders| - 1]);
      if init.Some? && last.Some? then Some(init.value + last.value) else None
  }

  /** All coders can be set up, and together with what is added they stay within the limit. */
  predicate Admitted(estimate: Estimate, coders: seq<CoderInfo>, added: nat, limit: u64) {
    WorkingSet(estimate, coders).Some? && WorkingSet(estimate, coders).value + added <= limit
  }

  lemma {:induction false} PrefixSmaller(estimate: Estimate, coders: seq<CoderInfo>, k: nat)
    requires k <= |coders| && WorkingSet(estimate, coders).Some?
    ensures WorkingSet(estimate, coders[..k]).Some?
    ensures WorkingSet(estimate, coders[..k]).value <= WorkingSet(estimate, coders).value
    decreases |coders|
  {
    if k == |coders| {
      assert coders[..k] == coders;
    } else {
      PrefixSmaller(estimate, coders[..|coders| - 1], k);
      assert coders[..|coders| - 1][..k] == coders[..k];
    }
  }

  /** Checked addition of the working sets and of what comes on top. */
  method Admit(estimate: Estimate, coders: seq<CoderInfo>, added: u64, limit: u64) returns (r: Result<u64, R7zError>)
    ensures r.Success? <==> Admitted(estimate, coders, added, limit)
    ensures r.Success? ==> r.value == WorkingSet(estimate, coders).value + added
  {
    var total: nat := 0;
    for k := 0 to |coders|
      invariant total < U64_LIMIT && WorkingSet(estimate, coders[..k]) == Some(total)
    {
      assert coders[..k + 1][..k] == coders[..k];
      if WorkingSet(estimate, coders).Some? {
        PrefixSmaller(estimate, coders, k + 1);
      }
      var memory := estimate(coders[k]);
      if memory.None? || total + memory.value >= U64_LIMIT {
        return Failure(Decompression);
      }
      total := total + memory.value;
    }
    assert coders[..|coders|] == coders;
    if total + added > limit {
      return Failure(ResourceLimitExceeded);
    }
    r := Success(total + added);
  }

  // ---------------------------------------------------------------- chains

  function InOrder(g: FolderGraph, coders: seq<CoderInfo>): seq<CoderInfo>
    requires forall p :: 0 <= p < |g.executionOrder| ==> g.executionOrder[p] < |coders|
  {
    seq(|g.executionOrder|, p requires 0 <= p < |g.executionOrder| => coders[g.executionOrder[p]])
  }

  /** The equations of the chain have a solution, PPMd outputs are forced, and the decoders are admitted. */
  ghost predicate ChainCompiles(
      g: FolderGraph, coders: seq<CoderInfo>, sizes: CoderOutputSizes, packed: u64, estimate: Estimate, limit: u64)
    requires forall p :: 0 <= p < |g.executionOrder| ==> g.executionOrder[p] < |coders|
  {
    var rules, declared := ChainRules(g, coders), ChainSizes(g, sizes);
    && Solvable(rules, declared, packed) && NeedsMet(rules, declared, packed)
    && Admitted(estimate, InOrder(g, coders), 0, limit)
  }

  /** Steps whose known sizes are the forced ones of some chain that ends with the folder size. */
  ghost predicate ChainSteps(steps: seq<DecodeStep>, folderSize: u64) {
    exists rules, declared, packed: u64 {:trigger SizesDetermined(steps, rules, declared, packed)} ::
      && |declared| == |rules| > 0 && declared[|rules| - 1] == Known(folderSize)
      && Solvable(rules, declared, packed) && SizesDetermined(steps, rules, declared, packed)
  }

  /** A chain compiles exactly when its sizes are consistent, PPMd outputs are forced and memory suffices. */
  method CompileChain(
      g: FolderGraph, coders: seq<CoderInfo>, sizes: CoderOutputSizes, packedSizes: seq<u64>,
      estimate: Estimate, limit: u64)
    returns (r: Result<seq<DecodeStep>, R7zError>)
    requires ChainGraph(g) && g.executionOrder != [] && |coders| == |g.executionOrder|
    requires sizes.finalIndex == g.finalOutput && |packedSizes| == |g.packedInputs|
    ensures |packedSizes| == 1
    ensures r.Success? <==> ChainCompiles(g, coders, sizes, packedSizes[0], estimate, limit)
    ensures r.Success? ==> ChainSteps(r.value, sizes.finalSize)
    ensures r.Success? ==> SizesDetermined(r.value, ChainRules(g, coders), ChainSizes(g, sizes), packedSizes[0])
  {
    ChainIsPath(g);
    r := InferSizes(ChainRules(g, coders), ChainSizes(g, sizes), packedSizes[0]);
    if r.Success? {
      var admitted := Admit(estimate, InOrder(g, coders), 0, limit);
      if admitted.Failure? {
        return Failure(admitted.error);
      }
    }
  }

  /** An AES tail is charged exactly the declared folder size; other chains are not charged early. */
  lemma ChainEagerSize(steps: seq<DecodeStep>, folderSize: u64)
    requires ChainSteps(steps, folderSize)
    ensures EagerAmong(steps, |steps|) == if HasAesTail(steps) then Some(folderSize) else None
  {
    var rules, declared, packed: u64 :| |declared| == |rules| > 0 && declared[|rules| - 1] == Known(folderSize)
      && Solvable(rules, declared, packed) && SizesDetermined(steps, rules, declared, packed);
    forall i: nat | i < |steps| && TailPreserves(steps, i) ensures steps[i].output == Known(folderSize) {
      AesTailHasFolderSize(steps, rules, declared, packed, i, folderSize);
    }
    EagerAmongTails(steps, |steps|, folderSize);
  }

  // ---------------------------------------------------------------- binding

  datatype PackedInput<T> = PackedInput(reader: T, size: nat)

  /** The packed readers of a plan, bounded to their sizes; each can be taken once. */
  class BoundInputs<T> {
    var slots: seq<Option<T>>

    constructor (inputs: seq<PackedInput<T>>)
      ensures |slots| == |inputs|
      ensures forall k :: 0 <= k < |inputs| ==> slots[k] == Some(inputs[k].reader)
    {
      slots := seq(|inputs|, k requires 0 <= k < |inputs| => Some(inputs[k].reader));
    }

    method Take(slot: nat) returns (r: Result<T, R7zError>)
      modifies this
      ensures r.Success? <==> slot < |old(slots)| && old(slots)[slot].Some?
      ensures r.Success? ==> old(slots)[slot] == Some(r.value) && slots == old(slots)[slot := None]
      ensures r.Failure? ==> slots == old(slots) && r.error == InvalidFolderGraph
    {
      if slot < |slots| && slots[slot].Some? {
        r := Success(slots[slot].value);
        slots := slots[slot := None];
      } else {
        r := Failure(InvalidFolderGraph);
      }
    }
  }

  ghost predicate SizesAgree<T>(inputs: seq<PackedInput<T>>, sizes: seq<u64>) {
    |inputs| == |sizes| && forall k :: 0 <= k < |inputs| ==> inputs[k].size == sizes[k]
  }

  method BindSizes<T>(inputs: seq<PackedInput<T>>, sizes: seq<u64>) returns (r: Result<(), R7zError>)
    ensures r.Success? <==> SizesAgree(inputs, sizes)
    ensures r.Failure? ==> r.error == if |inputs| != |sizes| then InvalidFolderGraph else Parse
  {
    if |inputs| != |sizes| {
      return Failure(InvalidFolderGraph);
    }
    for k := 0 to |inputs|
      invariant forall j :: 0 <= j < k ==> inputs[j].size == sizes[j]
    {
      if inputs[k].size != sizes[k] {
        return Failure(Parse);
      }
    }
    r := Success(());
  }

  lemma SlotsOfLayout(g: FolderGraph, coders: seq<CoderInfo>, bcj2: nat, layout: Bcj2Layout)
    requires LayoutFor(g, coders, bcj2, layout)
    ensures layout.main.packed < 4 && layout.call.packed < 4 && layout.jump.packed < 4 && layout.control.packed < 4
    ensures layout.main.packed != layout.call.packed && layout.jump.packed != layout.control.packed
    ensures layout.main.packed != layout.jump.packed && layout.main.packed != layout.control.packed
    ensures layout.call.packed != layout.jump.packed && layout.call.packed != layout.control.packed
    ensures |g.packedInputs| == 4
  {
    hide ChannelsTraced, Distinct;
    assert SlotsDistinct(layout);
    assert layout.Channel(0) == layout.main && layout.Channel(1) == layout.call;
    assert layout.Channel(2) == layout.jump && layout.Channel(3) == layout.control;
  }

  /** Binding a BCJ2 plan: once sizes agree, no take ever finds a used or missing slot. */
  method BindBcj2<T>(
      ghost g: FolderGraph, ghost coders: seq<CoderInfo>, ghost bcj2: nat, layout: Bcj2Layout,
      inputs: seq<PackedInput<T>>, sizes: seq<u64>)
    returns (r: Result<seq<T>, R7zError>)
    requires LayoutFor(g, coders, bcj2, layout) && |sizes| == |g.packedInputs|
    ensures r.Success? <==> SizesAgree(inputs, sizes)
    ensures r.Success? ==> |r.value| == 4
    ensures r.Success? ==> forall k :: 0 <= k < 4 ==>
      layout.Channel(k).packed < |inputs| && r.value[k] == inputs[layout.Channel(k).packed].reader
  {
    var checked := BindSizes(inputs, sizes);
    if checked.Failure? {
      return Failure(checked.error);
    }
    var bound := new BoundInputs(inputs);
    SlotsOfLayout(g, coders, bcj2, layout);
    hide LayoutFor, SizesAgree;
    var main := bound.Take(layout.main.packed);
    var call := bound.Take(layout.call.packed);
    var jump := bound.Take(layout.jump.packed);
    var control := bound.Take(layout.control.packed);
    r := Success([main.value, call.value, jump.value, control.value]);
  }
}
