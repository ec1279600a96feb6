/** Linear decoder plans: why executing the coders in order agrees with the bind pairs. */
module ChainPlans {
  import opened Wrappers
  import opened Words
  import opened Counting
  import opened Folders
  import opened FolderGraphs
  import opened Dataflow

  predicate AllSingle(coders: seq<CoderInfo>) {
    forall i :: 0 <= i < |coders| ==> coders[i].numInStreams == 1 && coders[i].numOutStreams == 1
  }

  ghost predicate Identity(owners: seq<nat>, n: nat) {
    |owners| == n && forall i :: 0 <= i < n ==> owners[i] == i
  }

  /** With one stream a coder, stream numbers are coder numbers. */
  lemma {:induction false} OwnersAreIdentity(counts: seq<nat>)
    requires forall i :: 0 <= i < |counts| ==> counts[i] == 1
    ensures Identity(OwnerTable(counts), |counts|)
  {
    if counts != [] {
      OwnersAreIdentity(counts[..|counts| - 1]);
    }
  }

  lemma {:induction false} OwnedByIdentity(owners: seq<nat>, c: nat)
    requires Identity(owners, |owners|)
    ensures Owned(owners, c) == if c < |owners| then [c] else []
  {
    if owners != [] {
      OwnedByIdentity(owners[..|owners| - 1], c);
    }
  }

  /** A well-formed graph whose coders all have one input and one output. */
  ghost predicate ChainGraph(g: FolderGraph) {
    && WellFormed(g)
    && Identity(g.inputOwners, |g.executionOrder|)
    && Identity(g.outputOwners, |g.executionOrder|)
  }

  lemma SingleStreamsMakeChainGraph(g: FolderGraph, folder: Folder)
    requires GraphFor(g, folder) && AllSingle(folder.coders)
    ensures ChainGraph(g) && g.executionOrder != []
  {
    GraphIsWellFormed(g, folder);
    OwnersAreIdentity(InputCounts(folder.coders));
    OwnersAreIdentity(OutputCounts(folder.coders));
  }

  /** The graph is one path: order[0] reads the packed stream, each next coder its predecessor. */
  ghost predicate IsPath(g: FolderGraph) {
    var order, n := g.executionOrder, |g.executionOrder|;
    && n > 0 && Below(order, |g.inputSources|)
    && g.packedInputs == [(0, order[0])]
    && g.inputSources[order[0]] == None
    && (forall p :: 1 <= p < n ==> g.inputSources[order[p]] == Some(order[p - 1]))
    && g.finalOutput == order[n - 1]
  }

  /** Counting leaves one packed stream, and it must feed the first coder. */
  lemma FirstReadsPacked(g: FolderGraph)
    requires ChainGraph(g) && g.executionOrder != []
    ensures g.packedInputs == [(0, g.executionOrder[0])]
    ensures g.inputSources[g.executionOrder[0]] == None
    ensures forall p :: 1 <= p < |g.executionOrder| ==> g.inputSources[g.executionOrder[p]].Some?
  {
    var order := g.executionOrder;
    assert Fed(g, order[0]);
    forall p | 1 <= p < |order| ensures g.inputSources[order[p]].Some? {
      assert Fed(g, order[p]);
    }
  }

  /** Sources come earlier and are never shared, so each can only be the predecessor. */
  lemma {:induction false} SourceIsPredecessor(g: FolderGraph, p: nat)
    requires ChainGraph(g) && 1 <= p < |g.executionOrder|
    ensures g.inputSources[g.executionOrder[p]] == Some(g.executionOrder[p - 1])
    decreases p
  {
    var order := g.executionOrder;
    FirstReadsPacked(g);
    assert Fed(g, order[p]);
    var o := g.inputSources[order[p]].value;
    assert o in order[..p];
    var j :| 0 <= j < p && order[j] == o;
    if j + 1 < p {
      SourceIsPredecessor(g, j + 1);
    }
  }

  /** Any accepted graph of single-stream coders is one Hamiltonian path. */
  lemma ChainIsPath(g: FolderGraph)
    requires ChainGraph(g) && g.executionOrder != []
    ensures IsPath(g)
  {
    var order, n := g.executionOrder, |g.executionOrder|;
    FirstReadsPacked(g);
    forall p | 1 <= p < n ensures g.inputSources[order[p]] == Some(order[p - 1]) {
      SourceIsPredecessor(g, p);
    }
    forall q | 0 <= q < n - 1 ensures order[q] != g.finalOutput {
      assert g.inputSources[order[q + 1]] == Some(order[q]);
      assert Consumed(g, order[q]);
    }
    DistinctBelow(order, n);
    assert g.finalOutput in order;
    var j :| 0 <= j < n && order[j] == g.finalOutput;
  }

  lemma {:induction false} PrefixFeeds(g: FolderGraph, p: nat)
    requires ChainGraph(g) && IsPath(g) && p < |g.executionOrder|
    ensures FeedsThrough(g, g.executionOrder[..p], 0, g.executionOrder[p])
  {
    var order := g.executionOrder;
    if p == 0 {
      assert FindSlot(g.packedInputs, order[0]) == 0;
    } else {
      PrefixFeeds(g, p - 1);
      assert order[..p][..p - 1] == order[..p - 1];
      OwnedByIdentity(g.inputOwners, order[p - 1]);
      OwnedByIdentity(g.outputOwners, order[p - 1]);
    }
  }

  /** Piping the one packed stream through the steps in order computes the folder's meaning. */
  lemma ChainComputesMeaning<T(!new)>(g: FolderGraph, run: (nat, seq<T>, nat) -> T, packed: seq<T>)
    requires ChainGraph(g) && g.executionOrder != [] && |packed| == |g.packedInputs|
    ensures |packed| == 1
    ensures Meaning(g, run, packed) == Pipe(run, g.executionOrder, packed[0])
  {
    ChainIsPath(g);
    var order, last := g.executionOrder, |g.executionOrder| - 1;
    var env := Evaluate(g, run, packed, |order|);
    EvaluationSolves(g, run, packed);
    PrefixFeeds(g, last);
    PathValue(g, run, packed, env, order[..last], 0, order[last]);
    OwnedByIdentity(g.inputOwners, order[last]);
    OwnedByIdentity(g.outputOwners, order[last]);
    SingleCoderValue(g, run, packed, env, order[last], order[last], order[last]);
  }

  // ---------------------------------------------------------------- folders the writer emits

  /** The bind pairs written for an encrypted folder: coder k + 1 reads coder k. */
  function WrittenChain(coders: seq<CoderInfo>): Folder
    requires 1 <= |coders| < U64_LIMIT
  {
    Folder(coders, seq(|coders| - 1, k requires 0 <= k < |coders| - 1 => (k + 1, k)), [])
  }

  lemma {:induction false} SumOfOnes(counts: seq<nat>)
    requires forall i :: 0 <= i < |counts| ==> counts[i] == 1
    ensures Sum(counts) == |counts|
  {
    if counts != [] {
      SumOfOnes(counts[..|counts| - 1]);
    }
  }

  /** Every chain the writer emits is accepted. */
  lemma WrittenChainAccepted(coders: seq<CoderInfo>)
    requires 1 <= |coders| <= MAX_FOLDER_STREAMS && AllSingle(coders)
    requires forall i :: 0 <= i < |coders| ==> StreamArity(coders[i]).Success?
    ensures Accepts(WrittenChain(coders))
  {
    var folder, n := WrittenChain(coders), |coders|;
    var owners, pairs := OwnersOf(coders), folder.bindPairs;
    OwnersAreIdentity(InputCounts(coders));
    OwnersAreIdentity(OutputCounts(coders));
    SumOfOnes(InputCounts(coders));
    SumOfOnes(OutputCounts(coders));
    var order: seq<nat> := seq(n, i => i);
    assert forall k :: 0 <= k < |pairs| ==> pairs[k] == (k + 1, k);
    forall p, k | 0 <= p < n && 0 <= k < |pairs| && Target(pairs, owners, k) == order[p]
      ensures Source(pairs, owners, k) in order[..p]
    {
      assert order[..p][k] == k;
    }
    OrderedImpliesAcyclic(order, pairs, owners, n);
  }

  lemma WrittenSources(g: FolderGraph, coders: seq<CoderInfo>, i: nat)
    requires 1 <= |coders| < U64_LIMIT && AllSingle(coders) && GraphFor(g, WrittenChain(coders))
    requires i < |g.inputSources|
    ensures g.inputSources[i] == if i == 0 then None else Some(i - 1)
  {
    var pairs := WrittenChain(coders).bindPairs;
    OwnersAreIdentity(InputCounts(coders));
    assert !InputUsed(pairs, 0);
    if i > 0 {
      assert pairs[i - 1] == (i, i - 1);
    }
  }

  lemma {:induction false} PathFollowsSources(g: FolderGraph, p: nat)
    requires IsPath(g) && p < |g.executionOrder|
    requires forall i: nat :: i < |g.inputSources| ==>
      g.inputSources[i] == if i == 0 then None else Some(i - 1)
    ensures g.executionOrder[p] == p
  {
    if p > 0 {
      PathFollowsSources(g, p - 1);
    }
  }

  lemma WrittenChainOrder(g: FolderGraph, coders: seq<CoderInfo>)
    requires 1 <= |coders| < U64_LIMIT && AllSingle(coders) && GraphFor(g, WrittenChain(coders))
    ensures g.executionOrder == seq(|coders|, i => i)
  {
    SingleStreamsMakeChainGraph(g, WrittenChain(coders));
    ChainIsPath(g);
    forall i: nat | i < |g.inputSources|
      ensures g.inputSources[i] == if i == 0 then None else Some(i - 1)
    {
      WrittenSources(g, coders, i);
    }
    forall p: nat | p < |g.executionOrder| ensures g.executionOrder[p] == p {
      PathFollowsSources(g, p);
    }
  }
}
