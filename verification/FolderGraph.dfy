/** Resolving a folder into its stream graph, and when that succeeds. */
module FolderGraphs {
  import opened Wrappers
  import opened Words
  import opened Counting
  import opened Folders

  datatype FolderGraph = FolderGraph(
    executionOrder: seq<nat>,
    packedInputs: seq<(nat, nat)>,
    finalOutput: nat,
    inputOwners: seq<nat>,
    outputOwners: seq<nat>,
    inputSources: seq<Option<nat>>)

  /** Every pair binds, or the list is not well linked or has the wrong length. */
  method NewBindings(pairs: seq<(u64, u64)>, owners: StreamOwners, coderCount: nat)
    returns (r: Result<Bindings, R7zError>)
    requires WellOwned(owners, coderCount)
    ensures r.Success? <==> |pairs| + 1 == |owners.outputs| && Linked(pairs, owners)
    ensures r.Success? ==> fresh(r.value) && r.value.Valid() && r.value.pairs == pairs
                           && r.value.owners == owners && r.value.coderCount == coderCount
    ensures r.Failure? ==> r.error == InvalidFolderGraph
  {
    if |owners.outputs| == 0 || |pairs| != |owners.outputs| - 1 {
      return Failure(InvalidFolderGraph);
    }
    var bindings := new Bindings(owners, coderCount);
    for k := 0 to |pairs|
      invariant bindings.Valid() && fresh(bindings)
      invariant bindings.owners == owners && bindings.coderCount == coderCount
      invariant bindings.pairs == pairs[..k]
    {
      assert pairs[..k + 1] == pairs[..k] + [pairs[k]];
      var bound := bindings.Bind(pairs[k].0, pairs[k].1, owners);
      if bound.Failure? {
        LinkedPrefix(pairs, k + 1, owners);
        return Failure(InvalidFolderGraph);
      }
    }
    assert pairs[..|pairs|] == pairs;
    r := Success(bindings);
  }

  lemma LinkedPrefix(pairs: seq<(u64, u64)>, k: nat, owners: StreamOwners)
    requires k <= |pairs|
    ensures Linked(pairs, owners) ==> Linked(pairs[..k], owners)
  {
    if Linked(pairs, owners) {
      forall j | 0 <= j < k
        ensures Source(pairs[..k], owners, j) == Source(pairs, owners, j)
             && Target(pairs[..k], owners, j) == Target(pairs, owners, j)
      {}
    }
  }

  // ---------------------------------------------------------------- counting

  /** Unused streams and used streams together number all streams. */
  lemma UnboundCount(bound: seq<bool>, used: seq<nat>)
    requires Distinct(used) && Below(used, |bound|)
    requires forall i :: 0 <= i < |bound| ==> (bound[i] <==> i in used)
    ensures |Unbound(bound)| + |used| == |bound|
  {
    var all := Unbound(bound) + used;
    assert forall i: nat :: i < |bound| ==> i in Unbound(bound) || i in used;
    forall i, j | 0 <= i < j < |all| ensures all[i] != all[j] {
      if i < |Unbound(bound)| <= j {
        assert all[i] in Unbound(bound) && all[j] in used;
      }
    }
    forall i: nat | i < |bound| ensures i in all {}
    DistinctBelow(all, |bound|);
    DistinctSize(all);
    SubsetSize(UpTo(|bound|), Elements(all));
  }

  ghost function UsedInputs(pairs: seq<(u64, u64)>): seq<nat> {
    seq(|pairs|, k requires 0 <= k < |pairs| => pairs[k].0 as nat)
  }

  ghost function UsedOutputs(pairs: seq<(u64, u64)>): seq<nat> {
    seq(|pairs|, k requires 0 <= k < |pairs| => pairs[k].1 as nat)
  }

  lemma UsedMembers(pairs: seq<(u64, u64)>, x: nat)
    ensures x in UsedInputs(pairs) <==> InputUsed(pairs, x)
    ensures x in UsedOutputs(pairs) <==> OutputUsed(pairs, x)
  {
    if InputUsed(pairs, x) {
      var k :| 0 <= k < |pairs| && pairs[k].0 == x;
      assert UsedInputs(pairs)[k] == x;
    }
    if OutputUsed(pairs, x) {
      var k :| 0 <= k < |pairs| && pairs[k].1 == x;
      assert UsedOutputs(pairs)[k] == x;
    }
  }

  /** With one pair fewer than outputs, exactly one output is left; inputs are counted alike. */
  lemma LinkedCounts(
      boundInputs: seq<bool>, boundOutputs: seq<bool>, pairs: seq<(u64, u64)>, owners: StreamOwners)
    requires Linked(pairs, owners) && FlagsMatch(boundInputs, boundOutputs, pairs)
    requires |boundInputs| == |owners.inputs| && |boundOutputs| == |owners.outputs|
    ensures |Unbound(boundInputs)| + |pairs| == |owners.inputs|
    ensures |Unbound(boundOutputs)| + |pairs| == |owners.outputs|
  {
    forall x: nat
      ensures x in UsedInputs(pairs) <==> InputUsed(pairs, x)
      ensures x in UsedOutputs(pairs) <==> OutputUsed(pairs, x)
    {
      UsedMembers(pairs, x);
    }
    UnboundCount(boundInputs, UsedInputs(pairs));
    UnboundCount(boundOutputs, UsedOutputs(pairs));
  }

  // ---------------------------------------------------------------- acceptance

  /** The declared packed list is empty with one free input, or lists every free input once. */
  ghost predicate PackedDeclared(explicit: seq<u64>, pairs: seq<(u64, u64)>, owners: StreamOwners) {
    if explicit == [] then |pairs| + 1 == |owners.inputs|
    else
      && |explicit| + |pairs| == |owners.inputs|
      && Distinct(explicit)
      && forall k :: 0 <= k < |explicit| ==>
           explicit[k] < |owners.inputs| && !InputUsed(pairs, explicit[k])
  }

  ghost predicate Accepts(folder: Folder) {
    && ArityOk(folder.coders)
    && var owners := OwnersOf(folder.coders);
       && |folder.bindPairs| + 1 == |owners.outputs|
       && Linked(folder.bindPairs, owners)
       && PackedDeclared(folder.packedIndices, folder.bindPairs, owners)
       && !HasCycle(folder.bindPairs, owners)
  }

  /** Slot k feeds a free input, no input twice, and there are as many slots as free inputs. */
  ghost predicate PackedTableFor(
      table: seq<(nat, nat)>, explicit: seq<u64>, pairs: seq<(u64, u64)>, owners: StreamOwners)
  {
    && |table| + |pairs| == |owners.inputs|
    && (forall k :: 0 <= k < |table| ==> table[k].0 == k)
    && (forall k :: 0 <= k < |table| ==> table[k].1 < |owners.inputs| && !InputUsed(pairs, table[k].1))
    && (forall j, k :: 0 <= j < k < |table| ==> table[j].1 != table[k].1)
    && (forall i: nat :: i < |owners.inputs| && !InputUsed(pairs, i) ==>
          exists k :: 0 <= k < |table| && table[k].1 == i)
    && (explicit != [] ==> |table| == |explicit|
                           && forall k :: 0 <= k < |table| ==> table[k].1 == explicit[k])
  }

  /** What a resolved graph says about its folder. */
  ghost predicate GraphFor(g: FolderGraph, folder: Folder) {
    var owners, pairs := OwnersOf(folder.coders), folder.bindPairs;
    && Linked(pairs, owners) && |pairs| + 1 == |owners.outputs|
    && g.inputOwners == owners.inputs && g.outputOwners == owners.outputs
    && |g.inputSources| == |owners.inputs| && SourcesMatch(g.inputSources, pairs)
    && IsExecutionOrder(g.executionOrder, pairs, owners, |folder.coders|)
    && g.finalOutput < |owners.outputs|
    && (forall o: nat :: o < |owners.outputs| ==> (OutputUsed(pairs, o) <==> o != g.finalOutput))
    && PackedTableFor(g.packedInputs, folder.packedIndices, pairs, owners)
  }

  lemma PackedEquivalence(
      explicit: seq<u64>, boundInputs: seq<bool>, boundOutputs: seq<bool>,
      pairs: seq<(u64, u64)>, owners: StreamOwners)
    requires Linked(pairs, owners) && FlagsMatch(boundInputs, boundOutputs, pairs)
    requires |boundInputs| == |owners.inputs| && |boundOutputs| == |owners.outputs|
    ensures PackedOk(explicit, boundInputs) <==> PackedDeclared(explicit, pairs, owners)
  {
    LinkedCounts(boundInputs, boundOutputs, pairs, owners);
    var free := Unbound(boundInputs);
    forall k | 0 <= k < |explicit|
      ensures explicit[k] in free <==> explicit[k] < |owners.inputs| && !InputUsed(pairs, explicit[k])
    {}
  }

  lemma PackedTableListsFree(explicit: seq<u64>, boundInputs: seq<bool>)
    requires PackedOk(explicit, boundInputs)
    ensures var table, free := PackedTable(explicit, boundInputs), Unbound(boundInputs);
      && |table| == |free|
      && (forall k :: 0 <= k < |table| ==> table[k].0 == k && table[k].1 in free)
      && (forall j, k :: 0 <= j < k < |table| ==> table[j].1 != table[k].1)
      && forall i :: i in free ==> exists k :: 0 <= k < |table| && table[k].1 == i
  {
    var free, table := Unbound(boundInputs), PackedTable(explicit, boundInputs);
    var chosen: seq<nat> := seq(|table|, k requires 0 <= k < |table| => table[k].1);
    assert forall k :: 0 <= k < |table| ==> chosen[k] == table[k].1;
    DistinctCover(chosen, free);
    forall i | i in free ensures exists k :: 0 <= k < |table| && table[k].1 == i {
      var k :| 0 <= k < |chosen| && chosen[k] == i;
      assert table[k].1 == i;
    }
  }

  lemma PackedTableCorrect(
      explicit: seq<u64>, boundInputs: seq<bool>, boundOutputs: seq<bool>,
      pairs: seq<(u64, u64)>, owners: StreamOwners)
    requires Linked(pairs, owners) && FlagsMatch(boundInputs, boundOutputs, pairs)
    requires |boundInputs| == |owners.inputs| && |boundOutputs| == |owners.outputs|
    requires PackedOk(explicit, boundInputs)
    ensures PackedTableFor(PackedTable(explicit, boundInputs), explicit, pairs, owners)
  {
    LinkedCounts(boundInputs, boundOutputs, pairs, owners);
    PackedTableListsFree(explicit, boundInputs);
    assert forall i: nat :: i < |owners.inputs| && !InputUsed(pairs, i) ==> i in Unbound(boundInputs);
  }

  lemma DistinctCover(chosen: seq<nat>, free: seq<nat>)
    requires Distinct(chosen) && Distinct(free) && |chosen| == |free|
    requires forall k :: 0 <= k < |chosen| ==> chosen[k] in free
    ensures forall x :: x in free ==> x in chosen
  {
    DistinctSize(chosen);
    DistinctSize(free);
    SubsetSize(Elements(chosen), Elements(free));
    forall x | x in free ensures x in chosen {
      assert x in Elements(free);
    }
  }

  /** A folder resolves exactly when it is accepted, and the graph then describes it. */
  method Graph(folder: Folder) returns (r: Result<FolderGraph, R7zError>)
    ensures r.Success? <==> Accepts(folder)
    ensures r.Success? ==> GraphFor(r.value, folder)
    ensures r.Failure? ==> r.error == InvalidFolderGraph
  {
    var owned := StreamOwnersFromCoders(folder.coders);
    if owned.Failure? {
      return Failure(owned.error);
    }
    var owners := owned.value;
    var bound := NewBindings(folder.bindPairs, owners, |folder.coders|);
    if bound.Failure? {
      return Failure(bound.error);
    }
    var bindings := bound.value;
    LinkedCounts(bindings.boundInputs, bindings.boundOutputs, folder.bindPairs, owners);
    PackedEquivalence(
      folder.packedIndices, bindings.boundInputs, bindings.boundOutputs, folder.bindPairs, owners);
    // By counting, the error branch of final_output cannot be taken here.
    var finalOutput := bindings.FinalOutput();
    assert finalOutput.Success?;
    var outputs := Unbound(bindings.boundOutputs);
    assert outputs[0] in outputs;
    var packed := bindings.PackedInputs(folder.packedIndices);
    if packed.Failure? {
      return Failure(packed.error);
    }
    PackedTableCorrect(
      folder.packedIndices, bindings.boundInputs, bindings.boundOutputs, folder.bindPairs, owners);
    var sources := bindings.inputSources;
    var order := bindings.ExecutionOrder();
    if order.Failure? {
      return Failure(order.error);
    }
    OrderedImpliesAcyclic(order.value, folder.bindPairs, owners, |folder.coders|);
    r := Success(FolderGraph(
      order.value, packed.value, finalOutput.value, owners.inputs, owners.outputs, sources));
  }
}
