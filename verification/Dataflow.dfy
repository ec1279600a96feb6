/**
 * What a resolved folder graph computes. A coder is an arbitrary function
 * run(coder, inputs, k) giving its k-th output from all of its inputs, so stream values may be
 * byte strings, failures, or anything else.
 */
module Dataflow {
  import opened Wrappers
  import opened Words
  import opened Counting
  import opened Folders
  import opened FolderGraphs

  /** What evaluation needs: bound inputs read earlier coders, free inputs have a slot. */
  ghost predicate Evaluable(g: FolderGraph) {
    && Distinct(g.executionOrder) && Below(g.executionOrder, |g.executionOrder|)
    && Below(g.inputOwners, |g.executionOrder|) && Below(g.outputOwners, |g.executionOrder|)
    && |g.inputSources| == |g.inputOwners|
    && forall i: nat :: i < |g.inputSources| ==> Fed(g, i)
  }

  ghost predicate Fed(g: FolderGraph, i: nat)
    requires i < |g.inputSources| == |g.inputOwners|
  {
    match g.inputSources[i]
    case Some(o) => o < |g.outputOwners| && RunsBefore(g, g.outputOwners[o], g.inputOwners[i])
    case None => FindSlot(g.packedInputs, i) < |g.packedInputs|
  }

  ghost predicate RunsBefore(g: FolderGraph, c: nat, d: nat) {
    forall p :: 0 <= p < |g.executionOrder| && g.executionOrder[p] == d ==> c in g.executionOrder[..p]
  }

  /** The first slot that feeds input i, or the table length. */
  ghost function FindSlot(table: seq<(nat, nat)>, i: nat): (k: nat)
    ensures k <= |table|
    ensures k < |table| ==> table[k].1 == i
    ensures forall j :: 0 <= j < k ==> table[j].1 != i
  {
    if table == [] then 0
    else if table[0].1 == i then 0
    else FindSlot(table[1..], i) + 1
  }

  ghost predicate Consumed(g: FolderGraph, o: nat) {
    exists i :: 0 <= i < |g.inputSources| && g.inputSources[i] == Some(o)
  }

  /** No output is read twice, all but the final one are read, and slots match free inputs. */
  ghost predicate WellFormed(g: FolderGraph) {
    && Evaluable(g)
    && (forall i, j :: 0 <= i < j < |g.inputSources| && g.inputSources[i].Some? ==>
          g.inputSources[i] != g.inputSources[j])
    && g.finalOutput < |g.outputOwners|
    && (forall o: nat :: o < |g.outputOwners| ==> (Consumed(g, o) <==> o != g.finalOutput))
    && |g.packedInputs| + |g.outputOwners| == |g.inputOwners| + 1
    && (forall k :: 0 <= k < |g.packedInputs| ==>
          && g.packedInputs[k].0 == k
          && g.packedInputs[k].1 < |g.inputSources|
          && g.inputSources[g.packedInputs[k].1].None?)
    && (forall j, k :: 0 <= j < k < |g.packedInputs| ==> g.packedInputs[j].1 != g.packedInputs[k].1)
  }

  lemma PairOfInput(g: FolderGraph, folder: Folder, i: nat) returns (k: nat)
    requires GraphFor(g, folder) && i < |g.inputSources| && g.inputSources[i].Some?
    ensures k < |folder.bindPairs| && folder.bindPairs[k].0 == i
            && folder.bindPairs[k].1 == g.inputSources[i].value
  {
    assert InputUsed(folder.bindPairs, i);
    k :| 0 <= k < |folder.bindPairs| && folder.bindPairs[k].0 == i;
  }

  lemma InputsAreFed(g: FolderGraph, folder: Folder)
    requires GraphFor(g, folder)
    ensures forall i: nat :: i < |g.inputSources| ==> Fed(g, i)
  {
    var pairs, owners := folder.bindPairs, OwnersOf(folder.coders);
    forall i: nat | i < |g.inputSources| ensures Fed(g, i) {
      if g.inputSources[i].Some? {
        var k := PairOfInput(g, folder, i);
        assert Target(pairs, owners, k) == g.inputOwners[i];
        assert Source(pairs, owners, k) == g.outputOwners[g.inputSources[i].value];
      } else {
        assert !InputUsed(pairs, i);
        var k :| 0 <= k < |g.packedInputs| && g.packedInputs[k].1 == i;
      }
    }
  }

  lemma SourcesAreDistinct(g: FolderGraph, folder: Folder)
    requires GraphFor(g, folder)
    ensures forall i, j :: 0 <= i < j < |g.inputSources| && g.inputSources[i].Some? ==>
      g.inputSources[i] != g.inputSources[j]
  {
    forall i, j | 0 <= i < j < |g.inputSources| && g.inputSources[i].Some?
      ensures g.inputSources[i] != g.inputSources[j]
    {
      if g.inputSources[j].Some? {
        var k := PairOfInput(g, folder, i);
        var l := PairOfInput(g, folder, j);
      }
    }
  }

  lemma ConsumedIsUsed(g: FolderGraph, folder: Folder, o: nat)
    requires GraphFor(g, folder) && o < |g.outputOwners|
    ensures Consumed(g, o) <==> OutputUsed(folder.bindPairs, o)
  {
    if Consumed(g, o) {
      var i :| 0 <= i < |g.inputSources| && g.inputSources[i] == Some(o);
      var k := PairOfInput(g, folder, i);
    }
    if OutputUsed(folder.bindPairs, o) {
      var k :| 0 <= k < |folder.bindPairs| && folder.bindPairs[k].1 == o;
      assert g.inputSources[folder.bindPairs[k].0] == Some(o);
    }
  }

  /** Graphs resolved from folders are well formed. */
  lemma GraphIsWellFormed(g: FolderGraph, folder: Folder)
    requires GraphFor(g, folder)
    ensures WellFormed(g) && |g.executionOrder| == |folder.coders|
  {
    InputsAreFed(g, folder);
    SourcesAreDistinct(g, folder);
    forall o: nat | o < |g.outputOwners| ensures Consumed(g, o) <==> o != g.finalOutput {
      ConsumedIsUsed(g, folder, o);
    }
  }

  // ---------------------------------------------------------------- evaluation

  /** Streams owned by coder c, ascending. */
  function Owned(owners: seq<nat>, c: nat): (r: seq<nat>)
    ensures forall i: nat :: i in r <==> i < |owners| && owners[i] == c
    ensures Distinct(r)
  {
    if owners == [] then [] else
      var last := |owners| - 1;
      var init := Owned(owners[..last], c);
      DistinctAppend(init, last);
      if owners[last] == c then init + [last] else init
  }

  /** Position of output o among the outputs of its coder. */
  ghost function Local(owners: seq<nat>, o: nat): nat
    requires o < |owners|
  {
    |Owned(owners[..o], owners[o])|
  }

  ghost predicate Ready<T(!new)>(g: FolderGraph, env: map<nat, T>, i: nat) {
    i < |g.inputSources| && (g.inputSources[i].Some? ==> g.inputSources[i].value in env)
  }

  ghost function InputValue<T(!new)>(g: FolderGraph, packed: seq<T>, env: map<nat, T>, i: nat): T
    requires Evaluable(g) && |packed| == |g.packedInputs| && Ready(g, env, i)
  {
    assert Fed(g, i);
    match g.inputSources[i]
    case Some(o) => env[o]
    case None => packed[FindSlot(g.packedInputs, i)]
  }

  ghost function InputValues<T(!new)>(g: FolderGraph, packed: seq<T>, env: map<nat, T>, c: nat): seq<T>
    requires Evaluable(g) && |packed| == |g.packedInputs|
    requires AllReady(g, env, c)
  {
    var ins := Owned(g.inputOwners, c);
    seq(|ins|, j requires 0 <= j < |ins| =>
      assert ins[j] in ins; InputValue(g, packed, env, ins[j]))
  }

  ghost predicate AllReady<T(!new)>(g: FolderGraph, env: map<nat, T>, c: nat) {
    forall i: nat :: i < |g.inputOwners| && g.inputOwners[i] == c ==> Ready(g, env, i)
  }

  ghost predicate Complete<T(!new)>(g: FolderGraph, env: map<nat, T>) {
    forall o: nat :: o in env <==> o < |g.outputOwners|
  }

  /** Output o carries what its coder makes of the coder's inputs. */
  ghost predicate SolvedAt<T(!new)>(
      g: FolderGraph, run: (nat, seq<T>, nat) -> T, packed: seq<T>, env: map<nat, T>, o: nat)
    requires Evaluable(g) && |packed| == |g.packedInputs| && o < |g.outputOwners|
  {
    var c := g.outputOwners[o];
    && AllReady(g, env, c)
    && o in env
    && env[o] == run(c, InputValues(g, packed, env, c), Local(g.outputOwners, o))
  }

  /** An assignment of values to outputs that satisfies every coder and every bind pair. */
  ghost predicate Solves<T(!new)>(
      g: FolderGraph, run: (nat, seq<T>, nat) -> T, packed: seq<T>, env: map<nat, T>)
    requires Evaluable(g) && |packed| == |g.packedInputs|
  {
    && Complete(g, env)
    && forall o: nat :: o < |g.outputOwners| ==> SolvedAt(g, run, packed, env, o)
  }

  /** The environment holds exactly the outputs of the first k coders. */
  ghost predicate Covers<T(!new)>(g: FolderGraph, env: map<nat, T>, k: nat)
    requires k <= |g.executionOrder|
  {
    forall o: nat :: o in env <==> o < |g.outputOwners| && g.outputOwners[o] in g.executionOrder[..k]
  }

  lemma CoveredInputsReady<T(!new)>(g: FolderGraph, env: map<nat, T>, k: nat)
    requires Evaluable(g) && k < |g.executionOrder| && Covers(g, env, k)
    ensures AllReady(g, env, g.executionOrder[k])
  {
    forall i: nat | i < |g.inputOwners| && g.inputOwners[i] == g.executionOrder[k]
      ensures Ready(g, env, i)
    {
      assert Fed(g, i);
    }
  }

  /** The outputs of one coder. */
  ghost function RunCoder<T(!new)>(
      g: FolderGraph, run: (nat, seq<T>, nat) -> T, packed: seq<T>, env: map<nat, T>, c: nat): map<nat, T>
    requires Evaluable(g) && |packed| == |g.packedInputs| && AllReady(g, env, c)
  {
    map o: nat | o < |g.outputOwners| && g.outputOwners[o] == c
      :: run(c, InputValues(g, packed, env, c), Local(g.outputOwners, o))
  }

  /** Runs the first k coders of the execution order; EvaluateCovers shows each of them is ready. */
  ghost function Evaluate<T(!new)>(
      g: FolderGraph, run: (nat, seq<T>, nat) -> T, packed: seq<T>, k: nat): (env: map<nat, T>)
    requires Evaluable(g) && |packed| == |g.packedInputs| && k <= |g.executionOrder|
  {
    if k == 0 then map[] else
      var env, c := Evaluate(g, run, packed, k - 1), g.executionOrder[k - 1];
      if AllReady(g, env, c) then env + RunCoder(g, run, packed, env, c) else env
  }

  lemma EvaluateNone<T(!new)>(g: FolderGraph, run: (nat, seq<T>, nat) -> T, packed: seq<T>)
    requires Evaluable(g) && |packed| == |g.packedInputs|
    ensures Evaluate(g, run, packed, 0) == map[]
  {
  }

  lemma EvaluateOneMore<T(!new)>(g: FolderGraph, run: (nat, seq<T>, nat) -> T, packed: seq<T>, k: nat)
    requires Evaluable(g) && |packed| == |g.packedInputs| && k < |g.executionOrder|
    ensures var env, c := Evaluate(g, run, packed, k), g.executionOrder[k];
      AllReady(g, env, c) ==> Evaluate(g, run, packed, k + 1) == env + RunCoder(g, run, packed, env, c)
  {
    hide AllReady, RunCoder, Evaluable;
  }

  /** Adding the outputs of the next coder. */
  lemma CoversOneMore<T(!new)>(
      g: FolderGraph, run: (nat, seq<T>, nat) -> T, packed: seq<T>, env: map<nat, T>, k: nat)
    requires Evaluable(g) && |packed| == |g.packedInputs| && k < |g.executionOrder|
    requires Covers(g, env, k) && AllReady(g, env, g.executionOrder[k])
    ensures Covers(g, env + RunCoder(g, run, packed, env, g.executionOrder[k]), k + 1)
  {
    hide AllReady, Evaluable, InputValues, Local;
    assert g.executionOrder[..k + 1] == g.executionOrder[..k] + [g.executionOrder[k]];
  }

  lemma {:induction false} EvaluateCovers<T(!new)>(
      g: FolderGraph, run: (nat, seq<T>, nat) -> T, packed: seq<T>, k: nat)
    requires Evaluable(g) && |packed| == |g.packedInputs| && k <= |g.executionOrder|
    ensures Covers(g, Evaluate(g, run, packed, k), k)
  {
    hide Evaluate, RunCoder, AllReady, Evaluable;
    if k == 0 {
      EvaluateNone(g, run, packed);
    } else {
      hide Covers;
      EvaluateCovers(g, run, packed, k - 1);
      CoveredInputsReady(g, Evaluate(g, run, packed, k - 1), k - 1);
      EvaluateOneMore(g, run, packed, k - 1);
      CoversOneMore(g, run, packed, Evaluate(g, run, packed, k - 1), k - 1);
    }
  }

  lemma RunAgrees<T(!new)>(
      g: FolderGraph, run: (nat, seq<T>, nat) -> T, packed: seq<T>,
      before: map<nat, T>, env: map<nat, T>, c: nat)
    requires Evaluable(g) && |packed| == |g.packedInputs| && Solves(g, run, packed, env)
    requires AllReady(g, before, c) && Extends(before, env)
    ensures Extends(RunCoder(g, run, packed, before, c), env)
  {
    InputsStable(g, packed, before, env, c);
    forall o: nat | o < |g.outputOwners| && g.outputOwners[o] == c
      ensures o in env && env[o] == RunCoder(g, run, packed, before, c)[o]
    {
      assert SolvedAt(g, run, packed, env, o);
    }
  }

  /** Every solution agrees with evaluation, so there is at most one. */
  lemma {:induction false} SolutionIsEvaluation<T(!new)>(
      g: FolderGraph, run: (nat, seq<T>, nat) -> T, packed: seq<T>, env: map<nat, T>, k: nat)
    requires Evaluable(g) && |packed| == |g.packedInputs| && k <= |g.executionOrder|
    requires Solves(g, run, packed, env)
    ensures Extends(Evaluate(g, run, packed, k), env)
  {
    hide Evaluate, RunCoder, AllReady, Evaluable, Solves, Covers;
    if k == 0 {
      EvaluateNone(g, run, packed);
    } else {
      hide Extends;
      SolutionIsEvaluation(g, run, packed, env, k - 1);
      var before, c := Evaluate(g, run, packed, k - 1), g.executionOrder[k - 1];
      EvaluateCovers(g, run, packed, k - 1);
      CoveredInputsReady(g, before, k - 1);
      RunAgrees(g, run, packed, before, env, c);
      EvaluateOneMore(g, run, packed, k - 1);
      ExtendsBoth(before, RunCoder(g, run, packed, before, c), env);
    }
  }

  lemma EvaluationStep<T(!new)>(
      g: FolderGraph, run: (nat, seq<T>, nat) -> T, packed: seq<T>, k: nat)
    requires Evaluable(g) && |packed| == |g.packedInputs| && k < |g.executionOrder|
    ensures Extends(Evaluate(g, run, packed, k), Evaluate(g, run, packed, k + 1))
  {
    hide Evaluate, AllReady, InputValues, Local;
    assert g.executionOrder[k] !in g.executionOrder[..k];
    EvaluateCovers(g, run, packed, k);
    CoveredInputsReady(g, Evaluate(g, run, packed, k), k);
    EvaluateOneMore(g, run, packed, k);
  }

  lemma StepSolves<T(!new)>(
      g: FolderGraph, run: (nat, seq<T>, nat) -> T, packed: seq<T>, k: nat, o: nat)
    requires Evaluable(g) && |packed| == |g.packedInputs| && k < |g.executionOrder|
    requires o < |g.outputOwners| && g.outputOwners[o] == g.executionOrder[k]
    ensures SolvedAt(g, run, packed, Evaluate(g, run, packed, k + 1), o)
  {
    var before, after := Evaluate(g, run, packed, k), Evaluate(g, run, packed, k + 1);
    EvaluationStep(g, run, packed, k);
    EvaluateCovers(g, run, packed, k);
    CoveredInputsReady(g, before, k);
    InputsStable(g, packed, before, after, g.executionOrder[k]);
  }

  ghost predicate Extends<T(!new)>(small: map<nat, T>, large: map<nat, T>) {
    forall o :: o in small ==> o in large && large[o] == small[o]
  }

  lemma ExtendsBoth<T(!new)>(a: map<nat, T>, b: map<nat, T>, c: map<nat, T>)
    requires Extends(a, c) && Extends(b, c)
    ensures Extends(a + b, c)
  {
  }

  lemma ExtendsItself<T(!new)>(a: map<nat, T>)
    ensures Extends(a, a)
  {
  }

  lemma ExtendsTransitive<T(!new)>(a: map<nat, T>, b: map<nat, T>, c: map<nat, T>)
    requires Extends(a, b) && Extends(b, c)
    ensures Extends(a, c)
  {
  }

  lemma {:induction false} EvaluationGrows<T(!new)>(
      g: FolderGraph, run: (nat, seq<T>, nat) -> T, packed: seq<T>, j: nat, k: nat)
    requires Evaluable(g) && |packed| == |g.packedInputs| && j <= k <= |g.executionOrder|
    ensures Extends(Evaluate(g, run, packed, j), Evaluate(g, run, packed, k))
    decreases k
  {
    hide Evaluate, Extends, Evaluable;
    if j == k {
      ExtendsItself(Evaluate(g, run, packed, j));
    } else {
      var a, b, c := Evaluate(g, run, packed, j), Evaluate(g, run, packed, k - 1), Evaluate(g, run, packed, k);
      EvaluationGrows(g, run, packed, j, k - 1);
      EvaluationStep(g, run, packed, k - 1);
      ExtendsTransitive(a, b, c);
    }
  }

  /** A satisfied coder stays satisfied when more values are added. */
  lemma InputsStable<T(!new)>(
      g: FolderGraph, packed: seq<T>, small: map<nat, T>, large: map<nat, T>, c: nat)
    requires Evaluable(g) && |packed| == |g.packedInputs| && Extends(small, large)
    requires AllReady(g, small, c)
    ensures AllReady(g, large, c)
    ensures InputValues(g, packed, small, c) == InputValues(g, packed, large, c)
  {
    var ins := Owned(g.inputOwners, c);
    assert forall j :: 0 <= j < |ins| ==> ins[j] in ins;
  }

  lemma SolvedLater<T(!new)>(
      g: FolderGraph, run: (nat, seq<T>, nat) -> T, packed: seq<T>,
      small: map<nat, T>, large: map<nat, T>, o: nat)
    requires Evaluable(g) && |packed| == |g.packedInputs| && o < |g.outputOwners|
    requires SolvedAt(g, run, packed, small, o) && Extends(small, large)
    ensures SolvedAt(g, run, packed, large, o)
  {
    InputsStable(g, packed, small, large, g.outputOwners[o]);
  }

  lemma CoversAll<T(!new)>(g: FolderGraph, env: map<nat, T>)
    requires Evaluable(g) && Covers(g, env, |g.executionOrder|)
    ensures Complete(g, env)
  {
    DistinctBelow(g.executionOrder, |g.executionOrder|);
    assert g.executionOrder[..|g.executionOrder|] == g.executionOrder;
  }

  lemma SolvedAtEnd<T(!new)>(
      g: FolderGraph, run: (nat, seq<T>, nat) -> T, packed: seq<T>, o: nat)
    requires Evaluable(g) && |packed| == |g.packedInputs| && o < |g.outputOwners|
    ensures SolvedAt(g, run, packed, Evaluate(g, run, packed, |g.executionOrder|), o)
  {
    DistinctBelow(g.executionOrder, |g.executionOrder|);
    assert g.outputOwners[o] in g.executionOrder;
    var p :| 0 <= p < |g.executionOrder| && g.executionOrder[p] == g.outputOwners[o];
    StepSolves(g, run, packed, p, o);
    EvaluationGrows(g, run, packed, p + 1, |g.executionOrder|);
    SolvedLater(g, run, packed, Evaluate(g, run, packed, p + 1),
                Evaluate(g, run, packed, |g.executionOrder|), o);
  }

  /** Evaluating every coder solves the graph, so a solution exists. */
  lemma EvaluationSolves<T(!new)>(g: FolderGraph, run: (nat, seq<T>, nat) -> T, packed: seq<T>)
    requires Evaluable(g) && |packed| == |g.packedInputs|
    ensures Solves(g, run, packed, Evaluate(g, run, packed, |g.executionOrder|))
  {
    EvaluateCovers(g, run, packed, |g.executionOrder|);
    CoversAll(g, Evaluate(g, run, packed, |g.executionOrder|));
    forall o: nat | o < |g.outputOwners|
      ensures SolvedAt(g, run, packed, Evaluate(g, run, packed, |g.executionOrder|), o)
    {
      SolvedAtEnd(g, run, packed, o);
    }
  }

  /** The value of the folder: what its final output carries. */
  ghost function Meaning<T(!new)>(g: FolderGraph, run: (nat, seq<T>, nat) -> T, packed: seq<T>): T
    requires WellFormed(g) && |packed| == |g.packedInputs|
  {
    EvaluationSolves(g, run, packed);
    Evaluate(g, run, packed, |g.executionOrder|)[g.finalOutput]
  }

  lemma MeaningIsTheSolution<T(!new)>(
      g: FolderGraph, run: (nat, seq<T>, nat) -> T, packed: seq<T>, env: map<nat, T>)
    requires WellFormed(g) && |packed| == |g.packedInputs|
    requires Solves(g, run, packed, env)
    ensures env[g.finalOutput] == Meaning(g, run, packed)
  {
    EvaluationSolves(g, run, packed);
    SolutionIsEvaluation(g, run, packed, env, |g.executionOrder|);
  }

  // ---------------------------------------------------------------- pipes

  /** Feeding a value through one-input coders, first coder first. */
  ghost function Pipe<T(!new)>(run: (nat, seq<T>, nat) -> T, path: seq<nat>, x: T): T {
    if path == [] then x
    else run(path[|path| - 1], [Pipe(run, path[..|path| - 1], x)], 0)
  }

  /** Coder c has the single input i and the single output o. */
  ghost predicate OneToOne(g: FolderGraph, c: nat, i: nat, o: nat) {
    Owned(g.inputOwners, c) == [i] && Owned(g.outputOwners, c) == [o]
  }

  /** Input i receives packed stream slot after it has passed the coders of path. */
  ghost predicate FeedsThrough(g: FolderGraph, path: seq<nat>, slot: nat, i: nat) {
    && i < |g.inputSources|
    && if path == [] then g.inputSources[i].None? && FindSlot(g.packedInputs, i) == slot
       else g.inputSources[i].Some?
            && var c, o := path[|path| - 1], g.inputSources[i].value;
               && Owned(g.inputOwners, c) != []
               && OneToOne(g, c, Owned(g.inputOwners, c)[0], o)
               && FeedsThrough(g, path[..|path| - 1], slot, Owned(g.inputOwners, c)[0])
  }

  lemma {:induction false} PathValue<T(!new)>(
      g: FolderGraph, run: (nat, seq<T>, nat) -> T, packed: seq<T>, env: map<nat, T>,
      path: seq<nat>, slot: nat, i: nat)
    requires Evaluable(g) && |packed| == |g.packedInputs| && Solves(g, run, packed, env)
    requires FeedsThrough(g, path, slot, i)
    ensures Ready(g, env, i) && slot < |packed|
    ensures InputValue(g, packed, env, i) == Pipe(run, path, packed[slot])
    decreases |path|
  {
    if path == [] {
      assert Fed(g, i);
    } else {
      var c, o := path[|path| - 1], g.inputSources[i].value;
      var j := Owned(g.inputOwners, c)[0];
      PathValue(g, run, packed, env, path[..|path| - 1], slot, j);
      SingleCoderValue(g, run, packed, env, c, j, o);
    }
  }

  lemma NonEmptyHasMember(s: seq<nat>)
    ensures s != [] ==> exists x :: x in s
  {
    if s != [] {
      assert s[0] in s;
    }
  }

  lemma SingleOutput(g: FolderGraph, c: nat, i: nat, o: nat)
    requires OneToOne(g, c, i, o)
    ensures i < |g.inputOwners| && g.inputOwners[i] == c
    ensures o < |g.outputOwners| && g.outputOwners[o] == c && Local(g.outputOwners, o) == 0
  {
    assert i in Owned(g.inputOwners, c) && o in Owned(g.outputOwners, c);
    var earlier := Owned(g.outputOwners[..o], c);
    NonEmptyHasMember(earlier);
    assert forall x :: x in earlier ==> x < o && x in Owned(g.outputOwners, c);
  }

  /** In a solution, a coder with one input and one output applies its function. */
  lemma SingleCoderValue<T(!new)>(
      g: FolderGraph, run: (nat, seq<T>, nat) -> T, packed: seq<T>, env: map<nat, T>,
      c: nat, i: nat, o: nat)
    requires Evaluable(g) && |packed| == |g.packedInputs| && Solves(g, run, packed, env)
    requires OneToOne(g, c, i, o)
    ensures Ready(g, env, i) && o in env
    ensures env[o] == run(c, [InputValue(g, packed, env, i)], 0)
  {
    SingleOutput(g, c, i, o);
    assert SolvedAt(g, run, packed, env, o);
    assert InputValues(g, packed, env, c) == [InputValue(g, packed, env, i)];
  }
}
