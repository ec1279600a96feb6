/** Folder blocks and the validated stream graph built from them. */
module Folders {
  import opened Wrappers
  import opened Words
  import opened Counting
  import Methods

  const MAX_FOLDER_STREAMS: nat := 16_384

  datatype CoderInfo = CoderInfo(
    codecId: Bytes, numInStreams: u64, numOutStreams: u64, properties: Option<Bytes>)

  datatype Folder = Folder(
    coders: seq<CoderInfo>, bindPairs: seq<(u64, u64)>, packedIndices: seq<u64>)

  // ---------------------------------------------------------------- stream owners

  /** Which coder owns each global input and output stream. */
  datatype StreamOwners = StreamOwners(inputs: seq<nat>, outputs: seq<nat>)

  function StreamArity(coder: CoderInfo): Result<(nat, nat), R7zError> {
    var actual := (coder.numInStreams as nat, coder.numOutStreams as nat);
    match Methods.KnownArity(coder.codecId)
    case Some(expected) =>
      if actual != expected then Failure(InvalidFolderGraph) else Success(actual)
    case None =>
      if 1 <= actual.0 <= MAX_FOLDER_STREAMS && 1 <= actual.1 <= MAX_FOLDER_STREAMS
      then Success(actual) else Failure(InvalidFolderGraph)
  }

  function InputCounts(coders: seq<CoderInfo>): seq<nat> {
    seq(|coders|, i requires 0 <= i < |coders| => coders[i].numInStreams as nat)
  }

  function OutputCounts(coders: seq<CoderInfo>): seq<nat> {
    seq(|coders|, i requires 0 <= i < |coders| => coders[i].numOutStreams as nat)
  }

  function Sum(counts: seq<nat>): nat {
    if counts == [] then 0 else Sum(counts[..|counts| - 1]) + counts[|counts| - 1]
  }

  /** Coder k repeated counts[k] times, in coder order. */
  function OwnerTable(counts: seq<nat>): (r: seq<nat>)
    ensures |r| == Sum(counts)
    ensures Below(r, |counts|)
  {
    if counts == [] then [] else
      var last := |counts| - 1;
      OwnerTable(counts[..last]) + seq(counts[last], _ => last)
  }

  predicate ArityOk(coders: seq<CoderInfo>) {
    && (forall i :: 0 <= i < |coders| ==> StreamArity(coders[i]).Success?)
    && Sum(InputCounts(coders)) <= MAX_FOLDER_STREAMS
    && Sum(OutputCounts(coders)) <= MAX_FOLDER_STREAMS
  }

  function OwnersOf(coders: seq<CoderInfo>): StreamOwners {
    StreamOwners(OwnerTable(InputCounts(coders)), OwnerTable(OutputCounts(coders)))
  }

  lemma {:induction false} SumMonotone(counts: seq<nat>, i: nat)
    requires i <= |counts|
    ensures Sum(counts[..i]) <= Sum(counts)
    decreases |counts|
  {
    if i < |counts| {
      var init := counts[..|counts| - 1];
      SumMonotone(init, i);
      assert init[..i] == counts[..i];
    } else {
      assert counts[..i] == counts;
    }
  }

  lemma SumTake(counts: seq<nat>, i: nat)
    requires i < |counts|
    ensures Sum(counts[..i + 1]) == Sum(counts[..i]) + counts[i]
    ensures OwnerTable(counts[..i + 1]) == OwnerTable(counts[..i]) + seq(counts[i], _ => i)
  {
    assert counts[..i + 1][..i] == counts[..i];
  }

  /** The running totals of the source stay within the limit exactly when the full sums do. */
  method CheckedTotal(counts: seq<nat>) returns (ok: bool)
    ensures ok <==> Sum(counts) <= MAX_FOLDER_STREAMS
  {
    var total := 0;
    for i := 0 to |counts|
      invariant total == Sum(counts[..i]) <= MAX_FOLDER_STREAMS
    {
      SumTake(counts, i);
      total := total + counts[i];
      if total > MAX_FOLDER_STREAMS {
        SumMonotone(counts, i + 1);
        return false;
      }
    }
    assert counts[..|counts|] == counts;
    ok := true;
  }

  method FillOwners(counts: seq<nat>) returns (owners: seq<nat>)
    ensures owners == OwnerTable(counts)
  {
    owners := [];
    for i := 0 to |counts|
      invariant owners == OwnerTable(counts[..i])
    {
      SumTake(counts, i);
      owners := owners + seq(counts[i], _ => i);
    }
    assert counts[..|counts|] == counts;
  }

  /** Arities and running totals are checked before the two owner tables are filled. */
  method StreamOwnersFromCoders(coders: seq<CoderInfo>) returns (r: Result<StreamOwners, R7zError>)
    ensures r.Success? <==> ArityOk(coders)
    ensures r.Success? ==> r.value == OwnersOf(coders)
    ensures r.Failure? ==> r.error == InvalidFolderGraph
  {
    for i := 0 to |coders|
      invariant forall k :: 0 <= k < i ==> StreamArity(coders[k]).Success?
    {
      if StreamArity(coders[i]).Failure? {
        return Failure(InvalidFolderGraph);
      }
    }
    var inputsOk := CheckedTotal(InputCounts(coders));
    var outputsOk := CheckedTotal(OutputCounts(coders));
    if !inputsOk || !outputsOk {
      return Failure(InvalidFolderGraph);
    }
    var inputs := FillOwners(InputCounts(coders));
    var outputs := FillOwners(OutputCounts(coders));
    r := Success(StreamOwners(inputs, outputs));
  }

  // ---------------------------------------------------------------- the bind relation

  ghost predicate InRange(pairs: seq<(u64, u64)>, owners: StreamOwners) {
    forall k :: 0 <= k < |pairs| ==> pairs[k].0 < |owners.inputs| && pairs[k].1 < |owners.outputs|
  }

  ghost function Source(pairs: seq<(u64, u64)>, owners: StreamOwners, k: nat): nat
    requires InRange(pairs, owners) && k < |pairs|
  {
    owners.outputs[pairs[k].1]
  }

  ghost function Target(pairs: seq<(u64, u64)>, owners: StreamOwners, k: nat): nat
    requires InRange(pairs, owners) && k < |pairs|
  {
    owners.inputs[pairs[k].0]
  }

  /** Every pair is in range, joins two coders, and uses a fresh input and a fresh output. */
  ghost predicate Linked(pairs: seq<(u64, u64)>, owners: StreamOwners) {
    && InRange(pairs, owners)
    && (forall k :: 0 <= k < |pairs| ==> Source(pairs, owners, k) != Target(pairs, owners, k))
    && (forall j, k :: 0 <= j < k < |pairs| ==> pairs[j].0 != pairs[k].0 && pairs[j].1 != pairs[k].1)
  }

  ghost predicate WellOwned(owners: StreamOwners, coderCount: nat) {
    Below(owners.inputs, coderCount) && Below(owners.outputs, coderCount)
  }

  /** Targets of the pairs that leave coder s, in declaration order. */
  ghost function Targets(pairs: seq<(u64, u64)>, owners: StreamOwners, s: nat): seq<nat>
    requires InRange(pairs, owners)
  {
    if pairs == [] then [] else
      var last := |pairs| - 1;
      Targets(pairs[..last], owners, s)
      + if Source(pairs, owners, last) == s then [Target(pairs, owners, last)] else []
  }

  /** How many pairs enter coder t from a coder outside done. */
  ghost function Pending(pairs: seq<(u64, u64)>, owners: StreamOwners, done: set<nat>, t: nat): nat
    requires InRange(pairs, owners)
  {
    if pairs == [] then 0 else
      var last := |pairs| - 1;
      Pending(pairs[..last], owners, done, t)
      + if Target(pairs, owners, last) == t && Source(pairs, owners, last) !in done then 1 else 0
  }

  lemma {:induction false} PendingStep(
      pairs: seq<(u64, u64)>, owners: StreamOwners, done: set<nat>, v: nat, t: nat)
    requires InRange(pairs, owners) && v !in done
    ensures Pending(pairs, owners, done, t)
         == Pending(pairs, owners, done + {v}, t) + multiset(Targets(pairs, owners, v))[t]
  {
    if pairs != [] {
      PendingStep(pairs[..|pairs| - 1], owners, done, v, t);
    }
  }

  lemma {:induction false} PendingWitness(
      pairs: seq<(u64, u64)>, owners: StreamOwners, done: set<nat>, t: nat)
    requires InRange(pairs, owners)
    ensures Pending(pairs, owners, done, t) == 0 <==>
            forall k :: 0 <= k < |pairs| && Target(pairs, owners, k) == t ==>
              Source(pairs, owners, k) in done
  {
    if pairs != [] {
      var init, last := pairs[..|pairs| - 1], |pairs| - 1;
      PendingWitness(init, owners, done, t);
      assert forall k :: 0 <= k < last ==>
        Source(pairs, owners, k) == Source(init, owners, k) &&
        Target(pairs, owners, k) == Target(init, owners, k);
    }
  }

  lemma {:induction false} TargetsBelow(pairs: seq<(u64, u64)>, owners: StreamOwners, n: nat, s: nat)
    requires InRange(pairs, owners) && WellOwned(owners, n)
    ensures Below(Targets(pairs, owners, s), n)
  {
    if pairs != [] {
      TargetsBelow(pairs[..|pairs| - 1], owners, n, s);
    }
  }

  /** The pair at place i of a walk ends where the next one starts. */
  ghost predicate Joined(c: seq<nat>, i: nat, pairs: seq<(u64, u64)>, owners: StreamOwners)
    requires InRange(pairs, owners) && Below(c, |pairs|) && i + 1 < |c|
  {
    Target(pairs, owners, c[i]) == Source(pairs, owners, c[i + 1])
  }

  /** A closed walk along bind pairs. */
  ghost predicate IsCycle(c: seq<nat>, pairs: seq<(u64, u64)>, owners: StreamOwners)
    requires InRange(pairs, owners)
  {
    && c != []
    && Below(c, |pairs|)
    && (forall i :: 0 <= i < |c| - 1 ==> Joined(c, i, pairs, owners))
    && Target(pairs, owners, c[|c| - 1]) == Source(pairs, owners, c[0])
  }

  ghost predicate HasCycle(pairs: seq<(u64, u64)>, owners: StreamOwners)
    requires InRange(pairs, owners)
  {
    exists c: seq<nat> :: IsCycle(c, pairs, owners)
  }

  /** Every coder once, and the source of each pair before its target. */
  ghost predicate IsExecutionOrder(
      order: seq<nat>, pairs: seq<(u64, u64)>, owners: StreamOwners, n: nat)
    requires InRange(pairs, owners)
  {
    && |order| == n && Distinct(order) && Below(order, n)
    && SourcesFirst(order, pairs, owners)
  }

  ghost predicate SourcesFirst(order: seq<nat>, pairs: seq<(u64, u64)>, owners: StreamOwners)
    requires InRange(pairs, owners)
  {
    forall p, k :: 0 <= p < |order| && 0 <= k < |pairs| && Target(pairs, owners, k) == order[p] ==>
      Source(pairs, owners, k) in order[..p]
  }

  /** Coder t waits for a coder that is itself waiting. */
  ghost predicate WaitsWithin(
      waiting: set<nat>, t: nat, pairs: seq<(u64, u64)>, owners: StreamOwners)
    requires InRange(pairs, owners)
  {
    exists k :: 0 <= k < |pairs| && Target(pairs, owners, k) == t && Source(pairs, owners, k) in waiting
  }

  /** Pair used[i] leads from coder visited[i + 1] to coder visited[i]. */
  ghost predicate BackStep(
      visited: seq<nat>, used: seq<nat>, i: nat, pairs: seq<(u64, u64)>, owners: StreamOwners)
    requires InRange(pairs, owners) && i < |used| && |visited| == |used| + 1
  {
    && used[i] < |pairs|
    && Target(pairs, owners, used[i]) == visited[i]
    && Source(pairs, owners, used[i]) == visited[i + 1]
  }

  ghost predicate WalksBack(
      visited: seq<nat>, used: seq<nat>, pairs: seq<(u64, u64)>, owners: StreamOwners)
    requires InRange(pairs, owners)
  {
    && |visited| == |used| + 1
    && (forall i :: 0 <= i < |used| ==> BackStep(visited, used, i, pairs, owners))
  }

  lemma {:induction false} WaitingWalk(
      pairs: seq<(u64, u64)>, owners: StreamOwners, waiting: set<nat>, start: nat, steps: nat)
    returns (visited: seq<nat>, used: seq<nat>)
    requires InRange(pairs, owners) && start in waiting
    requires forall t {:trigger WaitsWithin(waiting, t, pairs, owners)} :: t in waiting ==>
      WaitsWithin(waiting, t, pairs, owners)
    ensures WalksBack(visited, used, pairs, owners) && |used| == steps
    ensures forall i :: 0 <= i < |visited| ==> visited[i] in waiting
  {
    if steps == 0 {
      visited, used := [start], [];
    } else {
      var v, u := WaitingWalk(pairs, owners, waiting, start, steps - 1);
      assert WaitsWithin(waiting, v[|u|], pairs, owners);
      var k: nat :| k < |pairs| && Target(pairs, owners, k) == v[|u|]
                    && Source(pairs, owners, k) in waiting;
      visited, used := v + [Source(pairs, owners, k)], u + [k];
      forall i | 0 <= i < |used|
        ensures BackStep(visited, used, i, pairs, owners)
      {
        if i < |u| {
          assert BackStep(v, u, i, pairs, owners);
          assert used[i] == u[i] && visited[i] == v[i] && visited[i + 1] == v[i + 1];
        }
      }
    }
  }

  lemma RepeatedVisitIsCycle(
      visited: seq<nat>, used: seq<nat>, pairs: seq<(u64, u64)>, owners: StreamOwners, a: nat, b: nat)
    requires InRange(pairs, owners) && WalksBack(visited, used, pairs, owners)
    requires a < b < |visited| && visited[a] == visited[b]
    ensures HasCycle(pairs, owners)
  {
    var c: seq<nat> := seq(b - a, i requires 0 <= i < b - a => used[b - 1 - i]);
    forall i | 0 <= i < |c| ensures c[i] < |pairs| {
      assert BackStep(visited, used, b - 1 - i, pairs, owners);
    }
    forall i | 0 <= i < |c| - 1 ensures Joined(c, i, pairs, owners) {
      assert BackStep(visited, used, b - 1 - i, pairs, owners);
      assert BackStep(visited, used, b - 2 - i, pairs, owners);
    }
    assert BackStep(visited, used, a, pairs, owners) && BackStep(visited, used, b - 1, pairs, owners);
    assert IsCycle(c, pairs, owners);
  }

  /** A coder set in which everyone waits for a member contains a closed walk. */
  lemma WaitingSetHasCycle(
      pairs: seq<(u64, u64)>, owners: StreamOwners, n: nat, waiting: set<nat>, start: nat)
    requires InRange(pairs, owners) && start in waiting
    requires forall t :: t in waiting ==> t < n
    requires forall t {:trigger WaitsWithin(waiting, t, pairs, owners)} :: t in waiting ==>
      WaitsWithin(waiting, t, pairs, owners)
    ensures HasCycle(pairs, owners)
  {
    var visited, used := WaitingWalk(pairs, owners, waiting, start, n);
    var a, b := Pigeonhole(visited, n);
    RepeatedVisitIsCycle(visited, used, pairs, owners, a, b);
  }

  lemma SourceEarlier(
      order: seq<nat>, pairs: seq<(u64, u64)>, owners: StreamOwners, k: nat, q: nat) returns (p: nat)
    requires InRange(pairs, owners) && SourcesFirst(order, pairs, owners)
    requires k < |pairs| && q < |order| && order[q] == Target(pairs, owners, k)
    ensures p < q && order[p] == Source(pairs, owners, k)
  {
    assert Source(pairs, owners, k) in order[..q];
    p :| 0 <= p < q && order[p] == Source(pairs, owners, k);
  }

  /** Along a walk, the first source stands before the i-th target. */
  lemma {:induction false} CycleAdvances(
      c: seq<nat>, i: nat, order: seq<nat>, pairs: seq<(u64, u64)>, owners: StreamOwners, q: nat)
    returns (p: nat)
    requires InRange(pairs, owners) && SourcesFirst(order, pairs, owners)
    requires IsCycle(c, pairs, owners) && i < |c|
    requires q < |order| && order[q] == Target(pairs, owners, c[i])
    ensures p < q && order[p] == Source(pairs, owners, c[0])
  {
    p := SourceEarlier(order, pairs, owners, c[i], q);
    if i > 0 {
      assert Joined(c, i - 1, pairs, owners);
      p := CycleAdvances(c, i - 1, order, pairs, owners, p);
    }
  }

  /** An execution order rules out every cycle. */
  lemma OrderedImpliesAcyclic(order: seq<nat>, pairs: seq<(u64, u64)>, owners: StreamOwners, n: nat)
    requires InRange(pairs, owners) && WellOwned(owners, n) && IsExecutionOrder(order, pairs, owners, n)
    ensures !HasCycle(pairs, owners)
  {
    if HasCycle(pairs, owners) {
      var c: seq<nat> :| IsCycle(c, pairs, owners);
      DistinctBelow(order, n);
      assert Target(pairs, owners, c[|c| - 1]) in order;
      var q :| 0 <= q < n && order[q] == Target(pairs, owners, c[|c| - 1]);
      var p := CycleAdvances(c, |c| - 1, order, pairs, owners, q);
    }
  }

  /** Indices of the streams that no pair uses, ascending. */
  function Unbound(bound: seq<bool>): (r: seq<nat>)
    ensures Distinct(r) && Below(r, |bound|)
    ensures forall i: nat :: i in r <==> i < |bound| && !bound[i]
  {
    if bound == [] then [] else
      var last := |bound| - 1;
      var init := Unbound(bound[..last]);
      DistinctAppend(init, last);
      if bound[last] then init else init + [last]
  }

  // ---------------------------------------------------------------- binding tables

  ghost predicate InputUsed(pairs: seq<(u64, u64)>, i: nat) {
    exists k :: 0 <= k < |pairs| && pairs[k].0 == i
  }

  ghost predicate OutputUsed(pairs: seq<(u64, u64)>, o: nat) {
    exists k :: 0 <= k < |pairs| && pairs[k].1 == o
  }

  /** The bound flags are exactly the used streams. */
  ghost predicate FlagsMatch(boundInputs: seq<bool>, boundOutputs: seq<bool>, pairs: seq<(u64, u64)>) {
    && (forall i :: 0 <= i < |boundInputs| ==> (boundInputs[i] <==> InputUsed(pairs, i)))
    && (forall o :: 0 <= o < |boundOutputs| ==> (boundOutputs[o] <==> OutputUsed(pairs, o)))
  }

  /** The source column holds exactly the pairs. */
  ghost predicate SourcesMatch(sources: seq<Option<nat>>, pairs: seq<(u64, u64)>) {
    && (forall k :: 0 <= k < |pairs| ==>
          pairs[k].0 < |sources| && sources[pairs[k].0] == Some(pairs[k].1 as nat))
    && (forall i :: 0 <= i < |sources| && sources[i].Some? ==> InputUsed(pairs, i))
  }

  ghost predicate EdgesMatch(edges: seq<seq<nat>>, pairs: seq<(u64, u64)>, owners: StreamOwners)
    requires InRange(pairs, owners)
  {
    forall s :: 0 <= s < |edges| ==> edges[s] == Targets(pairs, owners, s)
  }

  ghost predicate DegreesMatch(
      indegree: seq<nat>, pairs: seq<(u64, u64)>, owners: StreamOwners, done: set<nat>)
    requires InRange(pairs, owners)
  {
    forall t :: 0 <= t < |indegree| ==> indegree[t] == Pending(pairs, owners, done, t)
  }

  lemma UsedExtends(pairs: seq<(u64, u64)>, pair: (u64, u64), x: nat)
    ensures InputUsed(pairs + [pair], x) <==> InputUsed(pairs, x) || pair.0 == x
    ensures OutputUsed(pairs + [pair], x) <==> OutputUsed(pairs, x) || pair.1 == x
  {
    var extended := pairs + [pair];
    assert forall k :: 0 <= k < |pairs| ==> extended[k] == pairs[k];
    assert extended[|pairs|] == pair;
  }

  lemma InRangeExtends(pairs: seq<(u64, u64)>, pair: (u64, u64), owners: StreamOwners)
    requires InRange(pairs, owners)
    ensures InRange(pairs + [pair], owners) <==>
            pair.0 < |owners.inputs| && pair.1 < |owners.outputs|
  {
    var extended := pairs + [pair];
    assert forall k :: 0 <= k < |pairs| ==> extended[k] == pairs[k];
    assert extended[|pairs|] == pair;
  }

  /** What one more pair needs for the whole list to stay well linked. */
  lemma LinkedExtends(pairs: seq<(u64, u64)>, pair: (u64, u64), owners: StreamOwners)
    requires Linked(pairs, owners)
    ensures Linked(pairs + [pair], owners) <==>
            && pair.0 < |owners.inputs| && pair.1 < |owners.outputs|
            && !InputUsed(pairs, pair.0) && !OutputUsed(pairs, pair.1)
            && owners.outputs[pair.1] != owners.inputs[pair.0]
  {
    var extended := pairs + [pair];
    assert forall k :: 0 <= k < |pairs| ==> extended[k] == pairs[k];
    assert extended[|pairs|] == pair;
    InRangeExtends(pairs, pair, owners);
    if InRange(extended, owners) {
      assert Source(extended, owners, |pairs|) == owners.outputs[pair.1];
      assert Target(extended, owners, |pairs|) == owners.inputs[pair.0];
      assert forall k :: 0 <= k < |pairs| ==>
        Source(extended, owners, k) == Source(pairs, owners, k) &&
        Target(extended, owners, k) == Target(pairs, owners, k);
    }
  }

  lemma GraphColumnsExtend(
      pairs: seq<(u64, u64)>, pair: (u64, u64), owners: StreamOwners, done: set<nat>, c: nat)
    requires InRange(pairs, owners) && InRange(pairs + [pair], owners)
    ensures pair.0 < |owners.inputs| && pair.1 < |owners.outputs|
    ensures Targets(pairs + [pair], owners, c)
         == Targets(pairs, owners, c)
            + if owners.outputs[pair.1] == c then [owners.inputs[pair.0]] else []
    ensures Pending(pairs + [pair], owners, done, c)
         == Pending(pairs, owners, done, c)
            + if owners.inputs[pair.0] == c && owners.outputs[pair.1] !in done then 1 else 0
  {
    var extended := pairs + [pair];
    assert extended[..|pairs|] == pairs && extended[|pairs|] == pair;
  }

  lemma FlagsExtend(
      boundInputs: seq<bool>, boundOutputs: seq<bool>, pairs: seq<(u64, u64)>, pair: (u64, u64))
    requires FlagsMatch(boundInputs, boundOutputs, pairs)
    requires pair.0 < |boundInputs| && pair.1 < |boundOutputs|
    ensures FlagsMatch(boundInputs[pair.0 := true], boundOutputs[pair.1 := true], pairs + [pair])
  {
    hide InputUsed, OutputUsed;
    forall x: nat
      ensures InputUsed(pairs + [pair], x) <==> InputUsed(pairs, x) || pair.0 == x
      ensures OutputUsed(pairs + [pair], x) <==> OutputUsed(pairs, x) || pair.1 == x
    {
      UsedExtends(pairs, pair, x);
    }
  }

  lemma ColumnsExtend(
      edges: seq<seq<nat>>, indegree: seq<nat>, pairs: seq<(u64, u64)>, pair: (u64, u64), owners: StreamOwners)
    requires InRange(pairs, owners) && InRange(pairs + [pair], owners)
    requires EdgesMatch(edges, pairs, owners) && DegreesMatch(indegree, pairs, owners, {})
    requires pair.0 < |owners.inputs| && pair.1 < |owners.outputs|
    requires owners.outputs[pair.1] < |edges| && owners.inputs[pair.0] < |indegree|
    ensures var source, target := owners.outputs[pair.1], owners.inputs[pair.0];
      && EdgesMatch(edges[source := edges[source] + [target]], pairs + [pair], owners)
      && DegreesMatch(indegree[target := indegree[target] + 1], pairs + [pair], owners, {})
  {
    hide Targets, Pending;
    forall c: nat
      ensures Targets(pairs + [pair], owners, c)
           == Targets(pairs, owners, c) + if owners.outputs[pair.1] == c then [owners.inputs[pair.0]] else []
      ensures Pending(pairs + [pair], owners, {}, c)
           == Pending(pairs, owners, {}, c) + if owners.inputs[pair.0] == c then 1 else 0
    {
      GraphColumnsExtend(pairs, pair, owners, {}, c);
    }
  }

  lemma SourcesExtend(sources: seq<Option<nat>>, pairs: seq<(u64, u64)>, pair: (u64, u64))
    requires SourcesMatch(sources, pairs) && pair.0 < |sources| && !InputUsed(pairs, pair.0)
    ensures SourcesMatch(sources[pair.0 := Some(pair.1 as nat)], pairs + [pair])
  {
    var extended, updated := pairs + [pair], sources[pair.0 := Some(pair.1 as nat)];
    forall k | 0 <= k < |extended|
      ensures extended[k].0 < |updated| && updated[extended[k].0] == Some(extended[k].1 as nat)
    {
      if k < |pairs| {
        assert extended[k] == pairs[k] && pairs[k].0 != pair.0;
      }
    }
    forall i | 0 <= i < |updated| && updated[i].Some? ensures InputUsed(extended, i) {
      UsedExtends(pairs, pair, i);
    }
  }

  // ---------------------------------------------------------------- bindings

  class Bindings {
    var boundInputs: seq<bool>
    var boundOutputs: seq<bool>
    var inputSources: seq<Option<nat>>
    var edges: seq<seq<nat>>
    var indegree: seq<nat>
    ghost var pairs: seq<(u64, u64)>
    ghost const owners: StreamOwners
    ghost const coderCount: nat

    ghost predicate Valid()
      reads this
    {
      && WellOwned(owners, coderCount)
      && Linked(pairs, owners)
      && |boundInputs| == |inputSources| == |owners.inputs|
      && |boundOutputs| == |owners.outputs|
      && |edges| == |indegree| == coderCount
      && FlagsMatch(boundInputs, boundOutputs, pairs)
      && SourcesMatch(inputSources, pairs)
      && EdgesMatch(edges, pairs, owners)
      && DegreesMatch(indegree, pairs, owners, {})
    }

    constructor (owners: StreamOwners, coderCount: nat)
      requires WellOwned(owners, coderCount)
      ensures Valid() && pairs == [] && this.owners == owners && this.coderCount == coderCount
    {
      this.owners, this.coderCount, pairs := owners, coderCount, [];
      boundInputs := seq(|owners.inputs|, _ => false);
      boundOutputs := seq(|owners.outputs|, _ => false);
      inputSources := seq(|owners.inputs|, _ => None);
      edges := seq(coderCount, _ => []);
      indegree := seq(coderCount, _ => 0);
    }

    method Bind(input: u64, output: u64, owners: StreamOwners) returns (r: Result<(), R7zError>)
      requires Valid() && owners == this.owners
      modifies this
      ensures Valid()
      ensures r.Success? <==> Linked(old(pairs) + [(input, output)], owners)
      ensures pairs == if r.Success? then old(pairs) + [(input, output)] else old(pairs)
      ensures r.Failure? ==> r.error == InvalidFolderGraph
    {
      LinkedExtends(pairs, (input, output), owners);
      hide Linked;
      if input >= |owners.inputs| || output >= |owners.outputs| {
        return Failure(InvalidFolderGraph);
      }
      if boundInputs[input] || boundOutputs[output] {
        return Failure(InvalidFolderGraph);
      }
      var source, target := owners.outputs[output], owners.inputs[input];
      if source == target {
        return Failure(InvalidFolderGraph);
      }
      hide FlagsMatch, SourcesMatch, EdgesMatch, DegreesMatch, InputUsed, OutputUsed;
      SourcesExtend(inputSources, pairs, (input, output));
      FlagsExtend(boundInputs, boundOutputs, pairs, (input, output));
      ColumnsExtend(edges, indegree, pairs, (input, output), owners);
      boundInputs := boundInputs[input := true];
      boundOutputs := boundOutputs[output := true];
      inputSources := inputSources[input := Some(output)];
      edges := edges[source := edges[source] + [target]];
      indegree := indegree[target := indegree[target] + 1];
      pairs := pairs + [(input, output)];
      r := Success(());
    }

    /** The only output that no pair consumes. */
    function FinalOutput(): Result<nat, R7zError>
      reads this
    {
      var outputs := Unbound(boundOutputs);
      if |outputs| == 1 then Success(outputs[0]) else Failure(InvalidFolderGraph)
    }

    /** Pairs each packed stream slot with the unbound input it feeds. */
    method PackedInputs(explicit: seq<u64>) returns (r: Result<seq<(nat, nat)>, R7zError>)
      ensures r.Success? <==> PackedOk(explicit, boundInputs)
      ensures r.Success? ==> r.value == PackedTable(explicit, boundInputs)
      ensures r.Failure? ==> r.error == InvalidFolderGraph
    {
      var unbound := Unbound(boundInputs);
      if explicit == [] {
        return if |unbound| == 1 then Success([(0, unbound[0])]) else Failure(InvalidFolderGraph);
      }
      if |explicit| != |unbound| {
        return Failure(InvalidFolderGraph);
      }
      var seen := seq(|boundInputs|, _ => false);
      var table: seq<(nat, nat)> := [];
      for packed := 0 to |explicit|
        invariant |seen| == |boundInputs| && |table| == packed
        invariant forall k :: 0 <= k < packed ==> explicit[k] in unbound
        invariant forall j, k :: 0 <= j < k < packed ==> explicit[j] != explicit[k]
        invariant forall i :: 0 <= i < |seen| ==> (seen[i] <==> i in explicit[..packed])
        invariant forall k :: 0 <= k < packed ==> table[k] == (k, explicit[k])
      {
        var raw := explicit[packed];
        assert explicit[..packed + 1] == explicit[..packed] + [raw];
        if raw >= |boundInputs| || boundInputs[raw] || seen[raw] {
          return Failure(InvalidFolderGraph);
        }
        seen := seen[raw := true];
        table := table + [(packed, raw as nat)];
      }
      r := Success(table);
    }

    method InitiallyReady() returns (ready: seq<nat>)
      ensures Distinct(ready) && Below(ready, |indegree|)
      ensures forall i :: 0 <= i < |indegree| ==> (i in ready <==> indegree[i] == 0)
    {
      ready := [];
      for index := 0 to |indegree|
        invariant Distinct(ready) && Below(ready, index)
        invariant forall i :: 0 <= i < index ==> (i in ready <==> indegree[i] == 0)
      {
        if indegree[index] == 0 {
          ready := ready + [index];
        }
      }
    }

    /** Drops one indegree per edge of the coder just ordered; coders that reach zero become ready. */
    method Release(next: seq<nat>, ghost order: seq<nat>, stack: seq<nat>) returns (ready: seq<nat>)
      requires InRange(pairs, owners) && Below(next, |indegree|)
      requires Sorting(indegree, order + stack)
      requires DegreesOwed(indegree, pairs, owners, Elements(order), next[0..])
      modifies this`indegree
      ensures |indegree| == |old(indegree)| && Sorting(indegree, order + ready)
      ensures DegreesMatch(indegree, pairs, owners, Elements(order))
    {
      hide Sorting, DegreesOwed, DegreesMatch, Elements, InRange;
      ready := stack;
      for j := 0 to |next|
        invariant |indegree| == |old(indegree)| && Sorting(indegree, order + ready)
        invariant DegreesOwed(indegree, pairs, owners, Elements(order), next[j..])
      {
        var t := next[j];
        assert next[j..] == [t] + next[j + 1..];
        // The checked subtraction cannot fail: this edge is still owed.
        EdgePaid(indegree, pairs, owners, Elements(order), t, next[j + 1..]);
        OneLess(indegree, order + ready, t);
        Grouped(order, ready, [t]);
        indegree := indegree[t := indegree[t] - 1];
        if indegree[t] == 0 {
          ready := ready + [t];
        }
      }
      assert next[|next|..] == [];
      NothingOwed(indegree, pairs, owners, Elements(order));
    }

    /** Kahn's algorithm with a stack; it consumes the indegree column. */
    method ExecutionOrder() returns (r: Result<seq<nat>, R7zError>)
      requires Valid()
      modifies this`indegree
      ensures r.Success? ==> IsExecutionOrder(r.value, pairs, owners, coderCount)
      ensures r.Success? <==> !HasCycle(pairs, owners)
      ensures r.Failure? ==> r.error == InvalidFolderGraph
    {
      var ready := InitiallyReady();
      var order: seq<nat> := [];
      assert order + ready == ready && Elements(order) == {};
      while ready != []
        invariant |indegree| == coderCount && Sorting(indegree, order + ready)
        invariant DegreesMatch(indegree, pairs, owners, Elements(order))
        invariant SourcesFirst(order, pairs, owners)
        decreases coderCount - |order|
      {
        var node := ready[|ready| - 1];
        DistinctBelow(order + ready, coderCount);
        PopReady(indegree, order, ready, pairs, owners);
        order, ready := order + [node], ready[..|ready| - 1];
        TargetsBelow(pairs, owners, coderCount, node);
        ready := Release(edges[node], order, ready);
      }
      if |order| == |indegree| {
        assert order + ready == order;
        OrderedImpliesAcyclic(order, pairs, owners, coderCount);
        return Success(order);
      }
      StuckSortHasCycle(indegree, order, pairs, owners);
      r := Failure(InvalidFolderGraph);
    }
  }

  // ---------------------------------------------------------------- sorting

  /** Listed coders are distinct, and are exactly those of indegree zero. */
  ghost predicate Sorting(indegree: seq<nat>, listed: seq<nat>) {
    && Distinct(listed) && Below(listed, |indegree|)
    && forall t :: 0 <= t < |indegree| ==> (t in listed <==> indegree[t] == 0)
  }

  /** The indegree column still counts the owed edges of the coder being released. */
  ghost predicate DegreesOwed(
      indegree: seq<nat>, pairs: seq<(u64, u64)>, owners: StreamOwners, done: set<nat>, owed: seq<nat>)
    requires InRange(pairs, owners)
  {
    forall t :: 0 <= t < |indegree| ==>
      indegree[t] == Pending(pairs, owners, done, t) + multiset(owed)[t]
  }

  lemma EdgePaid(
      indegree: seq<nat>, pairs: seq<(u64, u64)>, owners: StreamOwners, done: set<nat>, t: nat, owed: seq<nat>)
    requires InRange(pairs, owners) && t < |indegree|
    requires DegreesOwed(indegree, pairs, owners, done, [t] + owed)
    ensures indegree[t] > 0
    ensures DegreesOwed(indegree[t := indegree[t] - 1], pairs, owners, done, owed)
  {
    hide Pending;
    assert multiset([t] + owed) == multiset([t]) + multiset(owed);
  }

  lemma NothingOwed(indegree: seq<nat>, pairs: seq<(u64, u64)>, owners: StreamOwners, done: set<nat>)
    requires InRange(pairs, owners) && DegreesOwed(indegree, pairs, owners, done, [])
    ensures DegreesMatch(indegree, pairs, owners, done)
  {
    hide Pending;
  }

  /** A coder whose last edge is paid is listed behind the others. */
  lemma OneLess(indegree: seq<nat>, listed: seq<nat>, t: nat)
    requires Sorting(indegree, listed) && t < |indegree| && indegree[t] > 0
    ensures var less := indegree[t := indegree[t] - 1];
      Sorting(less, if less[t] == 0 then listed + [t] else listed)
  {
    DistinctAppend(listed, t);
  }

  /** Moving the top of the ready stack to the order keeps every sorting fact. */
  lemma PopReady(
      indegree: seq<nat>, order: seq<nat>, ready: seq<nat>,
      pairs: seq<(u64, u64)>, owners: StreamOwners)
    requires InRange(pairs, owners) && ready != []
    requires Sorting(indegree, order + ready) && DegreesMatch(indegree, pairs, owners, Elements(order))
    requires SourcesFirst(order, pairs, owners)
    ensures var node, order' := ready[|ready| - 1], order + [ready[|ready| - 1]];
      && node < |indegree|
      && Sorting(indegree, order' + ready[..|ready| - 1])
      && SourcesFirst(order', pairs, owners)
      && DegreesOwed(indegree, pairs, owners, Elements(order'), Targets(pairs, owners, node)[0..])
  {
    var top := |ready| - 1;
    var node, order' := ready[top], order + [ready[top]];
    var listed, listed' := order + ready, order' + ready[..top];
    assert listed[|order| + top] == node;
    assert forall p :: 0 <= p < |order| ==> listed[p] == order[p];
    PopKeepsListed(order, ready);
    forall i | 0 <= i < |listed'| ensures listed'[i] < |indegree| {
      assert listed'[i] in listed';
    }
    assert Elements(order') == Elements(order) + {node};
    forall t | 0 <= t < |indegree|
      ensures indegree[t] == Pending(pairs, owners, Elements(order'), t)
                             + multiset(Targets(pairs, owners, node)[0..])[t]
    {
      PendingStep(pairs, owners, Elements(order), node, t);
      assert Targets(pairs, owners, node)[0..] == Targets(pairs, owners, node);
    }
    PendingWitness(pairs, owners, Elements(order), node);
    forall p, k | 0 <= p < |order'| && 0 <= k < |pairs| && Target(pairs, owners, k) == order'[p]
      ensures Source(pairs, owners, k) in order'[..p]
    {
      if p < |order| {
        assert order'[p] == order[p] && order'[..p] == order[..p];
      } else {
        assert order'[..p] == order;
      }
    }
  }

  lemma PopKeepsListed(order: seq<nat>, ready: seq<nat>)
    requires ready != [] && Distinct(order + ready)
    ensures var listed' := order + [ready[|ready| - 1]] + ready[..|ready| - 1];
      && Distinct(listed')
      && forall x :: x in listed' <==> x in order + ready
  {
    var top := |ready| - 1;
    var listed, listed' := order + ready, order + [ready[top]] + ready[..top];
    // listed' is listed with its last element moved to position |order|.
    forall i | 0 <= i < |listed'|
      ensures listed'[i] == listed[Moved(i, |order|, |listed|)]
    {}
    forall x | x in listed ensures x in listed' {
      var i :| 0 <= i < |listed| && listed[i] == x;
      var j := if i < |order| then i else if i == |listed| - 1 then |order| else i + 1;
      assert listed'[j] == x;
    }
    forall x | x in listed' ensures x in listed {
      var i :| 0 <= i < |listed'| && listed'[i] == x;
      assert listed[Moved(i, |order|, |listed|)] == x;
    }
  }

  ghost function Moved(i: nat, from: nat, length: nat): nat
    requires from < length && i < length
  {
    if i < from then i else if i == from then length - 1 else i - 1
  }

  /** When the stack runs dry early, the coders left over wait for each other. */
  lemma StuckSortHasCycle(
      indegree: seq<nat>, order: seq<nat>, pairs: seq<(u64, u64)>, owners: StreamOwners)
    requires InRange(pairs, owners) && WellOwned(owners, |indegree|)
    requires Sorting(indegree, order + []) && DegreesMatch(indegree, pairs, owners, Elements(order))
    requires |order| != |indegree|
    ensures HasCycle(pairs, owners)
  {
    var n := |indegree|;
    assert order + [] == order;
    var waiting := UpTo(n) - Elements(order);
    forall t | t in waiting ensures WaitsWithin(waiting, t, pairs, owners) {
      PendingWitness(pairs, owners, Elements(order), t);
    }
    var start := MissingElement(order, n);
    WaitingSetHasCycle(pairs, owners, n, waiting, start);
  }

  lemma MissingElement(s: seq<nat>, n: nat) returns (x: nat)
    requires Distinct(s) && Below(s, n) && |s| != n
    ensures x < n && x !in s
  {
    if forall x: nat :: x < n ==> x in s {
      DistinctSize(s);
      SubsetSize(UpTo(n), Elements(s));
      DistinctBelow(s, n);
    }
    x :| x < n && x !in s;
  }

  ghost predicate PackedOk(explicit: seq<u64>, boundInputs: seq<bool>) {
    var unbound := Unbound(boundInputs);
    if explicit == [] then |unbound| == 1
    else |explicit| == |unbound| && Distinct(explicit)
         && forall k :: 0 <= k < |explicit| ==> explicit[k] in unbound
  }

  ghost function PackedTable(explicit: seq<u64>, boundInputs: seq<bool>): seq<(nat, nat)>
    requires PackedOk(explicit, boundInputs)
  {
    if explicit == [] then [(0, Unbound(boundInputs)[0])]
    else seq(|explicit|, k requires 0 <= k < |explicit| => (k, explicit[k] as nat))
  }
}
