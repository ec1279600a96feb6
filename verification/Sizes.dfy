/** Inferring coder output sizes of a linear plan in two passes. */
module OutputSizes {
  import opened Wrappers
  import opened Words
  import opened Counting

  /** What is known of one size; an output that is empty has the known size zero. */
  datatype OutputSize = Known(size: u64) | Unknown {
    function Reconcile(other: OutputSize): Result<OutputSize, R7zError> {
      match (this, other)
      case (Known(a), Known(b)) => if a != b then Failure(Parse) else Success(this)
      case (Unknown, _) => Success(other)
      case (Known(_), Unknown) => Success(this)
    }

    predicate Allows(size: u64) {
      Known? ==> this.size == size
    }
  }

  /** The sizes given for the first outputs, and the folder size, which is that of the final output. */
  datatype CoderOutputSizes = CoderOutputSizes(declared: seq<u64>, finalIndex: nat, finalSize: u64) {
    static function Complete(outputs: nat, finalIndex: nat, finalSize: u64, declared: seq<u64>)
      : Result<CoderOutputSizes, R7zError>
    {
      if |declared| != outputs then Failure(InvalidFolderGraph)
      else Partial(outputs, finalIndex, finalSize, declared)
    }

    static function Partial(outputs: nat, finalIndex: nat, finalSize: u64, declared: seq<u64>)
      : Result<CoderOutputSizes, R7zError>
    {
      if |declared| > outputs then Failure(InvalidFolderGraph)
      else if finalIndex < |declared| && declared[finalIndex] != finalSize then Failure(Parse)
      else Success(CoderOutputSizes(declared, finalIndex, finalSize))
    }

    function Get(index: nat): OutputSize {
      if index == finalIndex then Known(finalSize)
      else if index < |declared| then Known(declared[index])
      else Unknown
    }
  }

  /** How a compiled coder constrains its sizes. */
  datatype SizeRule = Preserves | Independent | RequiresSize | Aes

  datatype DecodeStep = DecodeStep(rule: SizeRule, input: OutputSize, output: OutputSize)

  // ---------------------------------------------------------------- the equations

  /**
   * Sizes along the chain: z[0] is the packed size and z[p + 1] the output size of step p.
   * Declared sizes hold, and length-preserving steps keep the size.
   */
  ghost predicate Consistent(z: seq<u64>, rules: seq<SizeRule>, declared: seq<OutputSize>, packed: u64)
    requires |declared| == |rules|
  {
    && |z| == |rules| + 1
    && z[0] == packed
    && (forall p :: 0 <= p < |rules| ==> declared[p].Allows(z[p + 1]))
    && (forall p :: 0 <= p < |rules| && rules[p].Preserves? ==> z[p + 1] == z[p])
  }

  ghost predicate Solvable(rules: seq<SizeRule>, declared: seq<OutputSize>, packed: u64)
    requires |declared| == |rules|
  {
    exists z :: Consistent(z, rules, declared, packed)
  }

  /** Every solution gives position q the size v. */
  ghost predicate Forced(rules: seq<SizeRule>, declared: seq<OutputSize>, packed: u64, q: nat, v: u64)
    requires |declared| == |rules| && q <= |rules|
  {
    forall z :: Consistent(z, rules, declared, packed) ==> z[q] == v
  }

  ghost predicate SizeForced(rules: seq<SizeRule>, declared: seq<OutputSize>, packed: u64, q: nat)
    requires |declared| == |rules| && q <= |rules|
  {
    exists v: u64 :: Forced(rules, declared, packed, q, v)
  }

  /** Every coder that must know its output size has a forced one. */
  ghost predicate NeedsMet(rules: seq<SizeRule>, declared: seq<OutputSize>, packed: u64)
    requires |declared| == |rules|
  {
    forall p: nat :: p < |rules| && rules[p].RequiresSize? ==> SizeForced(rules, declared, packed, p + 1)
  }

  // ---------------------------------------------------------------- backward pass

  /** What the later steps know about the output of step p. */
  ghost predicate Backed(back: seq<OutputSize>, rules: seq<SizeRule>, declared: seq<OutputSize>, p: nat)
    requires |back| == |declared| == |rules| && p < |rules|
  {
    declared[p].Reconcile(FromAfter(back, rules, p)) == Success(back[p])
  }

  ghost function FromAfter(back: seq<OutputSize>, rules: seq<SizeRule>, p: nat): OutputSize
    requires |back| == |rules| && p < |rules|
  {
    if p + 1 < |rules| && rules[p + 1].Preserves? then back[p + 1] else Unknown
  }

  /** Backward values hold in every solution. */
  lemma {:induction false} BackwardSound(
      z: seq<u64>, back: seq<OutputSize>, rules: seq<SizeRule>, declared: seq<OutputSize>, packed: u64,
      from: nat, p: nat)
    requires |back| == |declared| == |rules| && from <= p < |rules|
    requires forall q: nat :: from <= q < |rules| ==> Backed(back, rules, declared, q)
    requires Consistent(z, rules, declared, packed)
    ensures back[p].Allows(z[p + 1])
    decreases |rules| - p
  {
    assert Backed(back, rules, declared, p);
    if p + 1 < |rules| && rules[p + 1].Preserves? {
      BackwardSound(z, back, rules, declared, packed, from, p + 1);
    }
  }

  /**
   * The backward loop of the source, last step first. It stops at a contradiction, or at a coder
   * that needs a size no later step supplies.
   */
  method BackwardPass(rules: seq<SizeRule>, declared: seq<OutputSize>, ghost packed: u64)
    returns (r: Result<seq<OutputSize>, R7zError>)
    requires |declared| == |rules|
    ensures r.Success? ==> |r.value| == |rules|
    ensures r.Success? ==> forall p: nat :: p < |rules| ==>
      Backed(r.value, rules, declared, p) && (rules[p].RequiresSize? ==> r.value[p].Known?)
    ensures r.Failure? ==>
      !Solvable(rules, declared, packed) || !NeedsMet(rules, declared, packed)
  {
    var n := |rules|;
    var back: seq<OutputSize> := seq(n, _ => Unknown);
    var nextInput := Unknown;
    var p := n;
    while p > 0
      invariant p <= n && |back| == n
      invariant forall q: nat :: p <= q < n ==>
        Backed(back, rules, declared, q) && (rules[q].RequiresSize? ==> back[q].Known?)
      invariant p > 0 ==> nextInput == if p < n && rules[p].Preserves? then back[p] else Unknown
    {
      p := p - 1;
      var output := declared[p].Reconcile(nextInput);
      if output.Failure? {
        BackwardClash(back, rules, declared, packed, p);
        return Failure(output.error);
      }
      ghost var before := back;
      back := back[p := output.value];
      assert forall q: nat :: p < q < n ==> Backed(before, rules, declared, q);
      forall q: nat | p <= q < n ensures Backed(back, rules, declared, q) {
        if q > p {
          assert FromAfter(back, rules, q) == FromAfter(before, rules, q);
        }
      }
      if rules[p].RequiresSize? && output.value.Unknown? {
        UnknownNotForced(back, rules, declared, packed, p, p + 1);
        return Failure(InvalidOptions);
      }
      nextInput := if rules[p].Preserves? then output.value else Unknown;
    }
    r := Success(back);
  }

  lemma BackwardClash(
      back: seq<OutputSize>, rules: seq<SizeRule>, declared: seq<OutputSize>, packed: u64, p: nat)
    requires |back| == |declared| == |rules| && p < |rules|
    requires forall q: nat :: p < q < |rules| ==> Backed(back, rules, declared, q)
    requires declared[p].Reconcile(FromAfter(back, rules, p)).Failure?
    ensures !Solvable(rules, declared, packed)
  {
    forall z | Consistent(z, rules, declared, packed) ensures false {
      BackwardSound(z, back, rules, declared, packed, p + 1, p + 1);
    }
  }

  /** The run of length-preserving steps that follows the output of step p keeps its size. */
  ghost predicate InRun(rules: seq<SizeRule>, p: nat, q: nat)
    requires p < |rules| && q <= |rules|
  {
    p + 1 <= q && forall s :: p + 1 <= s < q ==> rules[s].Preserves?
  }

  /** An unknown backward value leaves the whole run undeclared. */
  lemma {:induction false} UnknownRun(
      back: seq<OutputSize>, rules: seq<SizeRule>, declared: seq<OutputSize>, p: nat, q: nat)
    requires |back| == |declared| == |rules| && p < |rules| && q <= |rules| && InRun(rules, p, q)
    requires forall s: nat :: p <= s < |rules| ==> Backed(back, rules, declared, s)
    requires back[p].Unknown?
    ensures back[q - 1].Unknown? && declared[q - 1].Unknown?
    decreases q
  {
    assert Backed(back, rules, declared, p);
    if q > p + 1 {
      UnknownRun(back, rules, declared, p, q - 1);
      assert Backed(back, rules, declared, q - 2);
      assert Backed(back, rules, declared, q - 1);
    }
  }

  /** A run that starts at a coder which does not preserve size can take any common size. */
  ghost function Retuned(z: seq<u64>, rules: seq<SizeRule>, p: nat, w: u64): seq<u64>
    requires |z| == |rules| + 1 && p < |rules|
  {
    seq(|z|, q requires 0 <= q < |z| => if InRun(rules, p, q) then w else z[q])
  }

  lemma RetunedConsistent(
      z: seq<u64>, rules: seq<SizeRule>, declared: seq<OutputSize>, packed: u64, p: nat, w: u64)
    requires |declared| == |rules| && p < |rules| && !rules[p].Preserves?
    requires forall q: nat :: q < |rules| && InRun(rules, p, q + 1) ==> declared[q].Unknown?
    requires Consistent(z, rules, declared, packed)
    ensures Consistent(Retuned(z, rules, p, w), rules, declared, packed)
  {
    var z' := Retuned(z, rules, p, w);
    forall q | 0 <= q < |rules| && rules[q].Preserves? ensures z'[q + 1] == z'[q] {
      assert InRun(rules, p, q + 1) <==> InRun(rules, p, q);
    }
  }

  /** An undeclared run leaves its sizes open. */
  lemma FreeRunNotForced(rules: seq<SizeRule>, declared: seq<OutputSize>, packed: u64, p: nat, q: nat)
    requires |declared| == |rules| && p < |rules| && !rules[p].Preserves?
    requires forall s: nat :: s < |rules| && InRun(rules, p, s + 1) ==> declared[s].Unknown?
    requires q <= |rules| && InRun(rules, p, q)
    ensures !Solvable(rules, declared, packed) || !SizeForced(rules, declared, packed, q)
  {
    if Solvable(rules, declared, packed) && SizeForced(rules, declared, packed, q) {
      var z :| Consistent(z, rules, declared, packed);
      var v: u64 :| Forced(rules, declared, packed, q, v);
      RetunedConsistent(z, rules, declared, packed, p, if v == 0 then 1 else 0);
    }
  }

  lemma UnknownNotForced(
      back: seq<OutputSize>, rules: seq<SizeRule>, declared: seq<OutputSize>, packed: u64, p: nat, q: nat)
    requires |back| == |declared| == |rules| && p < |rules| && !rules[p].Preserves?
    requires q <= |rules| && InRun(rules, p, q)
    requires forall s: nat :: p <= s < |rules| ==> Backed(back, rules, declared, s)
    requires back[p].Unknown?
    ensures !Solvable(rules, declared, packed) || !SizeForced(rules, declared, packed, q)
  {
    forall s: nat | s < |rules| && InRun(rules, p, s + 1) ensures declared[s].Unknown? {
      UnknownRun(back, rules, declared, p, s + 1);
    }
    FreeRunNotForced(rules, declared, packed, p, q);
  }

  // ---------------------------------------------------------------- forward pass

  ghost function StepInput(steps: seq<DecodeStep>, packed: u64, p: nat): OutputSize
    requires p <= |steps|
  {
    if p == 0 then Known(packed) else steps[p - 1].output
  }

  ghost predicate Forwarded(
      steps: seq<DecodeStep>, back: seq<OutputSize>, rules: seq<SizeRule>, packed: u64, p: nat)
    requires |back| == |rules| && p < |rules| && p < |steps|
  {
    && steps[p].rule == rules[p]
    && steps[p].input == StepInput(steps, packed, p)
    && if rules[p].Preserves? then back[p].Reconcile(steps[p].input) == Success(steps[p].output)
       else steps[p].output == back[p]
  }

  lemma {:induction false} ForwardSound(
      z: seq<u64>, steps: seq<DecodeStep>, back: seq<OutputSize>, rules: seq<SizeRule>,
      declared: seq<OutputSize>, packed: u64, p: nat)
    requires |back| == |declared| == |rules| && p < |steps| <= |rules|
    requires forall q: nat :: q < |rules| ==> Backed(back, rules, declared, q)
    requires forall q: nat :: q <= p ==> Forwarded(steps, back, rules, packed, q)
    requires Consistent(z, rules, declared, packed)
    ensures steps[p].output.Allows(z[p + 1]) && steps[p].input.Allows(z[p])
  {
    assert Forwarded(steps, back, rules, packed, p);
    BackwardSound(z, back, rules, declared, packed, 0, p);
    if p > 0 {
      ForwardSound(z, steps, back, rules, declared, packed, p - 1);
    }
  }

  /** The forward loop of the source: length-preserving steps reconcile with their input. */
  method ForwardPass(
      rules: seq<SizeRule>, ghost declared: seq<OutputSize>, back: seq<OutputSize>, packed: u64)
    returns (r: Result<seq<DecodeStep>, R7zError>)
    requires |back| == |declared| == |rules|
    requires forall q: nat :: q < |rules| ==> Backed(back, rules, declared, q)
    ensures r.Success? ==> |r.value| == |rules|
    ensures r.Success? ==> forall p: nat :: p < |rules| ==> Forwarded(r.value, back, rules, packed, p)
    ensures r.Failure? ==> !Solvable(rules, declared, packed)
  {
    var steps: seq<DecodeStep> := [];
    var inputSize := Known(packed);
    for p := 0 to |rules|
      invariant |steps| == p && inputSize == StepInput(steps, packed, p)
      invariant forall q: nat :: q < p ==> Forwarded(steps, back, rules, packed, q)
    {
      var output := back[p];
      if rules[p].Preserves? {
        var merged := back[p].Reconcile(inputSize);
        if merged.Failure? {
          forall z | Consistent(z, rules, declared, packed) ensures false {
            BackwardSound(z, back, rules, declared, packed, 0, p);
            if p > 0 {
              ForwardSound(z, steps, back, rules, declared, packed, p - 1);
            }
          }
          return Failure(merged.error);
        }
        output := merged.value;
      }
      ghost var before := steps;
      steps := steps + [DecodeStep(rules[p], inputSize, output)];
      inputSize := output;
      forall q: nat | q < p ensures Forwarded(steps, back, rules, packed, q) {
        assert Forwarded(before, back, rules, packed, q);
      }
    }
    r := Success(steps);
  }

  // ---------------------------------------------------------------- both passes

  ghost predicate Inferred(
      steps: seq<DecodeStep>, back: seq<OutputSize>, rules: seq<SizeRule>,
      declared: seq<OutputSize>, packed: u64)
  {
    && |back| == |declared| == |rules| == |steps|
    && (forall q: nat :: q < |rules| ==> Backed(back, rules, declared, q))
    && (forall q: nat :: q < |rules| ==> Forwarded(steps, back, rules, packed, q))
  }

  /** Known sizes, with zero for the rest. */
  ghost function FilledIn(steps: seq<DecodeStep>, packed: u64): seq<u64> {
    seq(|steps| + 1, p requires 0 <= p < |steps| + 1 =>
      match StepInput(steps, packed, p) case Known(size) => size case Unknown => 0)
  }

  /** Two passes that succeed leave a solution. */
  lemma InferredIsSolvable(
      steps: seq<DecodeStep>, back: seq<OutputSize>, rules: seq<SizeRule>,
      declared: seq<OutputSize>, packed: u64)
    requires Inferred(steps, back, rules, declared, packed)
    ensures Consistent(FilledIn(steps, packed), rules, declared, packed)
  {
    var z := FilledIn(steps, packed);
    forall p | 0 <= p < |rules| ensures declared[p].Allows(z[p + 1]) {
      assert Backed(back, rules, declared, p) && Forwarded(steps, back, rules, packed, p);
    }
    forall p | 0 <= p < |rules| && rules[p].Preserves? ensures z[p + 1] == z[p] {
      assert Forwarded(steps, back, rules, packed, p);
      if p > 0 {
        assert Forwarded(steps, back, rules, packed, p - 1);
        assert Backed(back, rules, declared, p - 1);
      }
    }
  }

  /** An unknown size starts at a coder that does not preserve size and has no later information. */
  lemma {:induction false} UnknownOrigin(
      steps: seq<DecodeStep>, back: seq<OutputSize>, rules: seq<SizeRule>,
      declared: seq<OutputSize>, packed: u64, p: nat) returns (origin: nat)
    requires Inferred(steps, back, rules, declared, packed) && p < |steps| && steps[p].output.Unknown?
    ensures origin <= p && !rules[origin].Preserves? && back[origin].Unknown?
    ensures InRun(rules, origin, p + 1)
  {
    assert Forwarded(steps, back, rules, packed, p);
    if rules[p].Preserves? {
      origin := UnknownOrigin(steps, back, rules, declared, packed, p - 1);
    } else {
      origin := p;
    }
  }

  /** A size is known exactly when every solution agrees on it. */
  lemma KnownIffForced(
      steps: seq<DecodeStep>, back: seq<OutputSize>, rules: seq<SizeRule>,
      declared: seq<OutputSize>, packed: u64, q: nat, v: u64)
    requires Inferred(steps, back, rules, declared, packed) && q <= |steps|
    ensures StepInput(steps, packed, q) == Known(v) <==> Forced(rules, declared, packed, q, v)
  {
    InferredIsSolvable(steps, back, rules, declared, packed);
    if StepInput(steps, packed, q) == Known(v) {
      forall z | Consistent(z, rules, declared, packed) ensures z[q] == v {
        if q > 0 {
          ForwardSound(z, steps, back, rules, declared, packed, q - 1);
        }
      }
    } else if StepInput(steps, packed, q).Unknown? {
      var origin := UnknownOrigin(steps, back, rules, declared, packed, q - 1);
      UnknownNotForced(back, rules, declared, packed, origin, q);
      assert Forced(rules, declared, packed, q, v) ==> SizeForced(rules, declared, packed, q);
    }
  }

  lemma InferredDetermines(
      steps: seq<DecodeStep>, back: seq<OutputSize>, rules: seq<SizeRule>,
      declared: seq<OutputSize>, packed: u64)
    requires Inferred(steps, back, rules, declared, packed)
    ensures SizesDetermined(steps, rules, declared, packed)
  {
    forall q: nat, v: u64 | q <= |rules|
      ensures StepInput(steps, packed, q) == Known(v) <==> Forced(rules, declared, packed, q, v)
    {
      KnownIffForced(steps, back, rules, declared, packed, q, v);
    }
    forall p: nat | p < |rules|
      ensures steps[p].rule == rules[p] && steps[p].input == StepInput(steps, packed, p)
    {
      assert Forwarded(steps, back, rules, packed, p);
    }
  }

  lemma InferredMeetsNeeds(
      steps: seq<DecodeStep>, back: seq<OutputSize>, rules: seq<SizeRule>,
      declared: seq<OutputSize>, packed: u64)
    requires Inferred(steps, back, rules, declared, packed)
    requires forall p: nat :: p < |rules| && rules[p].RequiresSize? ==> back[p].Known?
    ensures NeedsMet(rules, declared, packed)
  {
    forall p: nat | p < |rules| && rules[p].RequiresSize?
      ensures SizeForced(rules, declared, packed, p + 1)
    {
      assert Forwarded(steps, back, rules, packed, p);
      KnownIffForced(steps, back, rules, declared, packed, p + 1, back[p].size);
    }
  }

  /**
   * Size inference of a chain: it succeeds exactly when the equations have a solution and every
   * size a coder insists on is forced, and then known sizes are exactly the forced ones.
   */
  method InferSizes(rules: seq<SizeRule>, declared: seq<OutputSize>, packed: u64)
    returns (r: Result<seq<DecodeStep>, R7zError>)
    requires |declared| == |rules|
    ensures r.Success? <==> Solvable(rules, declared, packed) && NeedsMet(rules, declared, packed)
    ensures r.Success? ==> SizesDetermined(r.value, rules, declared, packed)
  {
    var back := BackwardPass(rules, declared, packed);
    if back.Failure? {
      return Failure(back.error);
    }
    r := ForwardPass(rules, declared, back.value, packed);
    if r.Success? {
      InferredIsSolvable(r.value, back.value, rules, declared, packed);
      InferredDetermines(r.value, back.value, rules, declared, packed);
      InferredMeetsNeeds(r.value, back.value, rules, declared, packed);
    }
  }

  ghost predicate SizesDetermined(
      steps: seq<DecodeStep>, rules: seq<SizeRule>, declared: seq<OutputSize>, packed: u64)
    requires |declared| == |rules|
  {
    && |steps| == |rules|
    && (forall p: nat :: p < |rules| ==>
          steps[p].rule == rules[p] && steps[p].input == StepInput(steps, packed, p))
    && forall q: nat, v: u64 :: q <= |rules| ==>
         (StepInput(steps, packed, q) == Known(v) <==> Forced(rules, declared, packed, q, v))
  }

  // ---------------------------------------------------------------- eager output

  predicate TailPreserves(steps: seq<DecodeStep>, i: nat) {
    forall s :: i < s < |steps| ==> steps[s].rule.Preserves?
  }

  predicate IsEager(steps: seq<DecodeStep>, i: nat)
    requires i < |steps|
  {
    steps[i].rule.Aes? && TailPreserves(steps, i) && steps[i].output.Known?
  }

  /** The output of the last AES step that reaches the folder unchanged in size. */
  function EagerAmong(steps: seq<DecodeStep>, n: nat): Option<u64>
    requires n <= |steps|
  {
    if n == 0 then None
    else if IsEager(steps, n - 1) then Some(steps[n - 1].output.size) else EagerAmong(steps, n - 1)
  }

  /** The search of the source, last step first. */
  method EagerOutputSize(steps: seq<DecodeStep>) returns (r: Option<u64>)
    ensures r == EagerAmong(steps, |steps|)
  {
    for i := |steps| downto 0
      invariant EagerAmong(steps, |steps|) == EagerAmong(steps, i)
    {
      if IsEager(steps, i) {
        return Some(steps[i].output.size);
      }
    }
    r := None;
  }

  lemma {:induction false} PreservedTail(
      z: seq<u64>, steps: seq<DecodeStep>, rules: seq<SizeRule>, declared: seq<OutputSize>, packed: u64,
      i: nat, q: nat)
    requires |declared| == |rules| == |steps| && Consistent(z, rules, declared, packed)
    requires forall p: nat :: p < |rules| ==> steps[p].rule == rules[p]
    requires i < q <= |steps| && TailPreserves(steps, i)
    ensures z[q] == z[i + 1]
    decreases q
  {
    if q > i + 1 {
      PreservedTail(z, steps, rules, declared, packed, i, q - 1);
    }
  }

  /** The size inferred for an AES tail is always known and equals the declared folder size. */
  lemma AesTailHasFolderSize(
      steps: seq<DecodeStep>, rules: seq<SizeRule>, declared: seq<OutputSize>, packed: u64,
      i: nat, folderSize: u64)
    requires |declared| == |rules| && Solvable(rules, declared, packed)
    requires SizesDetermined(steps, rules, declared, packed)
    requires i < |steps| && TailPreserves(steps, i) && declared[|rules| - 1] == Known(folderSize)
    ensures steps[i].output == Known(folderSize)
  {
    forall z | Consistent(z, rules, declared, packed) ensures z[i + 1] == folderSize {
      PreservedTail(z, steps, rules, declared, packed, i, |steps|);
    }
    assert Forced(rules, declared, packed, i + 1, folderSize);
    assert StepInput(steps, packed, i + 1) == Known(folderSize);
  }

  ghost predicate HasAesTail(steps: seq<DecodeStep>) {
    exists i :: 0 <= i < |steps| && steps[i].rule.Aes? && TailPreserves(steps, i)
  }

  /** Where an AES tail has the folder size, that is what is charged early. */
  lemma {:induction false} EagerAmongTails(steps: seq<DecodeStep>, n: nat, folderSize: u64)
    requires n <= |steps|
    requires forall i :: 0 <= i < |steps| && steps[i].rule.Aes? && TailPreserves(steps, i) ==>
      steps[i].output == Known(folderSize)
    ensures EagerAmong(steps, n)
         == if exists i :: 0 <= i < n && steps[i].rule.Aes? && TailPreserves(steps, i) then Some(folderSize) else None
  {
    if n > 0 {
      EagerAmongTails(steps, n - 1, folderSize);
    }
  }
}
