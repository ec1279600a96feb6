/**
 * Sizes of the channels that feed BCJ2. Unlike a chain, a channel is compiled forward only: a later
 * declared size never fills in an earlier omitted one.
 */
module ChannelSizes {
  import opened Wrappers
  import opened Words
  import opened Folders
  import opened FolderGraphs
  import opened Dataflow
  import opened Bcj2Plans
  import opened OutputSizes
  import opened DecoderPlans

  // ---------------------------------------------------------------- forward only

  /** A coder that must know its output size needs a declared one. */
  ghost predicate NeedsDeclared(rules: seq<SizeRule>, declared: seq<OutputSize>)
    requires |declared| == |rules|
  {
    forall p: nat :: p < |rules| && rules[p].RequiresSize? ==> declared[p].Known?
  }

  ghost predicate Compiled(
      steps: seq<DecodeStep>, rules: seq<SizeRule>, declared: seq<OutputSize>, packed: u64)
  {
    && |steps| == |declared| == |rules|
    && forall p: nat :: p < |rules| ==> Forwarded(steps, declared, rules, packed, p)
  }

  lemma {:induction false} ForwardAllows(
      z: seq<u64>, steps: seq<DecodeStep>, rules: seq<SizeRule>, declared: seq<OutputSize>, packed: u64, q: nat)
    requires |declared| == |rules| && q <= |steps| <= |rules|
    requires forall p: nat :: p < q ==> Forwarded(steps, declared, rules, packed, p)
    requires Consistent(z, rules, declared, packed)
    ensures StepInput(steps, packed, q).Allows(z[q])
  {
    if q > 0 {
      ForwardAllows(z, steps, rules, declared, packed, q - 1);
      assert Forwarded(steps, declared, rules, packed, q - 1);
    }
  }

  /** A known size is kept; an unknown one takes the size of the run it starts. */
  ghost function SizeAt(steps: seq<DecodeStep>, packed: u64, q: nat): u64
    requires q <= |steps|
    decreases |steps| - q
  {
    match StepInput(steps, packed, q)
    case Known(size) => size
    case Unknown => if q < |steps| && steps[q].rule.Preserves? then SizeAt(steps, packed, q + 1) else 0
  }

  lemma CompiledIsSolvable(
      steps: seq<DecodeStep>, rules: seq<SizeRule>, declared: seq<OutputSize>, packed: u64)
    requires Compiled(steps, rules, declared, packed)
    ensures Solvable(rules, declared, packed)
  {
    var z := seq(|steps| + 1, q requires 0 <= q < |steps| + 1 => SizeAt(steps, packed, q));
    forall p | 0 <= p < |rules|
      ensures declared[p].Allows(z[p + 1]) && (rules[p].Preserves? ==> z[p + 1] == z[p])
    {
      assert Forwarded(steps, declared, rules, packed, p);
    }
    assert Consistent(z, rules, declared, packed);
  }

  /** Where an unknown output comes from: everything after that place is undeclared and preserving. */
  lemma {:induction false} UnknownTail(
      steps: seq<DecodeStep>, rules: seq<SizeRule>, declared: seq<OutputSize>, packed: u64, p: nat)
    returns (origin: nat)
    requires Compiled(steps, rules, declared, packed) && p < |rules| && steps[p].output.Unknown?
    requires forall s: nat :: p < s < |rules| ==> rules[s].Preserves? && declared[s].Unknown?
    ensures origin <= p && !rules[origin].Preserves? && declared[origin].Unknown?
    ensures forall s: nat :: origin < s < |rules| ==> rules[s].Preserves? && declared[s].Unknown?
  {
    assert Forwarded(steps, declared, rules, packed, p);
    if rules[p].Preserves? {
      origin := UnknownTail(steps, rules, declared, packed, p - 1);
    } else {
      origin := p;
    }
  }

  /** The size a channel delivers is known exactly when every solution agrees on it. */
  lemma DeliveredIffForced(
      steps: seq<DecodeStep>, rules: seq<SizeRule>, declared: seq<OutputSize>, packed: u64, v: u64)
    requires Compiled(steps, rules, declared, packed)
    ensures StepInput(steps, packed, |rules|) == Known(v) <==> Forced(rules, declared, packed, |rules|, v)
  {
    var n := |rules|;
    CompiledIsSolvable(steps, rules, declared, packed);
    var z :| Consistent(z, rules, declared, packed);
    match StepInput(steps, packed, n)
    case Known(size) =>
      forall z' | Consistent(z', rules, declared, packed) ensures z'[n] == size {
        ForwardAllows(z', steps, rules, declared, packed, n);
      }
    case Unknown =>
      var origin := UnknownTail(steps, rules, declared, packed, n - 1);
      UnknownNotForced(declared, rules, declared, packed, origin, n);
      assert Forced(rules, declared, packed, n, v) ==> SizeForced(rules, declared, packed, n);
  }

  /** One channel compiles exactly when its equations have a solution and PPMd sizes are declared. */
  method CompileSteps(rules: seq<SizeRule>, declared: seq<OutputSize>, packed: u64)
    returns (r: Result<seq<DecodeStep>, R7zError>)
    requires |declared| == |rules|
    ensures r.Success? <==> Solvable(rules, declared, packed) && NeedsDeclared(rules, declared)
    ensures r.Success? ==> Compiled(r.value, rules, declared, packed)
  {
    var steps: seq<DecodeStep> := [];
    var inputSize := Known(packed);
    for p := 0 to |rules|
      invariant |steps| == p && inputSize == StepInput(steps, packed, p)
      invariant forall q: nat :: q < p ==>
        Forwarded(steps, declared, rules, packed, q) && (rules[q].RequiresSize? ==> declared[q].Known?)
    {
      var output := declared[p];
      if rules[p].RequiresSize? && output.Unknown? {
        return Failure(InvalidOptions);
      }
      if rules[p].Preserves? {
        var merged := output.Reconcile(inputSize);
        if merged.Failure? {
          forall z | Consistent(z, rules, declared, packed) ensures false {
            ForwardAllows(z, steps, rules, declared, packed, p);
          }
          return Failure(merged.error);
        }
        output := merged.value;
      }
      ghost var before := steps;
      steps := steps + [DecodeStep(rules[p], inputSize, output)];
      inputSize := output;
      forall q: nat | q < p ensures Forwarded(steps, declared, rules, packed, q) {
        assert Forwarded(before, declared, rules, packed, q);
      }
    }
    r := Success(steps);
    CompiledIsSolvable(steps, rules, declared, packed);
  }

  // ---------------------------------------------------------------- sizes inside a channel

  lemma CompiledPrefix(
      steps: seq<DecodeStep>, rules: seq<SizeRule>, declared: seq<OutputSize>, packed: u64, q: nat)
    requires Compiled(steps, rules, declared, packed) && q <= |rules|
    ensures Compiled(steps[..q], rules[..q], declared[..q], packed)
    ensures StepInput(steps[..q], packed, q) == StepInput(steps, packed, q)
  {
    forall p: nat | p < q ensures Forwarded(steps[..q], declared[..q], rules[..q], packed, p) {
      assert Forwarded(steps, declared, rules, packed, p);
    }
  }

  /** A size inside a channel is known exactly when the coders up to it force it. */
  lemma KnownIffForcedSoFar(
      steps: seq<DecodeStep>, rules: seq<SizeRule>, declared: seq<OutputSize>, packed: u64, q: nat, v: u64)
    requires Compiled(steps, rules, declared, packed) && q <= |rules|
    ensures StepInput(steps, packed, q) == Known(v) <==> Forced(rules[..q], declared[..q], packed, q, v)
  {
    CompiledPrefix(steps, rules, declared, packed, q);
    DeliveredIffForced(steps[..q], rules[..q], declared[..q], packed, v);
  }

  /**
   * The output of coder p, which does not preserve sizes, reaches position q without being declared, and
   * is declared only behind position q, by coder k.
   */
  ghost predicate DeclaredTooLate(rules: seq<SizeRule>, declared: seq<OutputSize>, p: nat, q: nat, k: nat)
    requires |declared| == |rules|
  {
    && p < q <= k < |rules| && !rules[p].Preserves? && InRun(rules, p, k + 1)
    && declared[k].Known? && forall s :: p <= s < q ==> declared[s].Unknown?
  }

  lemma {:induction false} UnknownInRun(
      steps: seq<DecodeStep>, rules: seq<SizeRule>, declared: seq<OutputSize>, packed: u64, p: nat, q: nat)
    requires Compiled(steps, rules, declared, packed) && p < q <= |rules|
    requires !rules[p].Preserves? && InRun(rules, p, q) && forall s :: p <= s < q ==> declared[s].Unknown?
    ensures StepInput(steps, packed, q).Unknown?
    decreases q
  {
    assert Forwarded(steps, declared, rules, packed, q - 1);
    if p + 1 < q {
      UnknownInRun(steps, rules, declared, packed, p, q - 1);
    }
  }

  lemma {:induction false} RunKeepsSize(
      z: seq<u64>, rules: seq<SizeRule>, declared: seq<OutputSize>, packed: u64, p: nat, q: nat, k: nat)
    requires |declared| == |rules| && p < q <= k <= |rules| && InRun(rules, p, k)
    requires Consistent(z, rules, declared, packed)
    ensures z[q] == z[k]
    decreases k
  {
    if q < k {
      RunKeepsSize(z, rules, declared, packed, p, q, k - 1);
    }
  }

  /**
   * Where a channel knows less than its equations: a forced size stays unknown exactly when it is
   * declared too late.
   */
  lemma UnknownThoughForced(
      steps: seq<DecodeStep>, rules: seq<SizeRule>, declared: seq<OutputSize>, packed: u64, q: nat)
    requires Compiled(steps, rules, declared, packed) && q <= |rules|
    ensures StepInput(steps, packed, q).Unknown? && SizeForced(rules, declared, packed, q)
       <==> exists p: nat, k: nat :: DeclaredTooLate(rules, declared, p, q, k)
  {
    if StepInput(steps, packed, q).Unknown? && SizeForced(rules, declared, packed, q) {
      CompiledPrefix(steps, rules, declared, packed, q);
      var p := UnknownTail(steps[..q], rules[..q], declared[..q], packed, q - 1);
      assert forall s: nat :: p < s < q ==> rules[..q][s].Preserves? && declared[..q][s].Unknown?;
      CompiledIsSolvable(steps, rules, declared, packed);
      if forall k: nat :: k < |rules| && InRun(rules, p, k + 1) ==> declared[k].Unknown? {
        FreeRunNotForced(rules, declared, packed, p, q);
      }
      var k: nat :| k < |rules| && InRun(rules, p, k + 1) && declared[k].Known?;
      assert DeclaredTooLate(rules, declared, p, q, k);
    }
    if p: nat, k: nat :| DeclaredTooLate(rules, declared, p, q, k) {
      UnknownInRun(steps, rules, declared, packed, p, q);
      forall z | Consistent(z, rules, declared, packed) ensures z[q] == declared[k].size {
        RunKeepsSize(z, rules, declared, packed, p, q, k + 1);
      }
      assert Forced(rules, declared, packed, q, declared[k].size);
    }
  }

  // ---------------------------------------------------------------- the four channels

  function ChannelRules(coders: seq<CoderInfo>, channel: Bcj2Channel): seq<SizeRule>
    requires forall a :: 0 <= a < |channel.coders| ==> channel.coders[a].index < |coders|
  {
    seq(|channel.coders|, a requires 0 <= a < |channel.coders| => RuleOf(coders[channel.coders[a].index]))
  }

  function ChannelDeclared(sizes: CoderOutputSizes, channel: Bcj2Channel): seq<OutputSize> {
    seq(|channel.coders|, a requires 0 <= a < |channel.coders| => sizes.Get(channel.coders[a].output))
  }

  ghost predicate Indexed(coders: seq<CoderInfo>, channel: Bcj2Channel, packedSizes: seq<u64>) {
    && channel.packed < |packedSizes|
    && forall a :: 0 <= a < |channel.coders| ==> channel.coders[a].index < |coders|
  }

  ghost predicate ChannelCompiles(
      coders: seq<CoderInfo>, sizes: CoderOutputSizes, channel: Bcj2Channel, packedSizes: seq<u64>)
    requires Indexed(coders, channel, packedSizes)
  {
    var rules, declared := ChannelRules(coders, channel), ChannelDeclared(sizes, channel);
    Solvable(rules, declared, packedSizes[channel.packed]) && NeedsDeclared(rules, declared)
  }

  /** Every consistent choice of sizes makes the channel deliver v bytes. */
  ghost predicate Delivers(
      coders: seq<CoderInfo>, sizes: CoderOutputSizes, channel: Bcj2Channel, packedSizes: seq<u64>, v: u64)
    requires Indexed(coders, channel, packedSizes)
  {
    Forced(ChannelRules(coders, channel), ChannelDeclared(sizes, channel), packedSizes[channel.packed],
      |channel.coders|, v)
  }

  ghost predicate Knows(
      coders: seq<CoderInfo>, sizes: CoderOutputSizes, channel: Bcj2Channel, packedSizes: seq<u64>, size: OutputSize)
    requires Indexed(coders, channel, packedSizes)
  {
    forall v: u64 :: size == Known(v) <==> Delivers(coders, sizes, channel, packedSizes, v)
  }

  ghost predicate ChannelCompiled(
      steps: seq<DecodeStep>, coders: seq<CoderInfo>, sizes: CoderOutputSizes, channel: Bcj2Channel,
      packedSizes: seq<u64>)
    requires Indexed(coders, channel, packedSizes)
  {
    Compiled(steps, ChannelRules(coders, channel), ChannelDeclared(sizes, channel), packedSizes[channel.packed])
  }

  method CompileChannel(
      coders: seq<CoderInfo>, sizes: CoderOutputSizes, channel: Bcj2Channel, packedSizes: seq<u64>)
    returns (r: Result<(seq<DecodeStep>, OutputSize), R7zError>)
    requires Indexed(coders, channel, packedSizes)
    ensures r.Success? <==> ChannelCompiles(coders, sizes, channel, packedSizes)
    ensures r.Success? ==> ChannelCompiled(r.value.0, coders, sizes, channel, packedSizes)
    ensures r.Success? ==> Knows(coders, sizes, channel, packedSizes, r.value.1)
  {
    var rules, declared := ChannelRules(coders, channel), ChannelDeclared(sizes, channel);
    var packed := packedSizes[channel.packed];
    var steps := CompileSteps(rules, declared, packed);
    if steps.Failure? {
      return Failure(steps.error);
    }
    var delivered := if steps.value == [] then Known(packed) else steps.value[|steps.value| - 1].output;
    forall v: u64 ensures delivered == Known(v) <==> Delivers(coders, sizes, channel, packedSizes, v) {
      DeliveredIffForced(steps.value, rules, declared, packed, v);
    }
    r := Success((steps.value, delivered));
  }

  ghost predicate AllIndexed(coders: seq<CoderInfo>, layout: Bcj2Layout, packedSizes: seq<u64>) {
    forall k :: 0 <= k < 4 ==> Indexed(coders, layout.Channel(k), packedSizes)
  }

  /** The three data channels deliver forced sizes that add up to the folder's. */
  ghost predicate DataSizesAddUp(
      coders: seq<CoderInfo>, sizes: CoderOutputSizes, layout: Bcj2Layout, packedSizes: seq<u64>, unpackSize: u64)
    requires AllIndexed(coders, layout, packedSizes)
  {
    exists main: u64, call: u64, jump: u64 ::
      && Delivers(coders, sizes, layout.Channel(0), packedSizes, main)
      && Delivers(coders, sizes, layout.Channel(1), packedSizes, call)
      && Delivers(coders, sizes, layout.Channel(2), packedSizes, jump)
      && main + call + jump == unpackSize
  }

  /** Checked addition of three sizes that must all be known. */
  method TotalOutput(outputs: seq<OutputSize>) returns (r: Result<u64, R7zError>)
    requires |outputs| == 3
    ensures r.Success? <==>
      && outputs[0].Known? && outputs[1].Known? && outputs[2].Known?
      && outputs[0].size + outputs[1].size + outputs[2].size < U64_LIMIT
    ensures r.Success? ==> r.value == outputs[0].size + outputs[1].size + outputs[2].size
  {
    var total: nat := 0;
    for k := 0 to |outputs|
      invariant forall j :: 0 <= j < k ==> outputs[j].Known?
      invariant total < U64_LIMIT
      invariant k == 0 ==> total == 0
      invariant k == 1 ==> total == outputs[0].size
      invariant k == 2 ==> total == outputs[0].size + outputs[1].size
      invariant k == 3 ==> total == outputs[0].size + outputs[1].size + outputs[2].size
    {
      if outputs[k].Unknown? {
        return Failure(InvalidOptions);
      }
      if total + outputs[k].size >= U64_LIMIT {
        return Failure(Decompression);
      }
      total := total + outputs[k].size;
    }
    r := Success(total);
  }

  lemma LayoutIsIndexed(
      g: FolderGraph, coders: seq<CoderInfo>, bcj2: nat, layout: Bcj2Layout, packedSizes: seq<u64>)
    requires Traceable(g, coders) && LayoutFor(g, coders, bcj2, layout) && |packedSizes| == |g.packedInputs|
    ensures AllIndexed(coders, layout, packedSizes)
  {
    forall k, a | 0 <= k < 4 && 0 <= a < |layout.Channel(k).coders|
      ensures layout.Channel(k).coders[a].index < |coders|
    {
      ChannelCodersAreSingle(g, coders, bcj2, layout, k, a);
    }
  }

  lemma SumDecides(
      coders: seq<CoderInfo>, sizes: CoderOutputSizes, layout: Bcj2Layout, packedSizes: seq<u64>, unpackSize: u64,
      outputs: seq<OutputSize>)
    requires AllIndexed(coders, layout, packedSizes) && |outputs| == 3
    requires Indexed(coders, layout.main, packedSizes) && Indexed(coders, layout.call, packedSizes)
    requires Indexed(coders, layout.jump, packedSizes)
    requires Knows(coders, sizes, layout.main, packedSizes, outputs[0])
    requires Knows(coders, sizes, layout.call, packedSizes, outputs[1])
    requires Knows(coders, sizes, layout.jump, packedSizes, outputs[2])
    ensures DataSizesAddUp(coders, sizes, layout, packedSizes, unpackSize) <==>
      && outputs[0].Known? && outputs[1].Known? && outputs[2].Known?
      && outputs[0].size + outputs[1].size + outputs[2].size == unpackSize
  {
    hide Delivers;
    assert layout.Channel(0) == layout.main && layout.Channel(1) == layout.call && layout.Channel(2) == layout.jump;
  }

  ghost predicate SizesCompile(
      coders: seq<CoderInfo>, sizes: CoderOutputSizes, layout: Bcj2Layout, packedSizes: seq<u64>, unpackSize: u64)
    requires AllIndexed(coders, layout, packedSizes)
  {
    && (forall k :: 0 <= k < 4 ==> ChannelCompiles(coders, sizes, layout.Channel(k), packedSizes))
    && DataSizesAddUp(coders, sizes, layout, packedSizes, unpackSize)
  }

  /** The steps of each channel follow from its declared sizes. */
  ghost predicate ChannelsCompiled(
      channels: seq<seq<DecodeStep>>, coders: seq<CoderInfo>, sizes: CoderOutputSizes, layout: Bcj2Layout,
      packedSizes: seq<u64>)
    requires AllIndexed(coders, layout, packedSizes)
  {
    && |channels| == 4
    && forall k :: 0 <= k < 4 ==> ChannelCompiled(channels[k], coders, sizes, layout.Channel(k), packedSizes)
  }

  lemma FourIndexed(coders: seq<CoderInfo>, layout: Bcj2Layout, packedSizes: seq<u64>)
    requires AllIndexed(coders, layout, packedSizes)
    ensures Indexed(coders, layout.main, packedSizes) && Indexed(coders, layout.call, packedSizes)
    ensures Indexed(coders, layout.jump, packedSizes) && Indexed(coders, layout.control, packedSizes)
  {
    assert layout.Channel(0) == layout.main && layout.Channel(1) == layout.call;
    assert layout.Channel(2) == layout.jump && layout.Channel(3) == layout.control;
  }

  lemma FourCompile(
      coders: seq<CoderInfo>, sizes: CoderOutputSizes, layout: Bcj2Layout, packedSizes: seq<u64>, unpackSize: u64)
    requires AllIndexed(coders, layout, packedSizes)
    requires Indexed(coders, layout.main, packedSizes) && Indexed(coders, layout.call, packedSizes)
    requires Indexed(coders, layout.jump, packedSizes) && Indexed(coders, layout.control, packedSizes)
    ensures SizesCompile(coders, sizes, layout, packedSizes, unpackSize) <==>
      && ChannelCompiles(coders, sizes, layout.main, packedSizes)
      && ChannelCompiles(coders, sizes, layout.call, packedSizes)
      && ChannelCompiles(coders, sizes, layout.jump, packedSizes)
      && ChannelCompiles(coders, sizes, layout.control, packedSizes)
      && DataSizesAddUp(coders, sizes, layout, packedSizes, unpackSize)
  {
    hide ChannelCompiles, DataSizesAddUp, Indexed;
    assert layout.Channel(0) == layout.main && layout.Channel(1) == layout.call;
    assert layout.Channel(2) == layout.jump && layout.Channel(3) == layout.control;
  }

  lemma FourCompiled(
      channels: seq<seq<DecodeStep>>, coders: seq<CoderInfo>, sizes: CoderOutputSizes, layout: Bcj2Layout,
      packedSizes: seq<u64>)
    requires AllIndexed(coders, layout, packedSizes) && |channels| == 4
    requires Indexed(coders, layout.main, packedSizes) && Indexed(coders, layout.call, packedSizes)
    requires Indexed(coders, layout.jump, packedSizes) && Indexed(coders, layout.control, packedSizes)
    requires ChannelCompiled(channels[0], coders, sizes, layout.main, packedSizes)
    requires ChannelCompiled(channels[1], coders, sizes, layout.call, packedSizes)
    requires ChannelCompiled(channels[2], coders, sizes, layout.jump, packedSizes)
    requires ChannelCompiled(channels[3], coders, sizes, layout.control, packedSizes)
    ensures ChannelsCompiled(channels, coders, sizes, layout, packedSizes)
  {
    hide ChannelCompiled, Indexed;
  }

  /**
   * The sizes of a BCJ2 folder: each of its channels compiles, and the main, call and jump channels
   * together deliver as many bytes as the folder declares. The control channel is not counted.
   */
  method SizeChannels(
      ghost g: FolderGraph, coders: seq<CoderInfo>, ghost bcj2: nat, layout: Bcj2Layout,
      sizes: CoderOutputSizes, packedSizes: seq<u64>, unpackSize: u64)
    returns (r: Result<seq<seq<DecodeStep>>, R7zError>)
    requires Traceable(g, coders) && LayoutFor(g, coders, bcj2, layout) && |packedSizes| == |g.packedInputs|
    ensures AllIndexed(coders, layout, packedSizes)
    ensures r.Success? <==> SizesCompile(coders, sizes, layout, packedSizes, unpackSize)
    ensures r.Success? ==> ChannelsCompiled(r.value, coders, sizes, layout, packedSizes)
  {
    LayoutIsIndexed(g, coders, bcj2, layout, packedSizes);
    FourIndexed(coders, layout, packedSizes);
    FourCompile(coders, sizes, layout, packedSizes, unpackSize);
    hide LayoutFor, ChannelCompiles, Knows, DataSizesAddUp, ChannelCompiled, Traceable, Indexed, AllIndexed,
      SizesCompile, ChannelsCompiled;
    var main := CompileChannel(coders, sizes, layout.main, packedSizes);
    if main.Failure? {
      return Failure(main.error);
    }
    var call := CompileChannel(coders, sizes, layout.call, packedSizes);
    if call.Failure? {
      return Failure(call.error);
    }
    var jump := CompileChannel(coders, sizes, layout.jump, packedSizes);
    if jump.Failure? {
      return Failure(jump.error);
    }
    var control := CompileChannel(coders, sizes, layout.control, packedSizes);
    if control.Failure? {
      return Failure(control.error);
    }
    var outputs := [main.value.1, call.value.1, jump.value.1];
    SumDecides(coders, sizes, layout, packedSizes, unpackSize, outputs);
    var total := TotalOutput(outputs);
    if total.Failure? {
      return Failure(total.error);
    }
    if total.value != unpackSize {
      return Failure(Decompression);
    }
    r := Success([main.value.0, call.value.0, jump.value.0, control.value.0]);
    FourCompiled(r.value, coders, sizes, layout, packedSizes);
  }

  // ---------------------------------------------------------------- limits

  const MAX_BCJ2_OUTPUT_BYTES: u64 := 0x1000_0000
  const MAX_BCJ2_WORKING_BYTES: u64 := 0x2000_0000
  const BCJ2_READER_WORKING_SET_BYTES: u64 := 0x10_0000

  function CodersOf(coders: seq<CoderInfo>, layout: Bcj2Layout): seq<CoderInfo>
    requires forall c :: c in ChannelCoders(layout) ==> c < |coders|
  {
    seq(|ChannelCoders(layout)|, k requires 0 <= k < |ChannelCoders(layout)| =>
      assert ChannelCoders(layout)[k] in ChannelCoders(layout); coders[ChannelCoders(layout)[k]])
  }

  lemma ChannelCodersIndexed(coders: seq<CoderInfo>, layout: Bcj2Layout, packedSizes: seq<u64>)
    requires AllIndexed(coders, layout, packedSizes)
    ensures forall c :: c in ChannelCoders(layout) ==> c < |coders|
  {
    assert layout.Channel(0) == layout.main && layout.Channel(1) == layout.call;
    assert layout.Channel(2) == layout.jump && layout.Channel(3) == layout.control;
  }

  /** The output is small enough to be held in memory, beside the decoders and the merging reader. */
  ghost predicate Bcj2Fits(
      coders: seq<CoderInfo>, layout: Bcj2Layout, unpackSize: u64, estimate: Estimate, limit: u64)
    requires forall c :: c in ChannelCoders(layout) ==> c < |coders|
  {
    && unpackSize <= MAX_BCJ2_OUTPUT_BYTES
    && Admitted(estimate, CodersOf(coders, layout), BCJ2_READER_WORKING_SET_BYTES + unpackSize,
                if limit < MAX_BCJ2_WORKING_BYTES then limit else MAX_BCJ2_WORKING_BYTES)
  }

  /** A BCJ2 folder compiles exactly when its sizes do and its output and decoders are within the limits. */
  method CompileBcj2(
      ghost g: FolderGraph, coders: seq<CoderInfo>, ghost bcj2: nat, layout: Bcj2Layout,
      sizes: CoderOutputSizes, packedSizes: seq<u64>, unpackSize: u64, estimate: Estimate, limit: u64)
    returns (r: Result<seq<seq<DecodeStep>>, R7zError>)
    requires Traceable(g, coders) && LayoutFor(g, coders, bcj2, layout) && |packedSizes| == |g.packedInputs|
    ensures AllIndexed(coders, layout, packedSizes) && forall c :: c in ChannelCoders(layout) ==> c < |coders|
    ensures r.Success? <==>
      && SizesCompile(coders, sizes, layout, packedSizes, unpackSize)
      && Bcj2Fits(coders, layout, unpackSize, estimate, limit)
    ensures r.Success? ==> ChannelsCompiled(r.value, coders, sizes, layout, packedSizes)
  {
    LayoutIsIndexed(g, coders, bcj2, layout, packedSizes);
    ChannelCodersIndexed(coders, layout, packedSizes);
    hide LayoutFor, Traceable, SizesCompile, ChannelsCompiled, WorkingSet, ChannelCoders, AllIndexed;
    if unpackSize > MAX_BCJ2_OUTPUT_BYTES {
      return Failure(ResourceLimitExceeded);
    }
    r := SizeChannels(g, coders, bcj2, layout, sizes, packedSizes, unpackSize);
    if r.Failure? {
      return;
    }
    var memory := Admit(estimate, CodersOf(coders, layout), BCJ2_READER_WORKING_SET_BYTES, U64_LIMIT - 1);
    if memory.Failure? {
      return Failure(memory.error);
    }
    if memory.value + unpackSize > MAX_BCJ2_WORKING_BYTES || memory.value + unpackSize > limit {
      return Failure(ResourceLimitExceeded);
    }
  }
}
