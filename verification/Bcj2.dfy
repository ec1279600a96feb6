/** BCJ2 folders: four pipes feeding one merging coder. */
module Bcj2Plans {
  import opened Wrappers
  import opened Words
  import opened Counting
  import opened Folders
  import opened FolderGraphs
  import opened Dataflow
  import Methods

  datatype Bcj2Coder = Bcj2Coder(index: nat, output: nat)
  datatype Bcj2Channel = Bcj2Channel(coders: seq<Bcj2Coder>, packed: nat)
  datatype Bcj2Layout = Bcj2Layout(
    main: Bcj2Channel, call: Bcj2Channel, jump: Bcj2Channel, control: Bcj2Channel)
  {
    function Channel(k: nat): Bcj2Channel
      requires k < 4
    {
      if k == 0 then main else if k == 1 then call else if k == 2 then jump else control
    }
  }

  function Indices(coders: seq<Bcj2Coder>): seq<nat> {
    seq(|coders|, k requires 0 <= k < |coders| => coders[k].index)
  }

  function Reverse<T>(s: seq<T>): (r: seq<T>)
    ensures |r| == |s|
    ensures forall k :: 0 <= k < |s| ==> r[k] == s[|s| - 1 - k]
  {
    seq(|s|, k requires 0 <= k < |s| => s[|s| - 1 - k])
  }

  predicate IsSingle(coder: CoderInfo) {
    coder.numInStreams == 1 && coder.numOutStreams == 1
  }

  predicate IsBcj2(coder: CoderInfo) {
    coder.codecId == Methods.CODEC_BCJ2
  }

  // ---------------------------------------------------------------- streams of a coder

  lemma {:induction false} OwnedAppend(owners: seq<nat>, last: nat, n: nat, c: nat)
    ensures |Owned(owners + seq(n, _ => last), c)|
         == |Owned(owners, c)| + if c == last then n else 0
  {
    if n == 0 {
      assert owners + seq(0, _ => last) == owners;
    } else {
      OwnedAppend(owners, last, n - 1, c);
      var all := owners + seq(n, _ => last);
      assert all[..|all| - 1] == owners + seq(n - 1, _ => last);
    }
  }

  /** A coder owns as many streams as it declares. */
  lemma {:induction false} OwnedSize(counts: seq<nat>, c: nat)
    ensures |Owned(OwnerTable(counts), c)| == if c < |counts| then counts[c] else 0
  {
    if counts != [] {
      var last := |counts| - 1;
      OwnedSize(counts[..last], c);
      OwnedAppend(OwnerTable(counts[..last]), last, counts[last], c);
    }
  }

  /** The facts about a resolved folder that channel tracing needs. */
  ghost predicate Traceable(g: FolderGraph, coders: seq<CoderInfo>) {
    && WellFormed(g)
    && |g.executionOrder| == |coders|
    && forall c :: 0 <= c < |coders| ==> SizesMatch(g, coders, c)
  }

  ghost predicate SizesMatch(g: FolderGraph, coders: seq<CoderInfo>, c: nat)
    requires c < |coders|
  {
    && coders[c].numInStreams >= 1
    && |Owned(g.inputOwners, c)| == coders[c].numInStreams
    && |Owned(g.outputOwners, c)| == coders[c].numOutStreams
  }

  lemma CoderSizes(folder: Folder, c: nat)
    requires ArityOk(folder.coders) && c < |folder.coders|
    ensures var owners := OwnersOf(folder.coders);
      && folder.coders[c].numInStreams >= 1
      && |Owned(owners.inputs, c)| == folder.coders[c].numInStreams
      && |Owned(owners.outputs, c)| == folder.coders[c].numOutStreams
  {
    assert StreamArity(folder.coders[c]).Success?;
    OwnedSize(InputCounts(folder.coders), c);
    OwnedSize(OutputCounts(folder.coders), c);
  }

  lemma GraphIsTraceable(g: FolderGraph, folder: Folder)
    requires GraphFor(g, folder) && ArityOk(folder.coders)
    ensures Traceable(g, folder.coders)
  {
    GraphIsWellFormed(g, folder);
    forall c: nat | c < |folder.coders| ensures SizesMatch(g, folder.coders, c) {
      CoderSizes(folder, c);
    }
  }

  lemma SingleIsOneToOne(g: FolderGraph, coders: seq<CoderInfo>, c: nat, o: nat)
    requires Traceable(g, coders) && c < |coders| && IsSingle(coders[c])
    requires o < |g.outputOwners| && g.outputOwners[o] == c
    ensures |Owned(g.inputOwners, c)| == 1 && OneToOne(g, c, Owned(g.inputOwners, c)[0], o)
  {
    assert SizesMatch(g, coders, c);
    assert o in Owned(g.outputOwners, c);
  }

  /** The first input a coder owns, as the source finds it by position. */
  method FirstInput(owners: seq<nat>, c: nat) returns (i: nat)
    requires Owned(owners, c) != []
    ensures i < |owners| && owners[i] == c
    ensures |Owned(owners, c)| == 1 ==> Owned(owners, c) == [i]
  {
    assert Owned(owners, c)[0] in Owned(owners, c);
    i := 0;
    while owners[i] != c
      invariant i < |owners| && forall k :: 0 <= k < i ==> owners[k] != c
      decreases |owners| - i
    {
      assert i + 1 < |owners|;
      i := i + 1;
    }
    assert i in Owned(owners, c);
  }

  // ---------------------------------------------------------------- channels

  /** Position in the execution order of the coder that owns input i. */
  ghost function Rank(g: FolderGraph, c: nat): (p: nat)
    requires Evaluable(g) && c < |g.executionOrder|
    ensures p < |g.executionOrder| && g.executionOrder[p] == c
  {
    DistinctBelow(g.executionOrder, |g.executionOrder|);
    assert c in g.executionOrder;
    var p: nat :| p < |g.executionOrder| && g.executionOrder[p] == c;
    p
  }

  lemma SourceRanksLower(g: FolderGraph, i: nat)
    requires Evaluable(g) && i < |g.inputSources| && g.inputSources[i].Some?
    ensures g.inputSources[i].value < |g.outputOwners|
    ensures Rank(g, g.outputOwners[g.inputSources[i].value]) < Rank(g, g.inputOwners[i])
  {
    assert Fed(g, i);
    var c, d := g.outputOwners[g.inputSources[i].value], g.inputOwners[i];
    assert c in g.executionOrder[..Rank(g, d)];
    var p :| 0 <= p < Rank(g, d) && g.executionOrder[p] == c;
  }

  /** The channel traces input i back to its packed stream without passing the merging coder. */
  ghost predicate ChannelFor(g: FolderGraph, channel: Bcj2Channel, bcj2: nat, i: nat) {
    && FeedsThrough(g, Indices(channel.coders), channel.packed, i)
    && bcj2 !in Indices(channel.coders)
    && forall k :: 0 <= k < |channel.coders| ==> OutputRecorded(g, channel.coders[k])
  }

  ghost predicate OutputRecorded(g: FolderGraph, coder: Bcj2Coder) {
    Owned(g.outputOwners, coder.index) == [coder.output]
  }

  /** Whatever feeds the current input through a prefix feeds the first one through the whole path. */
  ghost predicate Traced(g: FolderGraph, suffix: seq<nat>, from: nat, to: nat) {
    forall prefix, slot {:trigger FeedsThrough(g, prefix, slot, from)} ::
      FeedsThrough(g, prefix, slot, from) ==> FeedsThrough(g, prefix + suffix, slot, to)
  }

  lemma FeedsOneMore(g: FolderGraph, prefix: seq<nat>, slot: nat, c: nat, j: nat, from: nat)
    requires FeedsThrough(g, prefix, slot, j) && from < |g.inputSources| && g.inputSources[from].Some?
    requires OneToOne(g, c, j, g.inputSources[from].value)
    ensures FeedsThrough(g, prefix + [c], slot, from)
  {
    assert (prefix + [c])[..|prefix|] == prefix;
  }

  lemma TraceExtends(g: FolderGraph, suffix: seq<nat>, c: nat, j: nat, from: nat, to: nat)
    requires Traced(g, suffix, from, to) && from < |g.inputSources| && g.inputSources[from].Some?
    requires OneToOne(g, c, j, g.inputSources[from].value)
    ensures Traced(g, [c] + suffix, j, to)
  {
    hide FeedsThrough, OneToOne;
    forall prefix, slot | FeedsThrough(g, prefix, slot, j)
      ensures FeedsThrough(g, prefix + ([c] + suffix), slot, to)
    {
      FeedsOneMore(g, prefix, slot, c, j, from);
      Grouped(prefix, [c], suffix);
    }
  }

  lemma PushedSuffix(coders: seq<Bcj2Coder>, coder: Bcj2Coder)
    ensures Indices(Reverse(coders + [coder])) == [coder.index] + Indices(Reverse(coders))
  {
  }

  lemma TraceStarts(g: FolderGraph, i: nat)
    ensures Traced(g, [], i, i)
  {
    forall prefix, slot | FeedsThrough(g, prefix, slot, i) ensures FeedsThrough(g, prefix + [], slot, i) {
      assert prefix + [] == prefix;
    }
  }

  lemma TraceEnds(g: FolderGraph, suffix: seq<nat>, from: nat, to: nat)
    requires Traced(g, suffix, from, to) && from < |g.inputSources| && g.inputSources[from].None?
    ensures FeedsThrough(g, suffix, FindSlot(g.packedInputs, from), to)
  {
    assert FeedsThrough(g, [], FindSlot(g.packedInputs, from), from);
    assert [] + suffix == suffix;
  }

  /** A bound input of a graph that merges last comes from a single-stream coder. */
  lemma MergedGraphsTrace(g: FolderGraph, coders: seq<CoderInfo>, bcj2: nat, i: nat)
    requires Traceable(g, coders) && MergesLast(g, coders, bcj2)
    requires i < |g.inputSources| && g.inputSources[i].Some? && g.inputSources[i].value < |g.outputOwners|
    ensures g.outputOwners[g.inputSources[i].value] != bcj2
    ensures IsSingle(coders[g.outputOwners[g.inputSources[i].value]])
  {
    var output := g.inputSources[i].value;
    assert Consumed(g, output);
    assert output in Owned(g.outputOwners, bcj2) ==> output == g.finalOutput;
  }

  /** One step back: the coder that produces the current input, and the input that coder reads. */
  method StepBack(g: FolderGraph, coders: seq<CoderInfo>, bcj2: nat, current: nat)
    returns (r: Result<(Bcj2Coder, nat), R7zError>)
    requires Traceable(g, coders) && current < |g.inputSources| && g.inputSources[current].Some?
    ensures r.Success? ==>
      var (coder, next) := r.value;
      && coder.index != bcj2 && coder.output == g.inputSources[current].value
      && OneToOne(g, coder.index, next, coder.output)
      && next < |g.inputOwners|
      && Rank(g, g.inputOwners[next]) < Rank(g, g.inputOwners[current])
    ensures r.Failure? ==> r.error == InvalidFolderGraph && !MergesLast(g, coders, bcj2)
  {
    SourceRanksLower(g, current);
    var output := g.inputSources[current].value;
    var coder := g.outputOwners[output];
    if coder == bcj2 || !IsSingle(coders[coder]) {
      if MergesLast(g, coders, bcj2) {
        MergedGraphsTrace(g, coders, bcj2, current);
      }
      return Failure(InvalidFolderGraph);
    }
    SingleIsOneToOne(g, coders, coder, output);
    var next := FirstInput(g.inputOwners, coder);
    r := Success((Bcj2Coder(coder, output), next));
  }

  /** Walks the bind pairs back from an input; the owner's rank drops at every step. */
  method TraceChannel(g: FolderGraph, coders: seq<CoderInfo>, bcj2: nat, input: nat)
    returns (r: Result<Bcj2Channel, R7zError>)
    requires Traceable(g, coders) && input < |g.inputSources|
    ensures r.Success? ==> ChannelFor(g, r.value, bcj2, input)
    ensures r.Failure? ==> r.error == InvalidFolderGraph && !MergesLast(g, coders, bcj2)
  {
    hide MergesLast, Traced, OneToOne, Rank;
    var current: nat := input;
    var traced: seq<Bcj2Coder> := [];
    TraceStarts(g, input);
    assert Indices(Reverse(traced)) == [];
    while g.inputSources[current].Some?
      invariant current < |g.inputSources|
      invariant Traced(g, Indices(Reverse(traced)), current, input)
      invariant forall k :: 0 <= k < |traced| ==> traced[k].index != bcj2 && OutputRecorded(g, traced[k])
      decreases Rank(g, g.inputOwners[current])
    {
      var step := StepBack(g, coders, bcj2, current);
      if step.Failure? {
        return Failure(step.error);
      }
      var (coder, next) := step.value;
      TraceExtends(g, Indices(Reverse(traced)), coder.index, next, current, input);
      PushedSuffix(traced, coder);
      current := next;
      traced := traced + [coder];
    }
    assert Fed(g, current);
    TraceEnds(g, Indices(Reverse(traced)), current, input);
    var slot := PackedSlot(g.packedInputs, current);
    r := Success(Bcj2Channel(Reverse(traced), slot));
  }

  /** The slot column of the first table row for this input. */
  method PackedSlot(table: seq<(nat, nat)>, input: nat) returns (slot: nat)
    requires FindSlot(table, input) < |table|
    requires forall k :: 0 <= k < |table| ==> table[k].0 == k
    ensures slot == FindSlot(table, input)
  {
    var k := 0;
    while table[k].1 != input
      invariant k <= FindSlot(table, input)
      decreases FindSlot(table, input) - k
    {
      k := k + 1;
    }
    slot := table[k].0;
  }

  // ---------------------------------------------------------------- layout

  /** The merging coder owns the final output and nothing else; all others are single-stream. */
  ghost predicate MergesLast(g: FolderGraph, coders: seq<CoderInfo>, bcj2: nat) {
    && bcj2 < |coders|
    && Owned(g.outputOwners, bcj2) == [g.finalOutput]
    && forall c :: 0 <= c < |coders| && c != bcj2 ==> IsSingle(coders[c])
  }

  /** Link a of a path: coder path[a] has one input and one output, which feeds the next input. */
  ghost predicate LinkAt(g: FolderGraph, path: seq<nat>, i: nat, a: nat)
    requires a < |path|
  {
    var next := NextInput(g, path, i, a + 1);
    && |Owned(g.inputOwners, path[a])| == 1
    && |Owned(g.outputOwners, path[a])| == 1
    && next < |g.inputSources|
    && g.inputSources[next] == Some(Owned(g.outputOwners, path[a])[0])
  }

  /** The input that receives the first a coders of the path. */
  ghost function NextInput(g: FolderGraph, path: seq<nat>, i: nat, a: nat): nat
    requires a <= |path|
  {
    if a == |path| then i
    else if Owned(g.inputOwners, path[a]) == [] then |g.inputSources|
    else Owned(g.inputOwners, path[a])[0]
  }

  lemma {:induction false} FeedsLinks(g: FolderGraph, path: seq<nat>, slot: nat, i: nat, a: nat)
    requires FeedsThrough(g, path, slot, i) && a < |path|
    ensures LinkAt(g, path, i, a)
  {
    var last := |path| - 1;
    if a < last {
      var j := Owned(g.inputOwners, path[last])[0];
      FeedsLinks(g, path[..last], slot, j, a);
      assert NextInput(g, path[..last], j, a + 1) == NextInput(g, path, i, a + 1);
    }
  }

  lemma {:induction false} FeedsHead(g: FolderGraph, path: seq<nat>, slot: nat, i: nat)
    requires FeedsThrough(g, path, slot, i)
    ensures var head := NextInput(g, path, i, 0);
      head < |g.inputSources| && g.inputSources[head].None? && FindSlot(g.packedInputs, head) == slot
  {
    if path != [] {
      var last := |path| - 1;
      FeedsHead(g, path[..last], slot, Owned(g.inputOwners, path[last])[0]);
    }
  }

  lemma NextInputOwner(g: FolderGraph, path: seq<nat>, slot: nat, i: nat, a: nat)
    requires Evaluable(g) && FeedsThrough(g, path, slot, i) && a < |path|
    ensures var next := NextInput(g, path, i, a);
      next < |g.inputOwners| && g.inputOwners[next] == path[a]
  {
    FeedsLinks(g, path, slot, i, a);
    assert Owned(g.inputOwners, path[a])[0] in Owned(g.inputOwners, path[a]);
  }

  /** Two paths into the merging coder that share a coder are the same path at the same place. */
  lemma {:induction false} SharedCoder(
      g: FolderGraph, bcj2: nat, p: seq<nat>, s: nat, i: nat, a: nat, q: seq<nat>, t: nat, j: nat, d: nat)
    requires WellFormed(g) && FeedsThrough(g, p, s, i) && FeedsThrough(g, q, t, j)
    requires g.inputOwners[i] == bcj2 && g.inputOwners[j] == bcj2 && bcj2 !in p && bcj2 !in q
    requires a < |p| && d < |q| && p[a] == q[d]
    ensures i == j && |p| - a == |q| - d
    decreases |p| - a
  {
    FeedsLinks(g, p, s, i, a);
    FeedsLinks(g, q, t, j, d);
    assert NextInput(g, p, i, a + 1) == NextInput(g, q, j, d + 1);
    if a + 1 < |p| {
      NextInputOwner(g, p, s, i, a + 1);
    }
    if d + 1 < |q| {
      NextInputOwner(g, q, t, j, d + 1);
    }
    if a + 1 < |p| && d + 1 < |q| {
      SharedCoder(g, bcj2, p, s, i, a + 1, q, t, j, d + 1);
    }
  }

  lemma HeadOwner(g: FolderGraph, path: seq<nat>, slot: nat, i: nat)
    requires Evaluable(g) && FeedsThrough(g, path, slot, i)
    ensures var head := NextInput(g, path, i, 0);
      head < |g.inputOwners| && g.inputOwners[head] == if path == [] then g.inputOwners[i] else path[0]
  {
    FeedsHead(g, path, slot, i);
    if path != [] {
      NextInputOwner(g, path, slot, i, 0);
    }
  }

  /** Paths into different inputs of the merging coder start at different packed streams. */
  lemma DistinctSlots(
      g: FolderGraph, bcj2: nat, p: seq<nat>, s: nat, i: nat, q: seq<nat>, t: nat, j: nat)
    requires WellFormed(g) && FeedsThrough(g, p, s, i) && FeedsThrough(g, q, t, j) && i != j
    requires g.inputOwners[i] == bcj2 && g.inputOwners[j] == bcj2 && bcj2 !in p && bcj2 !in q
    ensures s != t
  {
    FeedsHead(g, p, s, i);
    FeedsHead(g, q, t, j);
    HeadOwner(g, p, s, i);
    HeadOwner(g, q, t, j);
    assert Fed(g, NextInput(g, p, i, 0)) && Fed(g, NextInput(g, q, j, 0));
    if s == t && p != [] && q != [] {
      SharedCoder(g, bcj2, p, s, i, 0, q, t, j, 0);
    }
  }

  // ---------------------------------------------------------------- the whole layout

  function Bcj2Positions(coders: seq<CoderInfo>): (r: seq<nat>)
    ensures forall c: nat :: c in r <==> c < |coders| && IsBcj2(coders[c])
  {
    if coders == [] then [] else
      var last := |coders| - 1;
      var init := Bcj2Positions(coders[..last]);
      if IsBcj2(coders[last]) then init + [last] else init
  }

  function ChannelCoders(layout: Bcj2Layout): seq<nat> {
    Indices(layout.main.coders) + Indices(layout.call.coders)
    + Indices(layout.jump.coders) + Indices(layout.control.coders)
  }

  /** Channel k traces the k-th input of the merging coder. */
  ghost predicate ChannelsTraced(g: FolderGraph, bcj2: nat, layout: Bcj2Layout) {
    && |Owned(g.inputOwners, bcj2)| == 4
    && forall k :: 0 <= k < 4 ==>
         ChannelFor(g, layout.Channel(k), bcj2, Owned(g.inputOwners, bcj2)[k])
  }

  /** The four channels split the other coders, and their slots are all the packed streams. */
  ghost predicate LayoutFor(g: FolderGraph, coders: seq<CoderInfo>, bcj2: nat, layout: Bcj2Layout) {
    && ChannelsTraced(g, bcj2, layout)
    && Distinct(ChannelCoders(layout))
    && (forall c: nat :: c < |coders| ==> (c == bcj2 <==> c !in ChannelCoders(layout)))
    && |g.packedInputs| == 4
    && SlotsDistinct(layout)
    && forall k :: 0 <= k < 4 ==> layout.Channel(k).packed < 4
  }

  ghost predicate SlotsDistinct(layout: Bcj2Layout) {
    forall j, k :: 0 <= j < k < 4 ==> layout.Channel(j).packed != layout.Channel(k).packed
  }

  lemma ChannelOfInput(g: FolderGraph, bcj2: nat, layout: Bcj2Layout, k: nat)
    requires ChannelsTraced(g, bcj2, layout) && k < 4
    ensures ChannelFor(g, layout.Channel(k), bcj2, Owned(g.inputOwners, bcj2)[k])
    ensures Owned(g.inputOwners, bcj2)[k] < |g.inputOwners|
    ensures g.inputOwners[Owned(g.inputOwners, bcj2)[k]] == bcj2
  {
    assert Owned(g.inputOwners, bcj2)[k] in Owned(g.inputOwners, bcj2);
  }

  lemma {:induction false} PathUnique(g: FolderGraph, path: seq<nat>, slot: nat, path': seq<nat>, slot': nat, i: nat)
    requires FeedsThrough(g, path, slot, i) && FeedsThrough(g, path', slot', i)
    ensures path == path' && slot == slot'
    decreases path
  {
    if path != [] {
      var last, last' := |path| - 1, |path'| - 1;
      var o := g.inputSources[i].value;
      assert o in Owned(g.outputOwners, path[last]) && o in Owned(g.outputOwners, path'[last']);
      PathUnique(g, path[..last], slot, path'[..last'], slot', Owned(g.inputOwners, path[last])[0]);
      assert path == path[..last] + [path[last]] && path' == path'[..last'] + [path'[last']];
    }
  }

  lemma ChannelUnique(g: FolderGraph, channel: Bcj2Channel, channel': Bcj2Channel, bcj2: nat, i: nat)
    requires ChannelFor(g, channel, bcj2, i) && ChannelFor(g, channel', bcj2, i)
    ensures channel == channel'
  {
    var path, path' := Indices(channel.coders), Indices(channel'.coders);
    PathUnique(g, path, channel.packed, path', channel'.packed, i);
    forall k | 0 <= k < |channel.coders| ensures channel.coders[k] == channel'.coders[k] {
      assert path[k] == path'[k] && OutputRecorded(g, channel.coders[k]) && OutputRecorded(g, channel'.coders[k]);
    }
  }

  /** A graph has at most one layout. */
  lemma LayoutUnique(g: FolderGraph, bcj2: nat, layout: Bcj2Layout, layout': Bcj2Layout)
    requires ChannelsTraced(g, bcj2, layout) && ChannelsTraced(g, bcj2, layout')
    ensures layout == layout'
  {
    forall k | 0 <= k < 4 ensures layout.Channel(k) == layout'.Channel(k) {
      ChannelUnique(g, layout.Channel(k), layout'.Channel(k), bcj2, Owned(g.inputOwners, bcj2)[k]);
    }
    assert layout.Channel(0) == layout.main && layout'.Channel(0) == layout'.main;
    assert layout.Channel(1) == layout.call && layout'.Channel(1) == layout'.call;
    assert layout.Channel(2) == layout.jump && layout'.Channel(2) == layout'.jump;
    assert layout.Channel(3) == layout.control && layout'.Channel(3) == layout'.control;
  }

  /** No coder stands in two channels, or twice in one. */
  lemma ChannelsDisjoint(g: FolderGraph, bcj2: nat, layout: Bcj2Layout, j: nat, a: nat, k: nat, d: nat)
    requires WellFormed(g) && ChannelsTraced(g, bcj2, layout) && j < 4 && k < 4
    requires a < |layout.Channel(j).coders| && d < |layout.Channel(k).coders|
    requires layout.Channel(j).coders[a].index == layout.Channel(k).coders[d].index
    ensures j == k && a == d
  {
    ChannelOfInput(g, bcj2, layout, j);
    ChannelOfInput(g, bcj2, layout, k);
    var ins := Owned(g.inputOwners, bcj2);
    var p, q := Indices(layout.Channel(j).coders), Indices(layout.Channel(k).coders);
    SharedCoder(g, bcj2, p, layout.Channel(j).packed, ins[j], a, q, layout.Channel(k).packed, ins[k], d);
  }

  lemma SlotsAreDistinct(g: FolderGraph, bcj2: nat, layout: Bcj2Layout)
    requires WellFormed(g) && ChannelsTraced(g, bcj2, layout)
    ensures SlotsDistinct(layout)
  {
    var ins := Owned(g.inputOwners, bcj2);
    forall j, k | 0 <= j < k < 4 ensures layout.Channel(j).packed != layout.Channel(k).packed {
      ChannelOfInput(g, bcj2, layout, j);
      ChannelOfInput(g, bcj2, layout, k);
      DistinctSlots(g, bcj2, Indices(layout.Channel(j).coders), layout.Channel(j).packed, ins[j],
                    Indices(layout.Channel(k).coders), layout.Channel(k).packed, ins[k]);
    }
  }

  lemma SlotInTable(g: FolderGraph, bcj2: nat, layout: Bcj2Layout, k: nat)
    requires WellFormed(g) && ChannelsTraced(g, bcj2, layout) && k < 4
    ensures layout.Channel(k).packed < |g.packedInputs|
  {
    ChannelOfInput(g, bcj2, layout, k);
    var i := Owned(g.inputOwners, bcj2)[k];
    var path := Indices(layout.Channel(k).coders);
    FeedsHead(g, path, layout.Channel(k).packed, i);
    assert Fed(g, NextInput(g, path, i, 0));
  }

  /** In a graph that merges last, following outputs from any coder ends in some channel. */
  lemma {:induction false} EveryCoderInChannel(
      g: FolderGraph, coders: seq<CoderInfo>, bcj2: nat, layout: Bcj2Layout, c: nat) returns (k: nat, a: nat)
    requires Traceable(g, coders) && MergesLast(g, coders, bcj2) && ChannelsTraced(g, bcj2, layout)
    requires c < |coders| && c != bcj2
    ensures k < 4 && a < |layout.Channel(k).coders| && layout.Channel(k).coders[a].index == c
    decreases |g.executionOrder| - Rank(g, c)
  {
    var i := ConsumerOf(g, coders, bcj2, c);
    var t := g.inputOwners[i];
    SourceRanksLower(g, i);
    if t == bcj2 {
      assert i in Owned(g.inputOwners, bcj2);
      k :| 0 <= k < 4 && Owned(g.inputOwners, bcj2)[k] == i;
      ChannelOfInput(g, bcj2, layout, k);
      a := LastCoderProduces(g, layout.Channel(k), bcj2, i, c);
    } else {
      var d;
      k, d := EveryCoderInChannel(g, coders, bcj2, layout, t);
      ChannelOfInput(g, bcj2, layout, k);
      var path := Indices(layout.Channel(k).coders);
      var slot, input := layout.Channel(k).packed, Owned(g.inputOwners, bcj2)[k];
      SingleInputIs(g, coders, t, i);
      FeedsHead(g, path, slot, input);
      FeedsLinks(g, path, slot, input, d);
      if d > 0 {
        FeedsLinks(g, path, slot, input, d - 1);
        a := d - 1;
        assert Owned(g.outputOwners, path[a])[0] in Owned(g.outputOwners, path[a]);
      }
    }
  }

  lemma SingleInputIs(g: FolderGraph, coders: seq<CoderInfo>, c: nat, i: nat)
    requires Traceable(g, coders) && c < |coders| && IsSingle(coders[c])
    requires i < |g.inputOwners| && g.inputOwners[i] == c
    ensures Owned(g.inputOwners, c) == [i]
  {
    assert SizesMatch(g, coders, c);
    assert i in Owned(g.inputOwners, c);
  }

  /** The input that reads coder c, which is not the merging coder. */
  lemma ConsumerOf(g: FolderGraph, coders: seq<CoderInfo>, bcj2: nat, c: nat) returns (i: nat)
    requires Traceable(g, coders) && MergesLast(g, coders, bcj2) && c < |coders| && c != bcj2
    ensures i < |g.inputSources| && g.inputSources[i].Some?
    ensures g.inputSources[i].value < |g.outputOwners| && g.outputOwners[g.inputSources[i].value] == c
  {
    assert SizesMatch(g, coders, c);
    var o := Owned(g.outputOwners, c)[0];
    assert o in Owned(g.outputOwners, c);
    assert g.finalOutput in Owned(g.outputOwners, bcj2);
    assert Consumed(g, o);
    i :| 0 <= i < |g.inputSources| && g.inputSources[i] == Some(o);
  }

  lemma LastCoderProduces(g: FolderGraph, channel: Bcj2Channel, bcj2: nat, i: nat, c: nat)
    returns (a: nat)
    requires Evaluable(g) && ChannelFor(g, channel, bcj2, i) && g.inputSources[i].Some?
    requires g.inputSources[i].value < |g.outputOwners| && g.outputOwners[g.inputSources[i].value] == c
    ensures a < |channel.coders| && channel.coders[a].index == c
  {
    var path := Indices(channel.coders);
    a := |path| - 1;
    SingleOutput(g, path[a], Owned(g.inputOwners, path[a])[0], g.inputSources[i].value);
  }

  /** A channel coder is a single-stream coder. */
  lemma ChannelCodersAreSingle(
      g: FolderGraph, coders: seq<CoderInfo>, bcj2: nat, layout: Bcj2Layout, k: nat, a: nat)
    requires Traceable(g, coders) && ChannelsTraced(g, bcj2, layout) && k < 4
    requires a < |layout.Channel(k).coders|
    ensures var c := layout.Channel(k).coders[a].index; c < |coders| && c != bcj2 && IsSingle(coders[c])
  {
    ChannelOfInput(g, bcj2, layout, k);
    var path := Indices(layout.Channel(k).coders);
    var i := Owned(g.inputOwners, bcj2)[k];
    FeedsLinks(g, path, layout.Channel(k).packed, i, a);
    assert Owned(g.inputOwners, path[a])[0] in Owned(g.inputOwners, path[a]);
    assert path[a] in path;
    assert SizesMatch(g, coders, path[a]);
  }

  /** Place i of the concatenated channels is place a of channel k. */
  lemma ChannelPlace(layout: Bcj2Layout, i: nat) returns (k: nat, a: nat)
    requires i < |ChannelCoders(layout)|
    ensures k < 4 && a < |layout.Channel(k).coders|
    ensures ChannelCoders(layout)[i] == layout.Channel(k).coders[a].index
    ensures i == ChannelOffset(layout, k) + a
  {
    var m, c, j := |layout.main.coders|, |layout.call.coders|, |layout.jump.coders|;
    if i < m {
      k, a := 0, i;
    } else if i < m + c {
      k, a := 1, i - m;
    } else if i < m + c + j {
      k, a := 2, i - m - c;
    } else {
      k, a := 3, i - m - c - j;
    }
  }

  ghost function ChannelOffset(layout: Bcj2Layout, k: nat): nat
    requires k < 4
  {
    var m, c, j := |layout.main.coders|, |layout.call.coders|, |layout.jump.coders|;
    if k == 0 then 0 else if k == 1 then m else if k == 2 then m + c else m + c + j
  }

  lemma PlaceInChannels(layout: Bcj2Layout, k: nat, a: nat)
    requires k < 4 && a < |layout.Channel(k).coders|
    ensures layout.Channel(k).coders[a].index in ChannelCoders(layout)
  {
    assert Indices(layout.Channel(k).coders)[a] in Indices(layout.Channel(k).coders);
  }

  lemma TracedCodersDistinct(g: FolderGraph, bcj2: nat, layout: Bcj2Layout)
    requires WellFormed(g) && ChannelsTraced(g, bcj2, layout)
    ensures Distinct(ChannelCoders(layout))
  {
    var all := ChannelCoders(layout);
    forall i, j | 0 <= i < j < |all| ensures all[i] != all[j] {
      var k, a := ChannelPlace(layout, i);
      var l, d := ChannelPlace(layout, j);
      if all[i] == all[j] {
        ChannelsDisjoint(g, bcj2, layout, k, a, l, d);
      }
    }
  }

  /** Every other coder is covered exactly when they are all single-stream coders. */
  lemma CoveredIffMergesLast(g: FolderGraph, coders: seq<CoderInfo>, bcj2: nat, layout: Bcj2Layout)
    requires Traceable(g, coders) && ChannelsTraced(g, bcj2, layout)
    requires bcj2 < |coders| && Owned(g.outputOwners, bcj2) == [g.finalOutput]
    ensures (forall c: nat :: c < |coders| && c != bcj2 ==> c in ChannelCoders(layout))
            <==> MergesLast(g, coders, bcj2)
    ensures bcj2 !in ChannelCoders(layout)
  {
    forall c | c in ChannelCoders(layout) ensures c < |coders| && c != bcj2 && IsSingle(coders[c]) {
      var i: nat :| i < |ChannelCoders(layout)| && ChannelCoders(layout)[i] == c;
      var k, a := ChannelPlace(layout, i);
      ChannelCodersAreSingle(g, coders, bcj2, layout, k, a);
    }
    if MergesLast(g, coders, bcj2) {
      forall c: nat | c < |coders| && c != bcj2 ensures c in ChannelCoders(layout) {
        var k, a := EveryCoderInChannel(g, coders, bcj2, layout, c);
        PlaceInChannels(layout, k, a);
      }
    }
  }

  function Slots(layout: Bcj2Layout): seq<nat> {
    [layout.main.packed, layout.call.packed, layout.jump.packed, layout.control.packed]
  }

  lemma SlotsByChannel(layout: Bcj2Layout)
    ensures |Slots(layout)| == 4 && forall k :: 0 <= k < 4 ==> Slots(layout)[k] == layout.Channel(k).packed
  {
    assert layout.Channel(0) == layout.main && layout.Channel(1) == layout.call;
    assert layout.Channel(2) == layout.jump && layout.Channel(3) == layout.control;
  }

  lemma SlotsUsed(g: FolderGraph, bcj2: nat, layout: Bcj2Layout)
    requires WellFormed(g) && ChannelsTraced(g, bcj2, layout)
    ensures Distinct(Slots(layout)) && Below(Slots(layout), |g.packedInputs|)
  {
    hide WellFormed, ChannelsTraced;
    SlotsByChannel(layout);
    SlotsAreDistinct(g, bcj2, layout);
    forall k | 0 <= k < 4 ensures Slots(layout)[k] < |g.packedInputs| {
      SlotInTable(g, bcj2, layout, k);
    }
  }

  /** Four slots are used; a fifth would feed an input whose coder no channel starts with. */
  lemma FourPackedStreams(g: FolderGraph, coders: seq<CoderInfo>, bcj2: nat, layout: Bcj2Layout)
    requires Traceable(g, coders) && ChannelsTraced(g, bcj2, layout) && MergesLast(g, coders, bcj2)
    ensures |g.packedInputs| == 4
  {
    SlotsUsed(g, bcj2, layout);
    SlotsByChannel(layout);
    hide Traceable, ChannelsTraced, MergesLast, Slots, Distinct, Below;
    DistinctBelow(Slots(layout), |g.packedInputs|);
    forall s: nat | s < |g.packedInputs| ensures s in Slots(layout) {
      var k := SlotStartsChannel(g, coders, bcj2, layout, s);
    }
    DistinctSize(Slots(layout));
    SubsetSize(UpTo(|g.packedInputs|), Elements(Slots(layout)));
  }

  /** Every packed slot is where some channel starts. */
  lemma SlotStartsChannel(
      g: FolderGraph, coders: seq<CoderInfo>, bcj2: nat, layout: Bcj2Layout, s: nat) returns (k: nat)
    requires Traceable(g, coders) && ChannelsTraced(g, bcj2, layout) && MergesLast(g, coders, bcj2)
    requires s < |g.packedInputs|
    ensures k < 4 && layout.Channel(k).packed == s
  {
    var i := g.packedInputs[s].1;
    var c := g.inputOwners[i];
    assert FindSlot(g.packedInputs, i) == s;
    if c == bcj2 {
      assert i in Owned(g.inputOwners, bcj2);
      k :| 0 <= k < 4 && Owned(g.inputOwners, bcj2)[k] == i;
      ChannelOfInput(g, bcj2, layout, k);
    } else {
      var a;
      k, a := EveryCoderInChannel(g, coders, bcj2, layout, c);
      ChannelOfInput(g, bcj2, layout, k);
      var path, input := Indices(layout.Channel(k).coders), Owned(g.inputOwners, bcj2)[k];
      SingleInputIs(g, coders, c, i);
      FeedsHead(g, path, layout.Channel(k).packed, input);
      if a > 0 {
        FeedsLinks(g, path, layout.Channel(k).packed, input, a - 1);
      }
    }
  }

  /** The layout is found exactly for graphs with one BCJ2 coder that merges single-stream coders last. */
  method Layout(g: FolderGraph, folder: Folder) returns (r: Result<Option<Bcj2Layout>, R7zError>)
    requires GraphFor(g, folder) && ArityOk(folder.coders)
    ensures r == Success(None) <==> Bcj2Positions(folder.coders) == []
    ensures r.Success? && r.value.Some? <==>
            |Bcj2Positions(folder.coders)| == 1
            && MergesLast(g, folder.coders, Bcj2Positions(folder.coders)[0])
    ensures r.Success? && r.value.Some? ==>
            LayoutFor(g, folder.coders, Bcj2Positions(folder.coders)[0], r.value.value)
    ensures r.Failure? ==> r.error == InvalidFolderGraph
  {
    var coders, positions := folder.coders, Bcj2Positions(folder.coders);
    if positions == [] {
      return Success(None);
    }
    GraphIsTraceable(g, folder);
    var bcj2 := positions[0];
    assert bcj2 in positions;
    Bcj2Streams(g, coders, bcj2);
    if |positions| > 1 || g.outputOwners[g.finalOutput] != bcj2 {
      return Failure(InvalidFolderGraph);
    }
    FinalIsOnlyOutput(g, bcj2);
    var channels := TraceAll(g, coders, bcj2);
    if channels.Failure? {
      return Failure(channels.error);
    }
    var layout := channels.value;
    CoveredIffMergesLast(g, coders, bcj2, layout);
    TracedCodersDistinct(g, bcj2, layout);
    if forall c :: 0 <= c < |coders| ==> c == bcj2 || c in ChannelCoders(layout) {
      FourPackedStreams(g, coders, bcj2, layout);
      SlotsAreDistinct(g, bcj2, layout);
      forall k | 0 <= k < 4 ensures layout.Channel(k).packed < 4 {
        SlotInTable(g, bcj2, layout, k);
      }
      return Success(Some(layout));
    }
    r := Failure(InvalidFolderGraph);
  }

  /** The registry gives the merging coder four inputs and one output. */
  lemma Bcj2Streams(g: FolderGraph, coders: seq<CoderInfo>, bcj2: nat)
    requires Traceable(g, coders) && ArityOk(coders) && bcj2 < |coders| && IsBcj2(coders[bcj2])
    ensures |Owned(g.inputOwners, bcj2)| == 4 && |Owned(g.outputOwners, bcj2)| == 1
  {
    assert StreamArity(coders[bcj2]).Success?;
    assert SizesMatch(g, coders, bcj2);
  }

  lemma FinalIsOnlyOutput(g: FolderGraph, bcj2: nat)
    requires WellFormed(g) && |Owned(g.outputOwners, bcj2)| == 1
    requires g.outputOwners[g.finalOutput] == bcj2
    ensures Owned(g.outputOwners, bcj2) == [g.finalOutput]
  {
    assert g.finalOutput in Owned(g.outputOwners, bcj2);
  }

  method TraceAll(g: FolderGraph, coders: seq<CoderInfo>, bcj2: nat)
    returns (r: Result<Bcj2Layout, R7zError>)
    requires Traceable(g, coders) && |Owned(g.inputOwners, bcj2)| == 4
    ensures r.Success? ==> ChannelsTraced(g, bcj2, r.value)
    ensures r.Failure? ==> r.error == InvalidFolderGraph && !MergesLast(g, coders, bcj2)
  {
    var ins := Owned(g.inputOwners, bcj2);
    assert forall k :: 0 <= k < 4 ==> ins[k] in ins;
    var main := TraceChannel(g, coders, bcj2, ins[0]);
    var call := TraceChannel(g, coders, bcj2, ins[1]);
    var jump := TraceChannel(g, coders, bcj2, ins[2]);
    var control := TraceChannel(g, coders, bcj2, ins[3]);
    if main.Failure? || call.Failure? || jump.Failure? || control.Failure? {
      return Failure(InvalidFolderGraph);
    }
    r := Success(Bcj2Layout(main.value, call.value, jump.value, control.value));
  }

  // ---------------------------------------------------------------- meaning

  ghost function ChannelOutput<T(!new)>(
      run: (nat, seq<T>, nat) -> T, packed: seq<T>, channel: Bcj2Channel): T
    requires channel.packed < |packed|
  {
    Pipe(run, Indices(channel.coders), packed[channel.packed])
  }

  ghost function ChannelOutputs<T(!new)>(
      run: (nat, seq<T>, nat) -> T, packed: seq<T>, layout: Bcj2Layout): seq<T>
    requires forall k :: 0 <= k < 4 ==> layout.Channel(k).packed < |packed|
  {
    seq(4, k requires 0 <= k < 4 => ChannelOutput(run, packed, layout.Channel(k)))
  }

  lemma ChannelsDeliver<T(!new)>(
      g: FolderGraph, bcj2: nat, layout: Bcj2Layout,
      run: (nat, seq<T>, nat) -> T, packed: seq<T>, env: map<nat, T>)
    requires Evaluable(g) && |packed| == |g.packedInputs| && Solves(g, run, packed, env)
    requires ChannelsTraced(g, bcj2, layout)
    ensures AllReady(g, env, bcj2)
    ensures forall k :: 0 <= k < 4 ==> layout.Channel(k).packed < |packed|
    ensures InputValues(g, packed, env, bcj2) == ChannelOutputs(run, packed, layout)
  {
    var ins := Owned(g.inputOwners, bcj2);
    forall k | 0 <= k < 4
      ensures Ready(g, env, ins[k]) && layout.Channel(k).packed < |packed|
      ensures InputValue(g, packed, env, ins[k]) == ChannelOutput(run, packed, layout.Channel(k))
    {
      ChannelOfInput(g, bcj2, layout, k);
      PathValue(g, run, packed, env, Indices(layout.Channel(k).coders), layout.Channel(k).packed, ins[k]);
    }
    forall i: nat | i < |g.inputOwners| && g.inputOwners[i] == bcj2 ensures Ready(g, env, i) {
      assert i in ins;
    }
  }

  /** Merging the four piped channels computes the folder's meaning. */
  lemma Bcj2ComputesMeaning<T(!new)>(
      g: FolderGraph, coders: seq<CoderInfo>, bcj2: nat, layout: Bcj2Layout,
      run: (nat, seq<T>, nat) -> T, packed: seq<T>)
    requires Traceable(g, coders) && MergesLast(g, coders, bcj2) && LayoutFor(g, coders, bcj2, layout)
    requires |packed| == |g.packedInputs|
    ensures |packed| == 4
    ensures Meaning(g, run, packed) == run(bcj2, ChannelOutputs(run, packed, layout), 0)
  {
    var env := Evaluate(g, run, packed, |g.executionOrder|);
    EvaluationSolves(g, run, packed);
    ChannelsDeliver(g, bcj2, layout, run, packed, env);
    assert SolvedAt(g, run, packed, env, g.finalOutput);
    FinalIsLocalZero(g, bcj2);
  }

  lemma FinalIsLocalZero(g: FolderGraph, bcj2: nat)
    requires g.finalOutput < |g.outputOwners| && Owned(g.outputOwners, bcj2) == [g.finalOutput]
    ensures g.outputOwners[g.finalOutput] == bcj2 && Local(g.outputOwners, g.finalOutput) == 0
  {
    assert g.finalOutput in Owned(g.outputOwners, bcj2);
    var earlier := Owned(g.outputOwners[..g.finalOutput], bcj2);
    NonEmptyHasMember(earlier);
    assert forall x :: x in earlier ==> x < g.finalOutput && x in Owned(g.outputOwners, bcj2);
  }
}
