/** The byte-swapping reader refines reversing every full group of the whole input. */
module ByteSwaps {
  import opened Wrappers
  import opened Words
  import opened Readers

  /** Groups are two or four bytes wide. */
  predicate IsWidth(width: nat) {
    width == 2 || width == 4
  }

  /** The length of the full groups among n bytes. */
  function Whole(n: nat, width: nat): (r: nat)
    requires IsWidth(width)
    ensures r <= n < r + width
  {
    if n < width then 0 else width + Whole(n - width, width)
  }

  /** This is the quotient by the width, times the width. */
  lemma {:induction false} WholeByDivision(n: nat)
    ensures Whole(n, 2) == n / 2 * 2 && Whole(n, 4) == n / 4 * 4
  {
    if n >= 4 {
      WholeByDivision(n - 4);
      assert Whole(n, 2) == 2 + Whole(n - 2, 2) == 4 + Whole(n - 4, 2);
    }
  }

  predicate Aligned(n: nat, width: nat)
    requires IsWidth(width)
  {
    n == 0 || (n >= width && Aligned(n - width, width))
  }

  function Reversed(s: Bytes): (r: Bytes)
    ensures |r| == |s| && forall i :: 0 <= i < |s| ==> r[i] == s[|s| - 1 - i]
  {
    seq(|s|, i requires 0 <= i < |s| => s[|s| - 1 - i])
  }

  /** Every full group reversed; a partial group at the end is left as it is. */
  function SwapGroups(s: Bytes, width: nat): (r: Bytes)
    requires IsWidth(width)
    ensures |r| == |s|
  {
    if |s| < width then s else Reversed(s[..width]) + SwapGroups(s[width..], width)
  }

  lemma AlignedFacts(n: nat, width: nat)
    requires IsWidth(width)
    ensures Aligned(0, width)
    ensures Aligned(n, width) && n > 0 ==> n >= width && Aligned(n - width, width)
    ensures Aligned(n, width) <==> Aligned(n + width, width)
  {
  }

  lemma {:induction false} WholeIsAligned(n: nat, width: nat)
    requires IsWidth(width)
    ensures Aligned(Whole(n, width), width)
  {
    if n >= width {
      WholeIsAligned(n - width, width);
    }
  }

  lemma {:induction false} AlignedSum(n: nat, m: nat, width: nat)
    requires IsWidth(width) && Aligned(n, width)
    ensures Aligned(m, width) <==> Aligned(n + m, width)
  {
    if n > 0 {
      AlignedSum(n - width, m, width);
      AlignedFacts(n - width + m, width);
    }
  }

  lemma SwapUnfold(s: Bytes, width: nat)
    requires IsWidth(width) && |s| >= width
    ensures SwapGroups(s, width) == Reversed(s[..width]) + SwapGroups(s[width..], width)
  {
  }

  lemma SwapNothing(width: nat)
    requires IsWidth(width)
    ensures SwapGroups([], width) == []
  {
  }

  lemma {:induction false} SwapAppend(s: Bytes, t: Bytes, width: nat)
    requires IsWidth(width) && Aligned(|s|, width)
    ensures SwapGroups(s + t, width) == SwapGroups(s, width) + SwapGroups(t, width)
  {
    hide Aligned, Reversed, SwapGroups;
    AlignedFacts(|s|, width);
    if s == [] {
      SwapNothing(width);
      assert s + t == t && [] + SwapGroups(t, width) == SwapGroups(t, width);
    } else {
      var group, rest := s[..width], s[width..];
      SwapAppend(rest, t, width);
      SwapUnfold(s, width);
      SwapUnfold(s + t, width);
      assert (s + t)[..width] == group && (s + t)[width..] == rest + t;
      Grouped(Reversed(group), SwapGroups(rest, width), SwapGroups(t, width));
    }
  }

  lemma WholeOfShort(n: nat, width: nat)
    requires IsWidth(width)
    ensures Whole(n, width) == 0 <==> n < width
  {
  }

  lemma SwapShort(s: Bytes, width: nat)
    requires IsWidth(width)
    ensures |s| < width ==> SwapGroups(s, width) == s
  {
  }

  /** Swapping twice restores the input. */
  lemma {:induction false} SwapTwice(s: Bytes, width: nat)
    requires IsWidth(width)
    ensures SwapGroups(SwapGroups(s, width), width) == s
  {
    if |s| >= width {
      SwapTwice(s[width..], width);
      var r := SwapGroups(s, width);
      assert r[..width] == Reversed(s[..width]) && r[width..] == SwapGroups(s[width..], width);
      assert Reversed(r[..width]) == s[..width];
    }
  }

  /** Reverses one group in place. */
  method SwapGroup(bytes: array<byte>, at: nat, width: nat)
    requires IsWidth(width) && at + width <= bytes.Length
    modifies bytes
    ensures bytes[..at] == old(bytes[..at]) && bytes[at + width..] == old(bytes[at + width..])
    ensures bytes[at..at + width] == Reversed(old(bytes[at..at + width]))
  {
    if width == 2 {
      bytes[at], bytes[at + 1] := bytes[at + 1], bytes[at];
    } else {
      bytes[at], bytes[at + 1], bytes[at + 2], bytes[at + 3]
        := bytes[at + 3], bytes[at + 2], bytes[at + 1], bytes[at];
    }
  }

  /** Reverses the groups in place, one after the other. */
  method SwapGroupsScalar(bytes: array<byte>, width: nat)
    requires IsWidth(width) && Aligned(bytes.Length, width)
    modifies bytes
    ensures bytes[..] == SwapGroups(old(bytes[..]), width)
  {
    hide Aligned, Reversed, SwapGroups;
    ghost var all := bytes[..];
    var at := 0;
    AlignedFacts(0, width);
    while at < bytes.Length
      invariant at <= bytes.Length && Aligned(at, width)
      invariant bytes[..at] == SwapGroups(all[..at], width) && bytes[at..] == all[at..]
    {
      StepFits(bytes.Length, at, width);
      assert bytes[at..at + width] == all[at..at + width] && bytes[at + width..] == all[at + width..] by {
        assert bytes[at..][..width] == all[at..][..width] && bytes[at..][width..] == all[at..][width..];
      }
      SwapGroup(bytes, at, width);
      OneGroup(all, at, width);
      assert bytes[..at + width] == bytes[..at] + bytes[at..at + width];
      at := at + width;
    }
    assert all[..bytes.Length] == all && bytes[..bytes.Length] == bytes[..];
  }

  lemma {:induction false} StepFits(n: nat, at: nat, width: nat)
    requires IsWidth(width) && Aligned(n, width) && Aligned(at, width) && at < n
    ensures at + width <= n && Aligned(at + width, width)
  {
    if at > 0 {
      StepFits(n - width, at - width, width);
    }
    AlignedFacts(at, width);
  }

  lemma OneGroup(all: Bytes, at: nat, width: nat)
    requires IsWidth(width) && Aligned(at, width) && at + width <= |all|
    ensures SwapGroups(all[..at + width], width) == SwapGroups(all[..at], width) + Reversed(all[at..at + width])
  {
    var group := all[at..at + width];
    SwapAppend(all[..at], group, width);
    assert all[..at + width] == all[..at] + group;
    assert group[..width] == group && group[width..] == [];
    assert SwapGroups(group, width) == Reversed(group) + SwapGroups([], width);
  }

  method Swapped(bytes: Bytes, width: nat) returns (r: Bytes)
    requires IsWidth(width) && Aligned(|bytes|, width)
    ensures r == SwapGroups(bytes, width)
  {
    var buffer := new byte[|bytes|](i requires 0 <= i < |bytes| => bytes[i]);
    assert buffer[..] == bytes;
    SwapGroupsScalar(buffer, width);
    r := buffer[..];
  }

  lemma FrontOfSlice(content: Bytes, base: nat, end: nat, count: nat)
    requires base <= base + count <= end <= |content|
    ensures content[..base] + content[base..end][..count] == content[..base + count]
  {
  }

  /** A whole group is swapped, a shorter one is left alone. */
  method SwappedIfWhole(bytes: Bytes, width: nat) returns (r: Bytes)
    requires IsWidth(width) && |bytes| <= width
    ensures r == SwapGroups(bytes, width)
  {
    if |bytes| == width {
      AlignedFacts(0, width);
      r := Swapped(bytes, width);
    } else {
      SwapShort(bytes, width);
      r := bytes;
    }
  }

  class ByteSwapReader {
    const inner: Source
    const width: nat
    /** Raw bytes of an incomplete group. */
    var pending: Bytes
    /** A swapped group, or the tail, that a small buffer could not take at once. */
    var output: Bytes
    var eof: bool
    /** Everything returned so far. */
    ghost var delivered: Bytes

    /** How much of the input has been transformed. */
    ghost function Base(): int
      reads this, inner
    {
      inner.position - |pending|
    }

    ghost predicate Valid()
      reads this, inner
    {
      && inner.Valid() && IsWidth(width) && |pending| < width
      && 0 <= Base() && pending == inner.content[Base()..inner.position]
      && delivered + output == SwapGroups(inner.content[..Base()], width)
      && (if eof then pending == [] && inner.position == |inner.content| else Aligned(Base(), width))
    }

    constructor (inner: Source, width: nat)
      requires inner.Valid() && inner.position == 0 && IsWidth(width)
      ensures Valid() && this.inner == inner && this.width == width && delivered == []
    {
      this.inner, this.width, pending, output, eof, delivered := inner, width, [], [], false, [];
      new;
      assert inner.content[..0] == [] && inner.content[0..0] == [];
    }

    /** What has been returned is always the beginning of the transformed input. */
    lemma DeliveredIsPrefix()
      requires Valid()
      ensures delivered <= SwapGroups(inner.content, width)
      ensures eof && output == [] ==> delivered == SwapGroups(inner.content, width)
    {
      var base := Base();
      if eof {
        assert inner.content[..base] == inner.content;
      } else {
        SwapAppend(inner.content[..base], inner.content[base..], width);
        assert inner.content == inner.content[..base] + inner.content[base..];
      }
      assert delivered <= delivered + output;
    }

    method DrainPendingOutput(size: nat) returns (r: Bytes)
      requires Valid()
      modifies this`output, this`delivered
      ensures Valid() && |r| <= size && delivered == old(delivered) + r
      ensures size > 0 && old(output) != [] ==> r != []
    {
      var count := if |output| < size then |output| else size;
      r := output[..count];
      assert delivered + output == (delivered + output[..count]) + output[count..];
      output := output[count..];
      delivered := delivered + r;
    }

    /** Raw bytes held outside the transformed part, up to a whole group. */
    ghost predicate Holding(raw: Bytes)
      reads this, inner
    {
      && inner.Valid() && IsWidth(width) && output == [] && |raw| <= inner.position
      && raw == inner.content[inner.position - |raw|..inner.position]
      && (Aligned(inner.position - |raw|, width) || (eof && raw == []))
      && delivered == SwapGroups(inner.content[..inner.position - |raw|], width)
      && (eof ==> inner.position == |inner.content|)
    }

    /** The transformed input grows by the front of the raw bytes, once they have been swapped. */
    lemma Grows(raw: Bytes, count: nat)
      requires Holding(raw) && count <= |raw| && (count == |raw| || Aligned(count, width))
      ensures var base := inner.position - |raw|;
        delivered + SwapGroups(raw[..count], width) == SwapGroups(inner.content[..base + count], width)
    {
      hide Aligned, Whole;
      var base := inner.position - |raw|;
      if raw == [] {
        assert delivered + SwapGroups([], width) == delivered && raw[..count] == [];
      } else {
        hide SwapGroups;
        SwapAppend(inner.content[..base], raw[..count], width);
        FrontOfSlice(inner.content, base, inner.position, count);
      }
    }

    /** Reads more raw bytes and notes the end of the input. */
    method ReadRaw(raw: Bytes, limit: nat) returns (r: Result<Bytes, R7zError>)
      requires Holding(raw) && limit > 0 && !eof
      modifies this`eof, inner
      ensures r.Success? ==> Holding(r.value) && |raw| <= |r.value| <= |raw| + limit
      ensures r.Success? ==> if eof then r.value == raw else |raw| < |r.value| && inner.position > old(inner.position)
      ensures r.Failure? ==> !eof && inner.Valid() && inner.position == old(inner.position)
      ensures inner.failures == old(inner.failures) + if r.Failure? then 1 else 0
    {
      hide SwapGroups, Whole, Aligned;
      var read := inner.Read(limit);
      if read.Failure? {
        return read;
      }
      eof := read.value == [];
      assert raw + read.value == inner.content[inner.position - |raw + read.value|..inner.position];
      r := Success(raw + read.value);
    }

    /** Reads until a whole group is pending or the input ends. */
    method Fill() returns (error: Option<R7zError>)
      requires Holding(pending) && |pending| < width
      modifies this`pending, this`eof, inner
      ensures Holding(pending) && (error.Some? ==> !eof && |pending| < width)
      ensures error.None? ==> if eof then |pending| < width else |pending| == width
      ensures inner.failures == old(inner.failures) + if error.Some? then 1 else 0
    {
      hide SwapGroups, Whole, Aligned;
      while |pending| < width && !eof
        invariant |pending| <= width && Holding(pending) && (eof ==> |pending| < width)
        invariant inner.failures == old(inner.failures)
        decreases !eof, |inner.content| - inner.position
      {
        var raw := ReadRaw(pending, width - |pending|);
        if raw.Failure? {
          return Some(raw.error);
        }
        pending := raw.value;
      }
      error := None;
    }

    /** Turns a whole group, or the tail at the end of the input, into output. */
    method Prepare()
      requires Holding(pending) && (if eof then |pending| < width else |pending| == width)
      modifies this`output, this`pending
      ensures Valid() && (old(pending) != [] ==> output != [])
      ensures old(pending) == [] ==> eof && output == []
    {
      hide SwapGroups, Whole, Aligned;
      ghost var raw := pending;
      assert delivered + SwapGroups(raw, width) == SwapGroups(inner.content[..inner.position], width) by {
        Grows(raw, |raw|);
        assert raw[..|raw|] == raw;
      }
      assert !eof ==> Aligned(inner.position, width) by { AlignedFacts(inner.position - |raw|, width); }
      var group := SwappedIfWhole(pending, width);
      output, pending := group, [];
      assert inner.content[inner.position..inner.position] == [];
    }

    /** One group, or the tail, becomes output. */
    method PrepareOutput() returns (error: Option<R7zError>)
      requires Valid() && output == []
      modifies this`output, this`pending, this`eof, inner
      ensures Valid() && (error.None? && output == [] ==> eof)
      ensures inner.failures == old(inner.failures) + if error.Some? then 1 else 0
    {
      hide SwapGroups, Whole, Aligned;
      assert delivered + output == delivered;
      error := Fill();
      if error.None? {
        Prepare();
      } else {
        assert delivered + output == delivered;
      }
    }

    /** For buffers smaller than a group: what has been prepared is handed out in parts. */
    method ReadSmall(size: nat) returns (r: Result<Bytes, R7zError>)
      requires Valid() && 0 < size
      modifies this, inner
      ensures Valid()
      ensures r.Success? ==> |r.value| <= size && delivered == old(delivered) + r.value
      ensures r.Success? && r.value == [] ==> eof && output == []
      ensures r.Failure? ==> delivered == old(delivered)
      ensures inner.failures == old(inner.failures) + if r.Failure? then 1 else 0
    {
      hide SwapGroups, Whole, Aligned;
      if output == [] {
        var error := PrepareOutput();
        if error.Some? {
          return Failure(error.value);
        }
        if output == [] {
          assert delivered + [] == delivered;
          return Success([]);
        }
      }
      var drained := DrainPendingOutput(size);
      r := Success(drained);
    }

    /**
     * Zero bytes into a nonempty buffer mean that the whole transformed input has been delivered, and
     * a read fails only when a read of the inner reader has failed.
     */
    method Read(size: nat) returns (r: Result<Bytes, R7zError>)
      requires Valid()
      modifies this, inner
      ensures Valid() && delivered <= SwapGroups(inner.content, width)
      ensures r.Success? ==> |r.value| <= size && delivered == old(delivered) + r.value
      ensures r.Success? && r.value == [] && size > 0 ==> delivered == SwapGroups(inner.content, width)
      ensures r.Failure? ==> delivered == old(delivered)
      ensures inner.failures == old(inner.failures) + if r.Failure? then 1 else 0
    {
      if size == 0 {
        DeliveredIsPrefix();
        assert delivered + [] == delivered;
        return Success([]);
      }
      if output != [] {
        var drained := DrainPendingOutput(size);
        DeliveredIsPrefix();
        return Success(drained);
      }
      if size < width {
        r := ReadSmall(size);
        DeliveredIsPrefix();
        return;
      }
      r := ReadLarge(size);
      DeliveredIsPrefix();
    }

    /** Hands out the whole groups of the raw bytes, or at the end the tail. */
    method HandOut(filled: Bytes) returns (r: Bytes)
      requires Holding(filled) && pending == []
      requires if eof then |filled| < width else Whole(|filled|, width) > 0
      modifies this`pending, this`delivered
      ensures Valid() && |r| <= |filled| && delivered == old(delivered) + r
      ensures r == [] ==> eof
    {
      hide SwapGroups, Aligned, Whole;
      var complete := Whole(|filled|, width);
      WholeIsAligned(|filled|, width);
      WholeOfShort(|filled|, width);
      assert delivered + output == delivered;
      if complete > 0 {
        AlignedSum(inner.position - |filled|, complete, width);
        Grows(filled, complete);
        r := Swapped(filled[..complete], width);
        pending := filled[complete..];
      } else {
        SwapShort(filled, width);
        Grows(filled, |filled|);
        assert filled[..|filled|] == filled;
        r := filled;
      }
      delivered := delivered + r;
      assert delivered + output == delivered;
    }

    /** For buffers that hold a group: whole groups go out at once, the rest waits as raw bytes. */
    method ReadLarge(size: nat) returns (r: Result<Bytes, R7zError>)
      requires Valid() && output == [] && width <= size
      modifies this, inner
      ensures Valid()
      ensures r.Success? ==> |r.value| <= size && delivered == old(delivered) + r.value
      ensures r.Success? && r.value == [] ==> eof && output == []
      ensures r.Failure? ==> delivered == old(delivered)
      ensures inner.failures == old(inner.failures) + if r.Failure? then 1 else 0
    {
      hide SwapGroups, Whole, Aligned;
      assert delivered + output == delivered;
      var filled := pending;
      pending := [];
      if eof {
        assert delivered + [] == delivered;
        return Success(filled);
      }
      while true
        invariant !eof && pending == [] && |filled| < width && Holding(filled) && delivered == old(delivered)
        invariant inner.failures == old(inner.failures)
        decreases |inner.content| - inner.position
      {
        var raw := ReadRaw(filled, size - |filled|);
        if raw.Failure? {
          pending := filled;
          assert delivered + output == delivered;
          return raw;
        }
        filled := raw.value;
        if Whole(|filled|, width) > 0 || eof {
          WholeOfShort(|filled|, width);
          var groups := HandOut(filled);
          return Success(groups);
        }
        WholeOfShort(|filled|, width);
      }
    }
  }
}
