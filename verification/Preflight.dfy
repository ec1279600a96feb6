/** Checking all folders of a metadata stream before any of them is decoded. */
module Preflights {
  import opened Wrappers
  import opened Words
  import opened PropertyTables
  import opened FolderLayouts

  function UnpackTotal(layouts: seq<FolderLayout>): nat {
    if layouts == [] then 0 else layouts[0].unpackSize + UnpackTotal(layouts[1..])
  }

  /** Every folder can be laid out, the tables are complete, and neither side exceeds the limit. */
  ghost predicate Passes(tables: Tables, limit: u64) {
    && Total(tables.pack.packSizes) <= limit
    && AllLaidOut(Items(tables, START)) && UnpackTotal(LayoutsOf(Items(tables, START))) <= limit
    && SubstreamCount(tables).Success?
  }

  ghost function Accepted(layouts: seq<FolderLayout>): (r: seq<Result<FolderLayout, R7zError>>)
    ensures |r| == |layouts|
  {
    seq(|layouts|, i requires 0 <= i < |layouts| => Success(layouts[i]))
  }

  lemma {:induction false} UnpackTotalAppend(a: seq<FolderLayout>, b: seq<FolderLayout>)
    ensures UnpackTotal(a + b) == UnpackTotal(a) + UnpackTotal(b)
  {
    if a == [] {
      assert a + b == b;
    } else {
      UnpackTotalAppend(a[1..], b);
      assert (a + b)[1..] == a[1..] + b;
    }
  }

  lemma {:induction false} OwnedStreamsAppend(a: seq<FolderLayout>, b: seq<FolderLayout>)
    ensures OwnedStreams(a + b) == OwnedStreams(a) + OwnedStreams(b)
  {
    hide StreamLayout.Count;
    if a == [] {
      assert a + b == b;
    } else {
      OwnedStreamsAppend(a[1..], b);
      assert (a + b)[1..] == a[1..] + b;
    }
  }

  lemma OneMoreAccepted(seen: seq<FolderLayout>, layout: FolderLayout, left: seq<Result<FolderLayout, R7zError>>)
    requires left != [] && left[0] == Success(layout)
    ensures Accepted(seen) + left == Accepted(seen + [layout]) + left[1..]
    ensures UnpackTotal(seen + [layout]) == UnpackTotal(seen) + layout.unpackSize
    ensures OwnedStreams(seen + [layout]) == OwnedStreams(seen) + layout.streams.Count()
  {
    hide StreamLayout.Count;
    UnpackTotalAppend(seen, [layout]);
    OwnedStreamsAppend(seen, [layout]);
    assert Accepted(seen + [layout]) == Accepted(seen) + [left[0]];
    assert left == [left[0]] + left[1..];
  }

  lemma SeenIsPart(seen: seq<FolderLayout>, left: seq<Result<FolderLayout, R7zError>>)
    requires AllLaidOut(Accepted(seen) + left)
    ensures UnpackTotal(seen) <= UnpackTotal(LayoutsOf(Accepted(seen) + left))
    ensures left == [] ==> LayoutsOf(Accepted(seen) + left) == seen
  {
    var all := LayoutsOf(Accepted(seen) + left);
    assert all == all[..|seen|] + all[|seen|..];
    UnpackTotalAppend(all[..|seen|], all[|seen|..]);
    assert all[..|seen|] == seen;
  }

  lemma AllAccepted(seen: seq<FolderLayout>)
    ensures AllLaidOut(Accepted(seen)) && LayoutsOf(Accepted(seen)) == seen
  {
  }

  lemma RefusedItem(seen: seq<FolderLayout>, left: seq<Result<FolderLayout, R7zError>>)
    requires left != [] && left[0].Failure?
    ensures !AllLaidOut(Accepted(seen) + left)
  {
    assert (Accepted(seen) + left)[|seen|].Failure?;
  }

  /**
   * The loop of the source. Its last comparison, of the stream count with the streams passed, cannot
   * fail where everything before it succeeded.
   */
  method Preflight(tables: Tables, limit: u64) returns (r: Result<u64, R7zError>)
    ensures r.Success? <==> Passes(tables, limit)
    ensures r.Success? ==> r.value == UnpackTotal(LayoutsOf(Items(tables, START)))
  {
    hide Items, SubstreamCount, UnpackTotal, OwnedStreams, AllLaidOut, StreamLayout.Count, StreamLayout.Tiles;
    if Total(tables.pack.packSizes) > limit {
      return Failure(LimitExceeded);
    }
    var plans := new FolderPlans(tables);
    ghost var seen: seq<FolderLayout> := [];
    var total: u64 := 0;
    NothingSeen();
    while true
      invariant fresh(plans) && plans.Valid() && plans.tables == tables && total == UnpackTotal(seen) && total <= limit
      invariant Items(tables, START) == Accepted(seen) + plans.Left()
      invariant plans.cursor.digestBase == OwnedStreams(seen)
      decreases |plans.Left()|
    {
      ghost var left := plans.Left();
      var next := plans.Next();
      if next.None? {
        break;
      }
      if next.value.Failure? {
        RefusedItem(seen, left);
        return Failure(next.value.error);
      }
      OneMoreAccepted(seen, next.value.value, left);
      seen := seen + [next.value.value];
      if total + next.value.value.unpackSize > limit {
        if AllLaidOut(Items(tables, START)) {
          SeenIsPart(seen, plans.Left());
        }
        return Failure(LimitExceeded);
      }
      total := total + next.value.value.unpackSize;
    }
    assert Accepted(seen) + [] == Accepted(seen);
    AllAccepted(seen);
    var count := SubstreamCount(tables);
    if count.Failure? {
      return Failure(count.error);
    }
    StreamCountMatches(tables);
    if count.value != plans.cursor.digestBase {
      return Failure(Parse);
    }
    r := Success(total);
  }

  lemma NothingSeen()
    ensures UnpackTotal([]) == 0 && OwnedStreams([]) == 0
    ensures forall items :: Accepted([]) + items == items
  {
  }
}
