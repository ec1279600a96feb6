/** Wildcard matching by a table filled in place, against what `*` and `?` mean. */
module Wildcards {

  /** A character of a name, or half of a surrogate pair that lost its partner. */
  datatype NameSymbol = Unicode(c: char) | UnpairedSurrogate(unit: int)

  const STAR := Unicode('*')
  const ANY := Unicode('?')

  /** `*` stands for any number of symbols, `?` for exactly one, everything else for itself. */
  predicate Matches(pattern: seq<NameSymbol>, text: seq<NameSymbol>)
    decreases |pattern| + |text|
  {
    if pattern == [] then text == []
    else if pattern[0] == STAR then Matches(pattern[1..], text) || (text != [] && Matches(pattern, text[1..]))
    else text != [] && MatchesOne(pattern[0], text[0]) && Matches(pattern[1..], text[1..])
  }

  predicate MatchesOne(p: NameSymbol, t: NameSymbol) {
    p == ANY || p == t
  }

  /** The first p symbols of the pattern match the first t symbols of the text. */
  predicate PrefixMatches(pattern: seq<NameSymbol>, text: seq<NameSymbol>, p: nat, t: nat)
    requires p <= |pattern| && t <= |text|
    decreases p + t
  {
    if p == 0 then t == 0
    else if pattern[p - 1] == STAR then
      PrefixMatches(pattern, text, p - 1, t) || (t > 0 && PrefixMatches(pattern, text, p, t - 1))
    else t > 0 && MatchesOne(pattern[p - 1], text[t - 1]) && PrefixMatches(pattern, text, p - 1, t - 1)
  }

  // ---------------------------------------------------------------- prefixes and suffixes

  /** After a star, a prefix matches from the earliest point at which it matches before the star. */
  lemma {:induction false} StarPrefix(pattern: seq<NameSymbol>, text: seq<NameSymbol>, p: nat, k: nat, t: nat)
    requires p < |pattern| && k <= t <= |text| && pattern[p] == STAR && PrefixMatches(pattern, text, p, k)
    ensures PrefixMatches(pattern, text, p + 1, t)
    decreases t
  {
    if k < t {
      StarPrefix(pattern, text, p, k, t - 1);
    }
  }

  lemma {:induction false} StarPrefixStart(pattern: seq<NameSymbol>, text: seq<NameSymbol>, p: nat, t: nat)
    returns (k: nat)
    requires p < |pattern| && t <= |text| && pattern[p] == STAR && PrefixMatches(pattern, text, p + 1, t)
    ensures k <= t && PrefixMatches(pattern, text, p, k)
    decreases t
  {
    if PrefixMatches(pattern, text, p, t) {
      k := t;
    } else {
      k := StarPrefixStart(pattern, text, p, t - 1);
    }
  }

  lemma {:induction false} StarSuffix(pattern: seq<NameSymbol>, text: seq<NameSymbol>, p: nat, t: nat, k: nat)
    requires p < |pattern| && t <= k <= |text| && pattern[p] == STAR && Matches(pattern[p + 1..], text[k..])
    ensures Matches(pattern[p..], text[t..])
    decreases k - t
  {
    assert pattern[p..][1..] == pattern[p + 1..];
    if t < k {
      StarSuffix(pattern, text, p, t + 1, k);
      assert text[t..][1..] == text[t + 1..];
    }
  }

  lemma {:induction false} StarSuffixEnd(pattern: seq<NameSymbol>, text: seq<NameSymbol>, p: nat, t: nat)
    returns (k: nat)
    requires p < |pattern| && t <= |text| && pattern[p] == STAR && Matches(pattern[p..], text[t..])
    ensures t <= k <= |text| && Matches(pattern[p + 1..], text[k..])
    decreases |text| - t
  {
    assert pattern[p..][1..] == pattern[p + 1..];
    if Matches(pattern[p + 1..], text[t..]) {
      k := t;
    } else {
      assert text[t..][1..] == text[t + 1..];
      k := StarSuffixEnd(pattern, text, p, t + 1);
    }
  }

  /** The match can be cut at p: a prefix of the text for the front of the pattern, the rest for the rest. */
  ghost predicate SplitsAt(pattern: seq<NameSymbol>, text: seq<NameSymbol>, p: nat, t: nat)
    requires p <= |pattern|
  {
    t <= |text| && PrefixMatches(pattern, text, p, t) && Matches(pattern[p..], text[t..])
  }

  lemma SplitForward(pattern: seq<NameSymbol>, text: seq<NameSymbol>, p: nat, t: nat) returns (t': nat)
    requires p < |pattern| && SplitsAt(pattern, text, p, t)
    ensures SplitsAt(pattern, text, p + 1, t')
  {
    if pattern[p] == STAR {
      t' := StarSuffixEnd(pattern, text, p, t);
      StarPrefix(pattern, text, p, t, t');
    } else {
      t' := t + 1;
      assert pattern[p..][1..] == pattern[p + 1..] && text[t..][1..] == text[t + 1..];
    }
  }

  lemma SplitBackward(pattern: seq<NameSymbol>, text: seq<NameSymbol>, p: nat, t: nat) returns (t': nat)
    requires p < |pattern| && SplitsAt(pattern, text, p + 1, t)
    ensures SplitsAt(pattern, text, p, t')
  {
    if pattern[p] == STAR {
      t' := StarPrefixStart(pattern, text, p, t);
      StarSuffix(pattern, text, p, t', t);
    } else {
      t' := t - 1;
      assert pattern[p..][1..] == pattern[p + 1..] && text[t'..][1..] == text[t..];
    }
  }

  lemma {:induction false} SplitsFromStart(pattern: seq<NameSymbol>, text: seq<NameSymbol>, p: nat) returns (t: nat)
    requires p <= |pattern| && Matches(pattern, text)
    ensures SplitsAt(pattern, text, p, t)
  {
    if p == 0 {
      t := 0;
      assert pattern[0..] == pattern && text[0..] == text;
    } else {
      var before := SplitsFromStart(pattern, text, p - 1);
      t := SplitForward(pattern, text, p - 1, before);
    }
  }

  lemma {:induction false} SplitsToStart(pattern: seq<NameSymbol>, text: seq<NameSymbol>, p: nat, t: nat)
    requires p <= |pattern| && SplitsAt(pattern, text, p, t)
    ensures Matches(pattern, text)
  {
    if p == 0 {
      assert pattern[0..] == pattern && text[0..] == text;
    } else {
      var before := SplitBackward(pattern, text, p - 1, t);
      SplitsToStart(pattern, text, p - 1, before);
    }
  }

  /** Matching by prefixes, from the end, is matching from the front. */
  lemma PrefixesDecide(pattern: seq<NameSymbol>, text: seq<NameSymbol>)
    ensures PrefixMatches(pattern, text, |pattern|, |text|) <==> Matches(pattern, text)
  {
    if PrefixMatches(pattern, text, |pattern|, |text|) {
      SplitsToStart(pattern, text, |pattern|, |text|);
    }
    if Matches(pattern, text) {
      var t := SplitsFromStart(pattern, text, |pattern|);
    }
  }

  // ---------------------------------------------------------------- the table

  /** Before column t is reached, row p holds the matches of prefix p. */
  ghost predicate RowReady(
    matched: array2<bool>, pattern: seq<NameSymbol>, text: seq<NameSymbol>, p: nat, from: nat)
    requires matched.Length0 == |pattern| + 1 && matched.Length1 == |text| + 1 && p <= |pattern|
    reads matched
  {
    forall u :: from <= u <= |text| ==> (matched[p, u] <==> PrefixMatches(pattern, text, p, u))
  }

  /** Row p holds the matches of prefix p in its first columns. */
  ghost predicate RowDone(
    matched: array2<bool>, pattern: seq<NameSymbol>, text: seq<NameSymbol>, p: nat, upTo: nat)
    requires matched.Length0 == |pattern| + 1 && matched.Length1 == |text| + 1 && p <= |pattern|
    requires upTo <= |text| + 1
    reads matched
  {
    forall u :: 0 <= u < upTo ==> (matched[p, u] <==> PrefixMatches(pattern, text, p, u))
  }

  /** Nothing has been recorded in a row from a column on. */
  ghost predicate Clear(matched: array2<bool>, p: nat, from: nat)
    reads matched
  {
    p < matched.Length0 ==> forall u :: from <= u < matched.Length1 ==> !matched[p, u]
  }

  ghost predicate RowsClear(matched: array2<bool>, from: nat)
    reads matched
  {
    forall p: nat, u: nat :: from <= p < matched.Length0 && u < matched.Length1 ==> !matched[p, u]
  }

  /** The row of a star: each match spreads to the right, so a cell means a match somewhere up to it. */
  method FillStarRow(matched: array2<bool>, pattern: seq<NameSymbol>, text: seq<NameSymbol>, p: nat)
    requires matched.Length0 == |pattern| + 1 && matched.Length1 == |text| + 1 && p < |pattern| && pattern[p] == STAR
    requires RowReady(matched, pattern, text, p, 0) && RowsClear(matched, p + 1)
    modifies matched
    ensures RowReady(matched, pattern, text, p + 1, 0) && RowsClear(matched, p + 2)
  {
    assert Clear(matched, p + 1, 0);
    for t := 0 to |text| + 1
      invariant RowDone(matched, pattern, text, p + 1, t)
      invariant Clear(matched, p + 1, t)
      invariant t <= |text| ==> (matched[p, t] <==> PrefixMatches(pattern, text, p + 1, t))
      invariant RowReady(matched, pattern, text, p, t + 1)
      invariant RowsClear(matched, p + 2)
    {
      if matched[p, t] {
        matched[p + 1, t] := true;
        if t < |text| {
          matched[p, t + 1] := true;
        }
      }
    }
  }

  /** Any other row: each match moves one column on if the symbols agree. */
  method FillSymbolRow(matched: array2<bool>, pattern: seq<NameSymbol>, text: seq<NameSymbol>, p: nat)
    requires matched.Length0 == |pattern| + 1 && matched.Length1 == |text| + 1 && p < |pattern| && pattern[p] != STAR
    requires RowReady(matched, pattern, text, p, 0) && RowsClear(matched, p + 1)
    modifies matched
    ensures RowReady(matched, pattern, text, p + 1, 0) && RowsClear(matched, p + 2)
  {
    assert Clear(matched, p + 1, 0);
    for t := 0 to |text| + 1
      invariant RowReady(matched, pattern, text, p, 0)
      invariant RowDone(matched, pattern, text, p + 1, if t <= |text| then t + 1 else t)
      invariant Clear(matched, p + 1, t + 1)
      invariant RowsClear(matched, p + 2)
    {
      if matched[p, t] && t < |text| && MatchesOne(pattern[p], text[t]) {
        matched[p + 1, t + 1] := true;
      }
    }
  }

  /** The table decides the match. */
  method WildcardMatch(pattern: seq<NameSymbol>, text: seq<NameSymbol>) returns (r: bool)
    ensures r <==> Matches(pattern, text)
  {
    var matched := new bool[|pattern| + 1, |text| + 1]((p, t) => false);
    matched[0, 0] := true;
    for p := 0 to |pattern|
      invariant RowReady(matched, pattern, text, p, 0) && RowsClear(matched, p + 1)
    {
      if pattern[p] == STAR {
        FillStarRow(matched, pattern, text, p);
      } else {
        FillSymbolRow(matched, pattern, text, p);
      }
    }
    PrefixesDecide(pattern, text);
    r := matched[|pattern|, |text|];
  }
}
