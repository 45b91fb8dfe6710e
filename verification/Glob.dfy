/**
 Greedy glob matching (crates/eest/src/filter.rs, `wildcard_match`): strip a prefix, find the
 middle parts leftmost first, compare a suffix; against the declarative meaning of `*`.
 */
module Glob {
  import opened Common

  // ----- meaning ----------------------------------------------------------------------------------------

  /**
   The pattern from `p` on matches the value from `v` on: a `*` stands for any string, every other
   character for itself.
   */
  ghost predicate DenotesFrom(pattern: string, p: nat, value: string, v: nat)
    requires p <= |pattern| && v <= |value|
    decreases |pattern| - p
  {
    if p == |pattern| then v == |value|
    else if pattern[p] == '*' then
      var next := p + 1;
      exists k :: v <= k <= |value| && DenotesFrom(pattern, next, value, k)
    else v < |value| && value[v] == pattern[p] && DenotesFrom(pattern, p + 1, value, v + 1)
  }

  ghost predicate Denotes(pattern: string, value: string) {
    DenotesFrom(pattern, 0, value, 0)
  }

  /** The pattern from `p` on with its stars replaced, in order, by the given gap strings. */
  function Fill(pattern: string, p: nat, gaps: seq<string>): Option<string>
    requires p <= |pattern|
    decreases |pattern| - p
  {
    if p == |pattern| then (if gaps == [] then Some("") else None)
    else if pattern[p] == '*' then
      if gaps == [] then None
      else match Fill(pattern, p + 1, gaps[1..]) case Some(rest) => Some(gaps[0] + rest) case None => None
    else match Fill(pattern, p + 1, gaps) case Some(rest) => Some([pattern[p]] + rest) case None => None
  }

  lemma {:induction false} GapsForMatch(pattern: string, p: nat, value: string, v: nat) returns (gaps: seq<string>)
    requires p <= |pattern| && v <= |value| && DenotesFrom(pattern, p, value, v)
    ensures Fill(pattern, p, gaps) == Some(value[v..])
    decreases |pattern| - p
  {
    if p == |pattern| {
      gaps := [];
    } else if pattern[p] == '*' {
      var k :| v <= k <= |value| && DenotesFrom(pattern, p + 1, value, k);
      var rest := GapsForMatch(pattern, p + 1, value, k);
      gaps := [value[v..k]] + rest;
      assert gaps[1..] == rest && value[v..k] + value[k..] == value[v..];
    } else {
      gaps := GapsForMatch(pattern, p + 1, value, v + 1);
      assert [value[v]] + value[v + 1..] == value[v..];
    }
  }

  lemma {:induction false} MatchForGaps(pattern: string, p: nat, gaps: seq<string>, value: string, v: nat)
    requires p <= |pattern| && v <= |value| && Fill(pattern, p, gaps) == Some(value[v..])
    ensures DenotesFrom(pattern, p, value, v)
    decreases |pattern| - p
  {
    if p == |pattern| {
    } else if pattern[p] == '*' {
      var rest := Fill(pattern, p + 1, gaps[1..]).value;
      var k := v + |gaps[0]|;
      assert value[v..][|gaps[0]|..] == rest;
      assert value[k..] == rest;
      MatchForGaps(pattern, p + 1, gaps[1..], value, k);
    } else {
      var rest := Fill(pattern, p + 1, gaps).value;
      assert value[v..][0] == pattern[p] && value[v..][1..] == rest;
      assert value[v + 1..] == rest;
      MatchForGaps(pattern, p + 1, gaps, value, v + 1);
    }
  }

  /** A value matches exactly when some choice of gap strings turns the pattern into it. */
  lemma MatchIffGaps(pattern: string, value: string)
    ensures Denotes(pattern, value) <==> exists gaps :: Fill(pattern, 0, gaps) == Some(value)
  {
    assert value[0..] == value;
    if Denotes(pattern, value) {
      var gaps := GapsForMatch(pattern, 0, value, 0);
    }
    if gaps :| Fill(pattern, 0, gaps) == Some(value) {
      MatchForGaps(pattern, 0, gaps, value, 0);
    }
  }

  // ----- parts --------------------------------------------------------------------------------------------

  /** The pattern from `p` on, cut at every `*`; there is always at least one part. */
  function SplitFrom(pattern: string, p: nat): (parts: seq<string>)
    requires p <= |pattern|
    ensures parts != []
    decreases |pattern| - p
  {
    if p == |pattern| then [""]
    else
      var rest := SplitFrom(pattern, p + 1);
      if pattern[p] == '*' then [""] + rest else [[pattern[p]] + rest[0]] + rest[1..]
  }

  predicate OccursAt(value: string, part: string, v: nat) {
    v + |part| <= |value| && value[v..v + |part|] == part
  }

  /** The first part at `v`; then a gap, the second part, and so on, the last part at the end. */
  ghost predicate PartsThen(parts: seq<string>, value: string, v: nat)
    requires parts != []
    decreases |parts|
  {
    && OccursAt(value, parts[0], v)
    && if |parts| == 1 then v + |parts[0]| == |value|
       else
         var rest, end := parts[1..], v + |parts[0]|;
         exists k :: end <= k <= |value| && PartsThen(rest, value, k)
  }

  /** From `v` on: a gap, then the parts. */
  ghost predicate GapsThen(parts: seq<string>, value: string, v: nat)
    requires parts != []
  {
    exists k :: v <= k <= |value| && PartsThen(parts, value, k)
  }

  lemma NextPart(parts: seq<string>, value: string, v: nat) returns (k: nat)
    requires |parts| >= 2 && PartsThen(parts, value, v)
    ensures v + |parts[0]| <= k <= |value| && PartsThen(parts[1..], value, k)
  {
    var rest, end := parts[1..], v + |parts[0]|;
    k :| end <= k <= |value| && PartsThen(rest, value, k);
  }

  lemma AfterFirstPart(parts: seq<string>, value: string, v: nat)
    requires |parts| >= 2
    ensures PartsThen(parts, value, v) <==>
            OccursAt(value, parts[0], v) && GapsThen(parts[1..], value, v + |parts[0]|)
  {
    if PartsThen(parts, value, v) {
      var k := NextPart(parts, value, v);
    }
  }

  lemma SplitOne(pattern: string, p: nat)
    requires p < |pattern| && pattern[p] != '*'
    ensures var parts, rest := SplitFrom(pattern, p), SplitFrom(pattern, p + 1);
            parts[0] == [pattern[p]] + rest[0] && |parts| == |rest| && parts[1..] == rest[1..]
  {
  }

  lemma OccursStep(value: string, c: char, part: string, v: nat)
    ensures OccursAt(value, [c] + part, v) <==> v < |value| && value[v] == c && OccursAt(value, part, v + 1)
  {
    if v + 1 + |part| <= |value| {
      assert value[v..v + 1 + |part|] == [value[v]] + value[v + 1..v + 1 + |part|];
      if OccursAt(value, [c] + part, v) {
        assert value[v..v + 1 + |part|][0] == c && value[v..v + 1 + |part|][1..] == part;
      }
    }
  }

  /** Cutting the pattern at its stars loses nothing. */
  lemma {:induction false} SplitMeans(pattern: string, p: nat, value: string, v: nat)
    requires p <= |pattern| && v <= |value|
    ensures DenotesFrom(pattern, p, value, v) <==> PartsThen(SplitFrom(pattern, p), value, v)
    decreases |pattern| - p
  {
    if p == |pattern| {
      assert OccursAt(value, "", v);
    } else if pattern[p] == '*' {
      var rest, next := SplitFrom(pattern, p + 1), p + 1;
      assert SplitFrom(pattern, p)[1..] == rest && OccursAt(value, "", v);
      forall k | v <= k <= |value|
        ensures DenotesFrom(pattern, next, value, k) <==> PartsThen(rest, value, k)
      {
        SplitMeans(pattern, next, value, k);
      }
    } else {
      var rest := SplitFrom(pattern, p + 1);
      SplitOne(pattern, p);
      OccursStep(value, pattern[p], rest[0], v);
      if v < |value| && value[v] == pattern[p] {
        SplitMeans(pattern, p + 1, value, v + 1);
      }
    }
  }

  /** Without a star the pattern is its only part. */
  lemma {:induction false} OnePart(pattern: string, p: nat)
    requires p <= |pattern| && |SplitFrom(pattern, p)| == 1
    ensures SplitFrom(pattern, p)[0] == pattern[p..]
    decreases |pattern| - p
  {
    if p < |pattern| {
      OnePart(pattern, p + 1);
      assert [pattern[p]] + pattern[p + 1..] == pattern[p..];
    }
  }

  // ----- greediness ---------------------------------------------------------------------------------------------

  /** A gap can swallow anything in front. */
  lemma MoreInFront(parts: seq<string>, value: string, v: nat, w: nat)
    requires parts != [] && v <= w && GapsThen(parts, value, w)
    ensures GapsThen(parts, value, v)
  {
    var k :| w <= k <= |value| && PartsThen(parts, value, k);
  }

  /** The leftmost position of a part from `start` on, if it occurs. */
  method Find(value: string, part: string, start: nat) returns (r: Option<nat>)
    requires start <= |value|
    ensures r.Some? ==> start <= r.value && OccursAt(value, part, r.value)
    ensures forall k :: start <= k < (if r.Some? then r.value else |value| + 1) ==> !OccursAt(value, part, k)
  {
    var k := start;
    while k <= |value|
      invariant start <= k <= |value| + 1
      invariant forall j :: start <= j < k ==> !OccursAt(value, part, j)
    {
      if k + |part| <= |value| && value[k..k + |part|] == part { return Some(k); }
      k := k + 1;
    }
    return None;
  }

  /** Taking the leftmost occurrence of a part never loses a match. */
  lemma LeftmostSuffices(parts: seq<string>, value: string, v: nat, i: nat)
    requires |parts| >= 2 && v <= i && OccursAt(value, parts[0], i)
    requires forall k :: v <= k < i ==> !OccursAt(value, parts[0], k)
    ensures GapsThen(parts, value, v) <==> GapsThen(parts[1..], value, i + |parts[0]|)
  {
    if GapsThen(parts, value, v) {
      var k :| v <= k <= |value| && PartsThen(parts, value, k);
      AfterFirstPart(parts, value, k);
      MoreInFront(parts[1..], value, i + |parts[0]|, k + |parts[0]|);
    }
    if GapsThen(parts[1..], value, i + |parts[0]|) {
      AfterFirstPart(parts, value, i);
    }
  }

  lemma NoOccurrence(parts: seq<string>, value: string, v: nat)
    requires parts != [] && forall k :: v <= k < |value| + 1 ==> !OccursAt(value, parts[0], k)
    ensures !GapsThen(parts, value, v)
  {
  }

  /** The last part is compared with the end of what remains. */
  lemma LastPart(last: string, value: string, v: nat)
    requires v <= |value|
    ensures GapsThen([last], value, v) <==> v + |last| <= |value| && value[|value| - |last|..] == last
  {
    if v + |last| <= |value| && value[|value| - |last|..] == last {
      assert value[|value| - |last|..|value|] == last;
      assert PartsThen([last], value, |value| - |last|);
    }
    if GapsThen([last], value, v) {
      var k :| v <= k <= |value| && PartsThen([last], value, k);
      assert value[k..k + |last|] == value[k..];
    }
  }

  /**
   Greedy matching is sound and complete: it returns true exactly when the pattern denotes the
   value, for any number of stars and any, also empty, parts between them. The slice that remains
   is the value from `at` on.
   */
  method WildcardMatch(pattern: string, value: string) returns (r: bool)
    ensures r <==> Denotes(pattern, value)
  {
    if pattern == "*" {
      assert DenotesFrom(pattern, 1, value, |value|);
      return true;
    }
    var parts := SplitFrom(pattern, 0);
    SplitMeans(pattern, 0, value, 0);
    if |parts| == 1 {
      OnePart(pattern, 0);
      assert pattern[0..] == pattern && (|value| == |pattern| ==> value[0..|pattern|] == value);
      return pattern == value;
    }
    var at: nat := 0;
    if parts[0] != "" {
      if !(|parts[0]| <= |value| && value[0..|parts[0]|] == parts[0]) { return false; }
      at := |parts[0]|;
    }
    r := MatchRest(parts, value, at);
  }

  method MatchRest(parts: seq<string>, value: string, start: nat) returns (r: bool)
    requires |parts| >= 2 && start <= |value|
    ensures r <==> GapsThen(parts[1..], value, start)
  {
    var at: nat := start;
    for i := 1 to |parts| - 1
      invariant at <= |value|
      invariant GapsThen(parts[i..], value, at) <==> GapsThen(parts[1..], value, start)
    {
      assert parts[i..][1..] == parts[i + 1..] && parts[i..][0] == parts[i];
      if parts[i] == "" {
        assert OccursAt(value, "", at);
        LeftmostSuffices(parts[i..], value, at, at);
        continue;
      }
      var index := Find(value, parts[i], at);
      if index.None? {
        NoOccurrence(parts[i..], value, at);
        return false;
      }
      LeftmostSuffices(parts[i..], value, at, index.value);
      at := index.value + |parts[i]|;
    }
    var last := parts[|parts| - 1];
    assert parts[|parts| - 1..] == [last];
    LastPart(last, value, at);
    if last != "" {
      return |last| <= |value| - at && value[|value| - |last|..] == last;
    }
    return true;
  }
}
