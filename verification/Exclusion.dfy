/** The filter that keeps excluded models from being registered. Its matcher, unlike the one the
    management view uses, holds the end of a pattern to the end of the identifier. */
module Exclusion {
  import opened Text
  import opened Wildcard

  // ----- Parts held to the end -----

  predicate EndsWith(s: string, suffix: string) {
    |suffix| <= |s| && s[|s| - |suffix|..] == suffix
  }

  // The parts occur in s one after the other, the last one at the very end.
  ghost predicate EndsIn(parts: seq<string>, s: string)
    requires parts != []
    decreases |parts|
  {
    if |parts| == 1 then EndsWith(s, parts[0])
    else exists k :: OccursAt(s, parts[0], k) && EndsIn(parts[1..], s[k + |parts[0]|..])
  }

  ghost predicate EndsAt(parts: seq<string>, s: string, k: int)
    requires |parts| > 1
  {
    OccursAt(s, parts[0], k) && EndsIn(parts[1..], s[k + |parts[0]|..])
  }

  lemma SomeEnd(parts: seq<string>, s: string)
    requires |parts| > 1
    ensures EndsIn(parts, s) <==> exists k :: EndsAt(parts, s, k)
  {
    if EndsIn(parts, s) {
      var k :| OccursAt(s, parts[0], k) && EndsIn(parts[1..], s[k + |parts[0]|..]);
      assert EndsAt(parts, s, k);
    }
  }

  // Cutting the last part off first and then scanning what is left of it is the same.
  ghost predicate CutThenScan(parts: seq<string>, s: string)
    requires parts != []
  {
    var last := parts[|parts| - 1];
    EndsWith(s, last) && InOrder(parts[..|parts| - 1], s[..|s| - |last|])
  }

  lemma CutAt(parts: seq<string>, s: string, k: int)
    requires |parts| > 1 && EndsWith(s, parts[|parts| - 1])
    ensures var last := parts[|parts| - 1];
            FirstAt(parts[..|parts| - 1], s[..|s| - |last|], k) <==>
            OccursAt(s, parts[0], k) && CutThenScan(parts[1..], s[k + |parts[0]|..])
  {
    var last := parts[|parts| - 1];
    var cut := s[..|s| - |last|];
    assert parts[..|parts| - 1][1..] == parts[1..][..|parts| - 2] && parts[1..][|parts| - 2] == last;
    if 0 <= k && k + |parts[0]| <= |cut| {
      var rest := s[k + |parts[0]|..];
      assert cut[k..k + |parts[0]|] == s[k..k + |parts[0]|];
      assert cut[k + |parts[0]|..] == rest[..|rest| - |last|];
      assert rest[|rest| - |last|..] == s[|s| - |last|..];
    }
  }

  lemma CutStays(parts: seq<string>, s: string, k: int)
    requires |parts| > 1 && OccursAt(s, parts[0], k) && CutThenScan(parts[1..], s[k + |parts[0]|..])
    ensures EndsWith(s, parts[|parts| - 1])
  {
    var last, rest := parts[|parts| - 1], s[k + |parts[0]|..];
    assert rest[|rest| - |last|..] == s[|s| - |last|..];
  }

  lemma {:induction false} EndsInIsCutThenScan(parts: seq<string>, s: string)
    requires parts != []
    ensures EndsIn(parts, s) <==> CutThenScan(parts, s)
    decreases |parts|
  {
    if |parts| > 1 {
      SomeEnd(parts, s);
      if EndsIn(parts, s) {
        var k :| EndsAt(parts, s, k);
        EndsInIsCutThenScan(parts[1..], s[k + |parts[0]|..]);
        CutStays(parts, s, k);
        CutAt(parts, s, k);
      }
      if CutThenScan(parts, s) {
        SomeFirst(parts[..|parts| - 1], s[..|s| - |parts[|parts| - 1]|]);
        var k :| FirstAt(parts[..|parts| - 1], s[..|s| - |parts[|parts| - 1]|], k);
        CutAt(parts, s, k);
        EndsInIsCutThenScan(parts[1..], s[k + |parts[0]|..]);
        assert EndsAt(parts, s, k);
      }
    }
  }

  // ----- Letters and parts -----

  ghost predicate AnchoredParts(parts: seq<string>, s: string)
    requires parts != []
  {
    if |parts| == 1 then s == parts[0] else parts[0] <= s && EndsIn(parts[1..], s[|parts[0]|..])
  }

  lemma {:induction false} AnchoredDecomposes(p: string, s: string)
    ensures Anchored(p, s) <==> AnchoredParts(Split(p, '*'), s)
    decreases p, 0
  {
    if p != [] {
      var parts, rest := Split(p, '*'), Split(p[1..], '*');
      if p[0] == '*' {
        assert parts[1..] == rest && s[0..] == s;
        StarEnds(p[1..], s);
      } else {
        assert parts[0] == [p[0]] + rest[0] && parts[1..] == rest[1..];
        if s != [] {
          AnchoredDecomposes(p[1..], s[1..]);
          assert s == [s[0]] + s[1..];
          assert parts[0] <= s <==> s[0] == p[0] && rest[0] <= s[1..];
          if parts[0] <= s {
            assert s[|parts[0]|..] == s[1..][|rest[0]|..];
          }
        }
      }
    }
  }

  lemma AnchoredAt(parts: seq<string>, s: string, k: nat)
    requires parts != [] && k <= |s|
    ensures |parts| == 1 ==> (AnchoredParts(parts, s[k..]) <==> s[k..] == parts[0])
    ensures |parts| > 1 ==> (AnchoredParts(parts, s[k..]) <==> EndsAt(parts, s, k))
  {
    if |parts| > 1 && k + |parts[0]| <= |s| {
      assert s[k..k + |parts[0]|] == s[k..][..|parts[0]|];
      assert s[k..][|parts[0]|..] == s[k + |parts[0]|..];
    }
  }

  lemma StarEnds(p: string, s: string)
    ensures (exists k :: 0 <= k <= |s| && Anchored(p, s[k..])) <==> EndsIn(Split(p, '*'), s)
    decreases p, 1
  {
    var parts := Split(p, '*');
    forall k | 0 <= k <= |s|
      ensures Anchored(p, s[k..]) <==> AnchoredParts(parts, s[k..])
      ensures |parts| == 1 ==> (Anchored(p, s[k..]) <==> s[k..] == parts[0])
      ensures |parts| > 1 ==> (Anchored(p, s[k..]) <==> EndsAt(parts, s, k))
    {
      AnchoredDecomposes(p, s[k..]);
      AnchoredAt(parts, s, k);
    }
    if |parts| > 1 {
      SomeEnd(parts, s);
    } else if EndsWith(s, parts[0]) {
      assert Anchored(p, s[|s| - |parts[0]|..]);
    }
  }

  // ----- The matcher -----

  // What a pattern means to the filter.
  ghost predicate Excludes(pattern: string, value: string) {
    pattern != "" && if '*' in pattern then Anchored(pattern, value) else pattern == value
  }

  // matchWildcard: the prefix, then the suffix, then what lies between.
  method MatchWildcard(pattern: string, value: string) returns (matched: bool)
    ensures matched <==> Excludes(pattern, value)
  {
    if pattern == "" {
      return false;
    }
    if '*' !in pattern {
      return pattern == value;
    }
    var parts := Split(pattern, '*');
    AnchoredDecomposes(pattern, value);
    var prefix := parts[0];
    var rest := value;
    if prefix != "" {
      if !(prefix <= rest) {
        return false;
      }
      rest := rest[|prefix|..];
    }
    matched := MatchRest(parts[1..], rest);
  }

  // After the prefix: the suffix, then what is between.
  method MatchRest(parts: seq<string>, value: string) returns (matched: bool)
    requires parts != []
    ensures matched <==> EndsIn(parts, value)
  {
    var suffix := parts[|parts| - 1];
    var rest := value;
    EndsInIsCutThenScan(parts, value);
    if suffix != "" {
      if !EndsWith(rest, suffix) {
        return false;
      }
      rest := rest[..|rest| - |suffix|];
    } else {
      assert rest[..|rest|] == rest;
    }
    matched := ScanMiddle(parts[..|parts| - 1], rest);
  }

  method ScanMiddle(segments: seq<string>, text: string) returns (found: bool)
    ensures found <==> InOrder(segments, text)
  {
    var value := text;
    for i := 0 to |segments|
      invariant InOrder(segments, text) <==> InOrder(segments[i..], value)
    {
      var segment := segments[i];
      assert segments[i..][1..] == segments[i + 1..] && segments[i..][0] == segment;
      if segment == "" {
        SkipEmpty(segments[i..], value);
        continue;
      }
      var idx := Index(value, segment);
      if idx < 0 {
        return false;
      }
      LeftmostSuffices(segments[i..], value, idx);
      value := value[idx + |segment|..];
    }
    assert segments[|segments|..] == [];
    return true;
  }

  // ----- The filter -----

  // Lower-cased and trimmed, without the blank ones.
  function CleanPatterns(excluded: seq<string>): seq<string> {
    if excluded == [] then []
    else
      var item := Trim(excluded[|excluded| - 1]);
      CleanPatterns(excluded[..|excluded| - 1]) + (if item == "" then [] else [ToLower(item)])
  }

  ghost predicate Blocked(patterns: seq<string>, id: string) {
    exists i :: 0 <= i < |patterns| && Excludes(patterns[i], ToLower(Trim(id)))
  }

  // The models, by identifier, that no pattern excludes; a missing model is dropped.
  ghost function Unblocked(models: seq<Option<string>>, patterns: seq<string>): seq<Option<string>> {
    if models == [] then []
    else
      var last := models[|models| - 1];
      Unblocked(models[..|models| - 1], patterns)
        + (if last.Some? && !Blocked(patterns, last.value) then [last] else [])
  }

  lemma CleanOneMore(excluded: seq<string>, i: nat)
    requires i < |excluded|
    ensures var item := Trim(excluded[i]);
            CleanPatterns(excluded[..i + 1])
              == CleanPatterns(excluded[..i]) + (if item == "" then [] else [ToLower(item)])
  {
    assert excluded[..i + 1][..i] == excluded[..i];
  }

  lemma UnblockedOneMore(models: seq<Option<string>>, patterns: seq<string>, i: nat)
    requires i < |models|
    ensures Unblocked(models[..i + 1], patterns) ==
            Unblocked(models[..i], patterns)
            + (if models[i].Some? && !Blocked(patterns, models[i].value) then [models[i]] else [])
  {
    assert models[..i + 1][..i] == models[..i];
  }

  method IsBlocked(patterns: seq<string>, id: string) returns (blocked: bool)
    ensures blocked <==> Blocked(patterns, id)
  {
    var modelID := ToLower(Trim(id));
    for i := 0 to |patterns|
      invariant forall j :: 0 <= j < i ==> !Excludes(patterns[j], modelID)
    {
      var matched := MatchWildcard(patterns[i], modelID);
      if matched {
        return true;
      }
    }
    return false;
  }

  method ApplyExcludedModels(models: seq<Option<string>>, excluded: seq<string>) returns (filtered: seq<Option<string>>)
    ensures filtered == if CleanPatterns(excluded) == [] then models else Unblocked(models, CleanPatterns(excluded))
  {
    if |models| == 0 || |excluded| == 0 {
      return models;
    }
    var patterns: seq<string> := [];
    for i := 0 to |excluded|
      invariant patterns == CleanPatterns(excluded[..i])
    {
      CleanOneMore(excluded, i);
      var trimmed := Trim(excluded[i]);
      if trimmed != "" {
        patterns := patterns + [ToLower(trimmed)];
      }
    }
    assert excluded[..|excluded|] == excluded;
    if |patterns| == 0 {
      return models;
    }
    filtered := [];
    for i := 0 to |models|
      invariant filtered == Unblocked(models[..i], patterns)
    {
      UnblockedOneMore(models, patterns, i);
      if models[i].None? {
        continue;
      }
      var blocked := IsBlocked(patterns, models[i].value);
      if !blocked {
        filtered := filtered + [models[i]];
      }
    }
    assert models[..|models|] == models;
  }

  // ----- Filter and view -----

  // Whatever the filter takes out, the view marks as disabled ...
  lemma {:induction false} AnchoredIsGlob(p: string, s: string)
    requires Anchored(p, s)
    ensures Glob(p, s)
  {
    if p != [] {
      if p[0] == '*' {
        var k :| 0 <= k <= |s| && Anchored(p[1..], s[k..]);
        AnchoredIsGlob(p[1..], s[k..]);
      } else {
        AnchoredIsGlob(p[1..], s[1..]);
      }
    }
  }

  // ... and a pattern means the same to both exactly if it has no '*' or ends in one.
  lemma FilterAgreesWithView(p: string)
    ensures forall s :: s != "" && Excludes(p, s) ==> Matches(p, s)
    ensures (forall s :: s != "" ==> (Matches(p, s) <==> Excludes(p, s))) <==> ('*' in p ==> EndsWithStar(p))
  {
    forall s | s != "" && Excludes(p, s) ensures Matches(p, s) {
      if '*' in p {
        AnchoredIsGlob(p, s);
      }
    }
    if '*' in p {
      DocumentedReading(p);
      assert forall s :: Excludes(p, s) <==> Anchored(p, s);
    }
  }
}
