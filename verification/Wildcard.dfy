/** Excluded-model patterns: the greedy scan over the parts of a pattern decides a wildcard
    language in which '*' stands for any text and the end of the pattern for any tail. */
module Wildcard {
  import opened Text

  // ----- The pattern language, letter by letter -----

  // '*' matches any text, any other letter itself, and the end of the pattern any tail.
  ghost predicate Glob(p: string, s: string) {
    if p == [] then true
    else if p[0] == '*' then exists k :: 0 <= k <= |s| && Glob(p[1..], s[k..])
    else s != [] && s[0] == p[0] && Glob(p[1..], s[1..])
  }

  // The same language with the end of the pattern held to the end of the text.
  ghost predicate Anchored(p: string, s: string) {
    if p == [] then s == []
    else if p[0] == '*' then exists k :: 0 <= k <= |s| && Anchored(p[1..], s[k..])
    else s != [] && s[0] == p[0] && Anchored(p[1..], s[1..])
  }

  // ----- strings.Index and strings.Split -----

  predicate OccursAt(s: string, part: string, k: int) {
    0 <= k <= |s| - |part| && s[k..k + |part|] == part
  }

  // strings.Index: the leftmost occurrence.
  method Index(s: string, part: string) returns (idx: int)
    ensures idx == -1 ==> forall k :: !OccursAt(s, part, k)
    ensures idx != -1 ==> OccursAt(s, part, idx) && forall k :: 0 <= k < idx ==> !OccursAt(s, part, k)
  {
    idx := 0;
    while idx + |part| <= |s|
      invariant 0 <= idx
      invariant forall k :: 0 <= k < idx ==> !OccursAt(s, part, k)
    {
      if s[idx..idx + |part|] == part {
        return;
      }
      idx := idx + 1;
    }
    idx := -1;
  }

  // strings.Split at one letter.
  function Split(p: string, sep: char): (parts: seq<string>)
    ensures parts != []
    ensures forall i :: 0 <= i < |parts| ==> sep !in parts[i]
    ensures |parts| == 1 <==> sep !in p
  {
    if p == [] then [[]]
    else
      var rest := Split(p[1..], sep);
      if p[0] == sep then [[]] + rest else [[p[0]] + rest[0]] + rest[1..]
  }

  // The parts occur in s one after the other, from the front, gaps allowed before each.
  ghost predicate InOrder(parts: seq<string>, s: string)
    decreases |parts|
  {
    parts == [] || exists k :: OccursAt(s, parts[0], k) && InOrder(parts[1..], s[k + |parts[0]|..])
  }

  ghost predicate FirstAt(parts: seq<string>, s: string, k: int)
    requires parts != []
  {
    OccursAt(s, parts[0], k) && InOrder(parts[1..], s[k + |parts[0]|..])
  }

  ghost predicate Decomposes(parts: seq<string>, s: string)
    requires parts != []
  {
    parts[0] <= s && InOrder(parts[1..], s[|parts[0]|..])
  }

  // ----- The matcher -----

  // matchOAuthExcludedPattern.
  method MatchPattern(pattern: string, modelID: string) returns (matched: bool)
    ensures matched <==> Matches(pattern, modelID)
  {
    if pattern == "" || modelID == "" {
      return false;
    }
    if '*' !in pattern {
      return pattern == modelID;
    }
    var parts := Split(pattern, '*');
    GlobDecomposes(pattern, modelID);
    if pattern == "*" {
      assert Glob(pattern[1..], modelID[0..]);
      return true;
    }
    if !(parts[0] <= modelID) {
      return false;
    }
    var offset := |parts[0]|;
    for i := 1 to |parts|
      invariant 0 <= offset <= |modelID|
      invariant InOrder(parts[1..], modelID[|parts[0]|..]) <==> InOrder(parts[i..], modelID[offset..])
    {
      var part := parts[i];
      var rest := modelID[offset..];
      assert parts[i..][1..] == parts[i + 1..] && parts[i..][0] == part;
      if part == "" {
        SkipEmpty(parts[i..], rest);
        continue;
      }
      var idx := Index(rest, part);
      if idx < 0 {
        return false;
      }
      LeftmostSuffices(parts[i..], rest, idx);
      offset := offset + idx + |part|;
      assert rest[idx + |part|..] == modelID[offset..];
    }
    assert parts[|parts|..] == [];
    return true;
  }

  // What a pattern means: a literal is the identifier itself; with a '*', the wildcard language.
  // Nothing matches an empty pattern or an empty identifier.
  ghost predicate Matches(pattern: string, modelID: string) {
    pattern != "" && modelID != "" && if '*' in pattern then Glob(pattern, modelID) else pattern == modelID
  }

  // ----- Why the leftmost occurrence is enough -----

  lemma SomeFirst(parts: seq<string>, s: string)
    requires parts != []
    ensures InOrder(parts, s) <==> exists k :: FirstAt(parts, s, k)
  {
    if InOrder(parts, s) {
      var k :| OccursAt(s, parts[0], k) && InOrder(parts[1..], s[k + |parts[0]|..]);
      assert FirstAt(parts, s, k);
    }
  }

  lemma {:induction false} Later(parts: seq<string>, s: string, k: nat)
    requires k <= |s| && InOrder(parts, s[k..])
    ensures InOrder(parts, s)
  {
    if parts != [] {
      SomeFirst(parts, s[k..]);
      var j :| FirstAt(parts, s[k..], j);
      assert s[k..][j..j + |parts[0]|] == s[k + j..k + j + |parts[0]|];
      assert s[k..][j + |parts[0]|..] == s[k + j + |parts[0]|..];
      assert FirstAt(parts, s, k + j);
    }
  }

  lemma SkipEmpty(parts: seq<string>, s: string)
    requires parts != [] && parts[0] == ""
    ensures InOrder(parts, s) <==> InOrder(parts[1..], s)
  {
    SomeFirst(parts, s);
    if InOrder(parts[1..], s) {
      assert s[0 + |parts[0]|..] == s;
      assert FirstAt(parts, s, 0);
    }
    if InOrder(parts, s) {
      var k :| FirstAt(parts, s, k);
      Later(parts[1..], s, k);
    }
  }

  lemma LeftmostSuffices(parts: seq<string>, s: string, idx: nat)
    requires parts != [] && OccursAt(s, parts[0], idx) && forall k :: 0 <= k < idx ==> !OccursAt(s, parts[0], k)
    ensures InOrder(parts, s) <==> InOrder(parts[1..], s[idx + |parts[0]|..])
  {
    SomeFirst(parts, s);
    if InOrder(parts, s) {
      var k :| FirstAt(parts, s, k);
      var from := s[idx + |parts[0]|..];
      assert from[k - idx..] == s[k + |parts[0]|..];
      Later(parts[1..], from, k - idx);
    } else {
      assert !FirstAt(parts, s, idx);
    }
  }

  // ----- Letters and parts describe the same language -----

  lemma {:induction false} GlobDecomposes(p: string, s: string)
    ensures Glob(p, s) <==> Decomposes(Split(p, '*'), s)
    decreases p, 0
  {
    if p != [] {
      var parts, rest := Split(p, '*'), Split(p[1..], '*');
      if p[0] == '*' {
        assert parts[1..] == rest && s[0..] == s;
        StarDecomposes(p[1..], s);
      } else {
        assert parts[0] == [p[0]] + rest[0] && parts[1..] == rest[1..];
        if s != [] {
          GlobDecomposes(p[1..], s[1..]);
          assert parts[0] <= s <==> s[0] == p[0] && rest[0] <= s[1..];
          if parts[0] <= s {
            assert s[|parts[0]|..] == s[1..][|rest[0]|..];
          }
        }
      }
    }
  }

  // A decomposition at k is one of the text from k on.
  lemma AtIsPrefix(parts: seq<string>, s: string, k: nat)
    requires parts != [] && k <= |s|
    ensures FirstAt(parts, s, k) <==> Decomposes(parts, s[k..])
  {
    if k + |parts[0]| <= |s| {
      assert s[k..k + |parts[0]|] == s[k..][..|parts[0]|];
      assert s[k..][|parts[0]|..] == s[k + |parts[0]|..];
    }
  }

  lemma StarDecomposes(p: string, s: string)
    ensures (exists k :: 0 <= k <= |s| && Glob(p, s[k..])) <==> InOrder(Split(p, '*'), s)
    decreases p, 1
  {
    SomeFirst(Split(p, '*'), s);
    forall k | 0 <= k <= |s|
      ensures Glob(p, s[k..]) <==> FirstAt(Split(p, '*'), s, k)
    {
      GlobDecomposes(p, s[k..]);
      AtIsPrefix(Split(p, '*'), s, k);
    }
  }

  // ----- Against the documented reading -----

  // The configuration documents "*-preview" as matching a suffix. The matcher holds nothing to the
  // end: a pattern means what it would mean, held to the end, with one more '*' behind it.
  lemma {:induction false} TailIsFree(p: string, s: string)
    ensures Glob(p, s) <==> Anchored(p + "*", s)
  {
    if p == [] {
      assert (p + "*")[1..] == [] && s[|s|..] == [];
      assert Anchored((p + "*")[1..], s[|s|..]);
    } else {
      assert (p + "*")[1..] == p[1..] + "*" && (p + "*")[0] == p[0];
      if p[0] == '*' {
        forall k | 0 <= k <= |s| ensures Glob(p[1..], s[k..]) <==> Anchored(p[1..] + "*", s[k..]) {
          TailIsFree(p[1..], s[k..]);
        }
      } else if s != [] {
        TailIsFree(p[1..], s[1..]);
      }
    }
  }

  lemma {:induction false} FinalStarIsIdle(p: string, s: string)
    ensures Glob(p + "*", s) <==> Glob(p, s)
  {
    if p == [] {
      assert (p + "*")[1..] == [];
      assert Glob((p + "*")[1..], s[0..]);
    } else {
      assert (p + "*")[1..] == p[1..] + "*" && (p + "*")[0] == p[0];
      if p[0] == '*' {
        forall k | 0 <= k <= |s| ensures Glob(p[1..] + "*", s[k..]) <==> Glob(p[1..], s[k..]) {
          FinalStarIsIdle(p[1..], s[k..]);
        }
      } else if s != [] {
        FinalStarIsIdle(p[1..], s[1..]);
      }
    }
  }

  // The shortest text of a pattern: every '*' matching nothing.
  ghost function Bare(p: string): string {
    if p == [] then [] else (if p[0] == '*' then [] else [p[0]]) + Bare(p[1..])
  }

  lemma GlobStar(p: string, s: string)
    requires p != [] && p[0] == '*' && Glob(p[1..], s)
    ensures Glob(p, s)
  {
    assert s[0..] == s;
    assert Glob(p[1..], s[0..]);
  }

  lemma GlobLetter(p: string, rest: string)
    requires p != [] && p[0] != '*' && Glob(p[1..], rest)
    ensures Glob(p, [p[0]] + rest)
  {
    assert ([p[0]] + rest)[1..] == rest;
  }

  lemma BareFirst(p: string, t: string)
    requires p != []
    ensures Bare(p) + t == if p[0] == '*' then Bare(p[1..]) + t else [p[0]] + (Bare(p[1..]) + t)
  {
  }

  lemma {:induction false} BareThenAnything(p: string, t: string)
    ensures Glob(p, Bare(p) + t)
  {
    if p != [] {
      BareThenAnything(p[1..], t);
      BareFirst(p, t);
      if p[0] == '*' {
        GlobStar(p, Bare(p[1..]) + t);
      } else {
        GlobLetter(p, Bare(p[1..]) + t);
      }
    }
  }

  lemma {:induction false} AnchoredLast(p: string, s: string)
    requires p != [] && p[|p| - 1] != '*' && Anchored(p, s)
    ensures s != [] && s[|s| - 1] == p[|p| - 1]
  {
    if p[0] == '*' {
      var k :| 0 <= k <= |s| && Anchored(p[1..], s[k..]);
      AnchoredLast(p[1..], s[k..]);
    } else if |p| > 1 {
      AnchoredLast(p[1..], s[1..]);
    }
  }

  ghost predicate EndsWithStar(p: string) {
    p != [] && p[|p| - 1] == '*'
  }

  // The documented reading and the matcher agree on every identifier exactly for the patterns
  // that end in '*' (and for those without any '*', which are literals in both).
  lemma DocumentedReading(p: string)
    requires '*' in p
    ensures (forall s :: s != "" ==> (Matches(p, s) <==> Anchored(p, s))) <==> EndsWithStar(p)
  {
    if EndsWithStar(p) {
      var q := p[..|p| - 1];
      assert p == q + "*";
      forall s | s != "" ensures Matches(p, s) <==> Anchored(p, s) {
        FinalStarIsIdle(q, s);
        TailIsFree(q, s);
      }
    } else {
      var other := if p[|p| - 1] == 'x' then 'y' else 'x';
      var s := Bare(p) + [other];
      BareThenAnything(p, [other]);
      if Anchored(p, s) {
        AnchoredLast(p, s);
      }
      assert s != "" && Matches(p, s) && !Anchored(p, s);
    }
  }

  // ----- The configuration -----

  type ProviderModels = map<string, bool>

  // The patterns of a provider that are switched on and match.
  ghost predicate Disabled(entries: map<string, ProviderModels>, provider: string, modelID: string) {
    var p, id := ToLower(Trim(provider)), ToLower(Trim(modelID));
    p in entries && exists pattern :: pattern in entries[p] && entries[p][pattern] && p != "" &&
                                      Matches(ToLower(Trim(pattern)), id)
  }

  // OAuthExcludedModelsConfig.IsModelDisabled; the patterns are tried in any order.
  method IsModelDisabled(entries: map<string, ProviderModels>, provider: string, modelID: string)
    returns (disabled: bool)
    ensures disabled <==> Disabled(entries, provider, modelID)
  {
    var p, id := ToLower(Trim(provider)), ToLower(Trim(modelID));
    if p == "" || id == "" || |entries| == 0 || p !in entries {
      return false;
    }
    var models := entries[p];
    var todo := models.Keys;
    while todo != {}
      invariant todo <= models.Keys
      invariant forall pattern :: pattern in models && pattern !in todo && models[pattern] ==>
                  !Matches(ToLower(Trim(pattern)), id)
      decreases todo
    {
      var pattern :| pattern in todo;
      todo := todo - {pattern};
      if models[pattern] {
        var matched := MatchPattern(ToLower(Trim(pattern)), id);
        if matched {
          return true;
        }
      }
    }
    return false;
  }
}
