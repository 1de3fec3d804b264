/** The list of exclusions that decides what an account may use: its own entries and its provider's
    patterns, written into one attribute and read back; and when the management view, which knows
    only the patterns, shows something else. */
module AccountExclusion {
  import opened Text
  import opened Wildcard
  import opened Exclusion

  // ----- Keys -----

  // An entry as it is compared.
  function Key(entry: string): string {
    ToLower(Trim(entry))
  }

  lemma {:induction false} TrimRightKeeps(s: string, i: nat)
    requires i < |s| && !IsSpace(s[i])
    ensures |TrimRight(s)| > i
  {
    if IsSpace(s[|s| - 1]) {
      TrimRightKeeps(s[..|s| - 1], i);
    }
  }

  lemma TrimClean(s: string)
    requires s != [] && !IsSpace(s[0]) && !IsSpace(s[|s| - 1])
    ensures Trim(s) == s
  {
  }

  lemma TrimSomething(s: string)
    requires s != [] && !IsSpace(s[0])
    ensures Trim(s) != ""
  {
    TrimRightKeeps(s, 0);
  }

  lemma LowerTwice(s: string)
    ensures ToLower(ToLower(s)) == ToLower(s)
  {
  }

  lemma LowerIsNoSpace(c: char)
    ensures IsSpace(LowerChar(c)) == IsSpace(c)
  {
  }

  lemma KeyEnds(entry: string)
    ensures Key(entry) == "" <==> Trim(entry) == ""
    ensures Key(entry) != "" ==> !IsSpace(Key(entry)[0]) && !IsSpace(Key(entry)[|Key(entry)| - 1])
  {
    var t := Trim(entry);
    if t != "" {
      LowerIsNoSpace(t[0]);
      LowerIsNoSpace(t[|t| - 1]);
    }
  }

  lemma KeyTwice(entry: string)
    ensures Key(Key(entry)) == Key(entry)
  {
    KeyEnds(entry);
    if Key(entry) != "" {
      TrimClean(Key(entry));
    }
    LowerTwice(Trim(entry));
  }

  // ----- The attribute -----

  // strings.Join with ",".
  function Join(parts: seq<string>): string {
    if parts == [] then "" else if |parts| == 1 then parts[0] else parts[0] + "," + Join(parts[1..])
  }

  function Keys(list: seq<string>): set<string> {
    set x | x in list && Trim(x) != "" :: Key(x)
  }

  // The keys of both lists, each once; the order, which the source settles by sorting, is of no account.
  ghost predicate Merged(combined: seq<string>, own: seq<string>, global: seq<string>) {
    && (forall k :: k in combined <==> k in Keys(own) + Keys(global))
    && forall i, j :: 0 <= i < j < |combined| ==> combined[i] != combined[j]
  }

  // The patterns that count for an account: an account with an API key has none.
  function GlobalList(patterns: seq<string>, apiKey: bool): seq<string> {
    if apiKey then [] else patterns
  }

  lemma KeysOneMore(list: seq<string>, i: nat)
    requires i < |list|
    ensures Keys(list[..i + 1]) == Keys(list[..i]) + (if Trim(list[i]) != "" then {Key(list[i])} else {})
  {
    assert list[..i + 1] == list[..i] + [list[i]];
  }

  method AddEntries(seen: set<string>, list: seq<string>) returns (seen': set<string>)
    ensures seen' == seen + Keys(list)
  {
    seen' := seen;
    for i := 0 to |list|
      invariant seen' == seen + Keys(list[..i])
    {
      KeysOneMore(list, i);
      var trimmed := Trim(list[i]);
      if trimmed != "" {
        seen' := seen' + {ToLower(trimmed)};
      }
    }
    assert list[..|list|] == list;
  }

  // ApplyAuthExcludedModelsMeta: the attribute, empty where it is not set.
  method MergeExcluded(own: seq<string>, patterns: seq<string>, apiKey: bool)
    returns (combined: seq<string>, attribute: string)
    ensures Merged(combined, own, GlobalList(patterns, apiKey))
    ensures attribute == Join(combined)
  {
    var seen := AddEntries({}, own);
    if !apiKey {
      seen := AddEntries(seen, patterns);
    }
    combined := InSomeOrder(seen);
    attribute := Join(combined);
  }

  method InSomeOrder(seen: set<string>) returns (keys: seq<string>)
    ensures (forall k :: k in keys <==> k in seen)
    ensures forall i, j :: 0 <= i < j < |keys| ==> keys[i] != keys[j]
  {
    keys := [];
    var todo := seen;
    while todo != {}
      invariant todo <= seen && forall k :: k in keys <==> k in seen - todo
      invariant forall i, j :: 0 <= i < j < |keys| ==> keys[i] != keys[j]
      decreases todo
    {
      var k :| k in todo;
      assert forall i :: 0 <= i < |keys| ==> keys[i] in keys;
      todo, keys := todo - {k}, keys + [k];
    }
  }

  // What the filter is given: the attribute where it says anything, the patterns otherwise; for some
  // providers the entry an account's API key has in the configuration overrides both.
  function ListFor(attribute: string, patterns: seq<string>, apiKey: bool, entry: Option<seq<string>>): seq<string> {
    if apiKey && entry.Some? then entry.value
    else if Trim(attribute) != "" then Split(attribute, ',')
    else GlobalList(patterns, apiKey)
  }

  // ----- Splitting what was joined -----

  lemma {:induction false} SplitNone(p: string, sep: char)
    requires sep !in p
    ensures Split(p, sep) == [p]
  {
    if p != [] {
      SplitNone(p[1..], sep);
      assert [p[0]] + p[1..] == p;
    }
  }

  lemma SplitFirst(c: char, rest: string, sep: char)
    ensures Split([c] + rest, sep) ==
            if c == sep then [[]] + Split(rest, sep)
            else [[c] + Split(rest, sep)[0]] + Split(rest, sep)[1..]
  {
    assert ([c] + rest)[1..] == rest;
  }

  lemma {:induction false} SplitPast(a: string, b: string, sep: char)
    ensures Split(a + ([sep] + b), sep) == Split(a, sep) + Split(b, sep)
  {
    if a == [] {
      assert a + ([sep] + b) == [sep] + b;
      SplitFirst(sep, b, sep);
    } else {
      SplitPast(a[1..], b, sep);
      FirstOf(a, [sep] + b);
      SplitFirst(a[0], a[1..] + ([sep] + b), sep);
      SplitFirst(a[0], a[1..], sep);
      FirstGrows(a[0], Split(a[1..], sep), Split(b, sep), a[0] == sep);
    }
  }

  lemma FirstOf(a: string, b: string)
    requires a != []
    ensures a + b == [a[0]] + (a[1..] + b) && a == [a[0]] + a[1..]
  {
  }

  lemma FirstGrows(c: char, front: seq<string>, back: seq<string>, cut: bool)
    requires front != []
    ensures if cut then [[]] + (front + back) == ([[]] + front) + back
            else [[c] + (front + back)[0]] + (front + back)[1..] == ([[c] + front[0]] + front[1..]) + back
  {
  }

  // The pieces of every entry.
  function Pieces(entries: seq<string>): seq<string> {
    if entries == [] then [] else Split(entries[0], ',') + Pieces(entries[1..])
  }

  lemma {:induction false} SplitJoin(entries: seq<string>)
    requires entries != []
    ensures Split(Join(entries), ',') == Pieces(entries)
  {
    if |entries| > 1 {
      SplitJoin(entries[1..]);
      SplitPast(entries[0], Join(entries[1..]), ',');
      assert entries[0] + "," + Join(entries[1..]) == entries[0] + ([','] + Join(entries[1..]));
    } else {
      assert Pieces(entries[1..]) == [];
    }
  }

  lemma {:induction false} PieceFrom(entries: seq<string>, q: string) returns (e: string)
    requires q in Pieces(entries)
    ensures e in entries && q in Split(e, ',')
  {
    if q in Split(entries[0], ',') {
      e := entries[0];
    } else {
      e := PieceFrom(entries[1..], q);
    }
  }

  lemma {:induction false} PieceIn(entries: seq<string>, i: nat, q: string)
    requires i < |entries| && q in Split(entries[i], ',')
    ensures q in Pieces(entries)
  {
    if i > 0 {
      PieceIn(entries[1..], i - 1, q);
    }
  }

  // ----- What blocks a model -----

  ghost predicate Hits(pattern: string, id: string) {
    Excludes(Key(pattern), Key(id))
  }

  ghost predicate KeyHits(key: string, id: string) {
    exists q :: q in Split(key, ',') && Hits(q, id)
  }

  // Some piece of the entry, cut at its commas, excludes the model.
  ghost predicate EntryHits(entry: string, id: string) {
    KeyHits(Key(entry), id)
  }

  ghost predicate SomeHits(entries: seq<string>, id: string) {
    exists e :: e in entries && EntryHits(e, id)
  }

  lemma {:induction false} CleanFrom(excluded: seq<string>, p: string) returns (x: string)
    requires p in CleanPatterns(excluded)
    ensures x in excluded && Trim(x) != "" && p == Key(x)
  {
    var n := |excluded| - 1;
    if p in CleanPatterns(excluded[..n]) {
      x := CleanFrom(excluded[..n], p);
    } else {
      x := excluded[n];
    }
  }

  lemma {:induction false} CleanHas(excluded: seq<string>, i: nat)
    requires i < |excluded| && Trim(excluded[i]) != ""
    ensures Key(excluded[i]) in CleanPatterns(excluded)
    decreases |excluded|
  {
    if i < |excluded| - 1 {
      CleanHas(excluded[..|excluded| - 1], i);
    }
  }

  lemma BlockedByOne(list: seq<string>, id: string)
    ensures Blocked(CleanPatterns(list), id) <==> exists x :: x in list && Hits(x, id)
  {
    var patterns := CleanPatterns(list);
    if Blocked(patterns, id) {
      var i :| 0 <= i < |patterns| && Excludes(patterns[i], Key(id));
      var x := CleanFrom(list, patterns[i]);
      assert Hits(x, id);
    }
    if x :| x in list && Hits(x, id) {
      KeyEnds(x);
      var at :| 0 <= at < |list| && list[at] == x;
      CleanHas(list, at);
      var i :| 0 <= i < |patterns| && patterns[i] == Key(x);
      assert Excludes(patterns[i], Key(id));
    }
  }

  lemma BlankHitsNothing(entry: string, id: string)
    requires Trim(entry) == ""
    ensures !Hits(entry, id) && !EntryHits(entry, id)
  {
    KeyEnds(entry);
    SplitNone("", ',');
    assert Key("") == "";
  }

  lemma JoinedIsNotBlank(combined: seq<string>)
    requires combined != [] && exists x :: Trim(x) != "" && combined[0] == Key(x)
    ensures Trim(Join(combined)) != ""
  {
    var x :| Trim(x) != "" && combined[0] == Key(x);
    KeyEnds(x);
    TrimSomething(Join(combined));
  }

  lemma KeysAre(own: seq<string>, global: seq<string>, k: string)
    ensures k in Keys(own) + Keys(global) <==> exists x :: (x in own || x in global) && Trim(x) != "" && k == Key(x)
  {
  }

  lemma PiecesHit(combined: seq<string>, id: string)
    ensures (exists q :: q in Pieces(combined) && Hits(q, id)) <==> exists k :: k in combined && KeyHits(k, id)
  {
    if q :| q in Pieces(combined) && Hits(q, id) {
      var k := PieceFrom(combined, q);
      assert KeyHits(k, id);
    }
    if k :| k in combined && KeyHits(k, id) {
      var q :| q in Split(k, ',') && Hits(q, id);
      var i :| 0 <= i < |combined| && combined[i] == k;
      PieceIn(combined, i, q);
    }
  }

  lemma KeyIsOfEntry(combined: seq<string>, own: seq<string>, global: seq<string>, k: string, id: string)
    requires Merged(combined, own, global) && k in combined && KeyHits(k, id)
    ensures SomeHits(own, id) || SomeHits(global, id)
  {
    KeysAre(own, global, k);
    var x :| (x in own || x in global) && Trim(x) != "" && k == Key(x);
    assert EntryHits(x, id);
  }

  lemma EntryHasKey(combined: seq<string>, own: seq<string>, global: seq<string>, x: string, id: string)
    requires Merged(combined, own, global) && (x in own || x in global) && EntryHits(x, id)
    ensures Key(x) in combined && KeyHits(Key(x), id)
  {
    if Trim(x) == "" {
      BlankHitsNothing(x, id);
    }
    KeysAre(own, global, Key(x));
  }

  lemma EntriesHit(combined: seq<string>, own: seq<string>, global: seq<string>, id: string)
    requires Merged(combined, own, global)
    ensures (exists k :: k in combined && KeyHits(k, id)) <==> SomeHits(own, id) || SomeHits(global, id)
  {
    if k :| k in combined && KeyHits(k, id) {
      KeyIsOfEntry(combined, own, global, k, id);
    }
    if SomeHits(own, id) || SomeHits(global, id) {
      var x :| (x in own || x in global) && EntryHits(x, id);
      EntryHasKey(combined, own, global, x, id);
    }
  }

  // What keeps a model from being registered for an account: for one with an API key that has an entry in
  // the configuration, what that entry lists; otherwise a piece, between commas, of one of the account's
  // own entries or of a pattern that counts for it.
  lemma BlockedExactly(own: seq<string>, patterns: seq<string>, apiKey: bool, entry: Option<seq<string>>,
                       combined: seq<string>, id: string)
    requires Merged(combined, own, GlobalList(patterns, apiKey))
    ensures Blocked(CleanPatterns(ListFor(Join(combined), patterns, apiKey, entry)), id) <==>
            if apiKey && entry.Some? then exists x :: x in entry.value && Hits(x, id)
            else SomeHits(own, id) || (!apiKey && SomeHits(patterns, id))
  {
    if apiKey && entry.Some? {
      BlockedByOne(entry.value, id);
    } else {
      BlockedByAttribute(own, patterns, apiKey, combined, id);
      assert apiKey ==> forall x :: x !in GlobalList(patterns, apiKey);
    }
  }

  lemma BlockedByAttribute(own: seq<string>, patterns: seq<string>, apiKey: bool, combined: seq<string>, id: string)
    requires Merged(combined, own, GlobalList(patterns, apiKey))
    ensures Blocked(CleanPatterns(ListFor(Join(combined), patterns, apiKey, None)), id) <==>
            SomeHits(own, id) || SomeHits(GlobalList(patterns, apiKey), id)
  {
    var global := GlobalList(patterns, apiKey);
    BlockedByOne(ListFor(Join(combined), patterns, apiKey, None), id);
    EntriesHit(combined, own, global, id);
    if combined == [] {
      forall x | x in global ensures !Hits(x, id) {
        NothingMerged(own, global, x);
        BlankHitsNothing(x, id);
      }
    } else {
      KeysAre(own, global, combined[0]);
      JoinedIsNotBlank(combined);
      SplitJoin(combined);
      PiecesHit(combined, id);
    }
  }

  lemma NothingMerged(own: seq<string>, global: seq<string>, x: string)
    requires Merged([], own, global) && x in global
    ensures Trim(x) == ""
  {
    KeysAre(own, global, Key(x));
  }

  // ----- What the view shows -----

  // The patterns of a provider, those switched on, trimmed.
  ghost predicate ListsPatterns(entries: map<string, ProviderModels>, provider: string, list: seq<string>) {
    var p := ToLower(Trim(provider));
    forall x :: x in list <==>
      p != "" && p in entries && x != "" && exists name :: name in entries[p] && entries[p][name] && Trim(name) == x
  }

  ghost predicate PatternMatches(pattern: string, id: string) {
    Matches(Key(pattern), Key(id))
  }

  lemma NamedMatches(entries: map<string, ProviderModels>, provider: string, patterns: seq<string>, name: string,
                     id: string)
    requires ListsPatterns(entries, provider, patterns)
    requires var p := Key(provider); p != "" && p in entries && name in entries[p] && entries[p][name]
    requires Matches(Key(name), Key(id))
    ensures Trim(name) in patterns && PatternMatches(Trim(name), id)
  {
    KeyEnds(name);
    TrimIdempotent(name);
  }

  lemma PatternNamed(entries: map<string, ProviderModels>, provider: string, patterns: seq<string>, x: string,
                     id: string)
    requires ListsPatterns(entries, provider, patterns) && x in patterns && PatternMatches(x, id)
    ensures Disabled(entries, provider, id)
  {
    var p := Key(provider);
    var name :| name in entries[p] && entries[p][name] && Trim(name) == x;
    TrimIdempotent(name);
    assert Matches(Key(name), Key(id));
  }

  lemma DisabledByOne(entries: map<string, ProviderModels>, provider: string, patterns: seq<string>, id: string)
    requires ListsPatterns(entries, provider, patterns)
    ensures Disabled(entries, provider, id) <==> exists x :: x in patterns && PatternMatches(x, id)
  {
    if Disabled(entries, provider, id) {
      var p := Key(provider);
      var name :| name in entries[p] && entries[p][name] && p != "" && Matches(Key(name), Key(id));
      NamedMatches(entries, provider, patterns, name, id);
    }
    if x :| x in patterns && PatternMatches(x, id) {
      PatternNamed(entries, provider, patterns, x, id);
    }
  }

  // A pattern without a comma is one piece; what it excludes it also matches ...
  lemma OnePiece(pattern: string, id: string)
    requires ',' !in Key(pattern)
    ensures EntryHits(pattern, id) <==> Excludes(Key(pattern), Key(id))
  {
    SplitNone(Key(pattern), ',');
    KeyTwice(pattern);
    assert Key(pattern) in Split(Key(pattern), ',');
    assert Hits(Key(pattern), id) <==> Excludes(Key(pattern), Key(id));
  }

  // ... and, without a star or with one at its end, the other way round.
  ghost predicate SameToBoth(pattern: string) {
    ',' !in Key(pattern) && ('*' in Key(pattern) ==> EndsWithStar(Key(pattern)))
  }

  lemma HitIsMatch(pattern: string, id: string)
    requires Trim(id) != "" && ',' !in Key(pattern)
    ensures EntryHits(pattern, id) ==> PatternMatches(pattern, id)
    ensures SameToBoth(pattern) ==> (EntryHits(pattern, id) <==> PatternMatches(pattern, id))
  {
    KeyEnds(id);
    OnePiece(pattern, id);
    FilterAgreesWithView(Key(pattern));
  }

  ghost predicate HitsThroughComma(patterns: seq<string>, id: string) {
    exists x :: x in patterns && ',' in Key(x) && EntryHits(x, id)
  }

  ghost predicate MatchesLoosely(patterns: seq<string>, id: string) {
    exists x :: x in patterns && !SameToBoth(x) && PatternMatches(x, id)
  }

  // Of an account signed in through OAuth, given the keys in its attribute: the model is kept from
  // registration.
  ghost predicate BlockedBy(combined: seq<string>, patterns: seq<string>, id: string) {
    Blocked(CleanPatterns(ListFor(Join(combined), patterns, false, None)), id)
  }

  // A model that is kept from registration is shown as enabled
  // exactly if no pattern of the provider matches it, and an entry of the account's own excludes it or a
  // piece of a pattern with a comma does.
  lemma BlockedYetEnabled(entries: map<string, ProviderModels>, provider: string, own: seq<string>,
                          patterns: seq<string>, combined: seq<string>, id: string)
    requires ListsPatterns(entries, provider, patterns) && Merged(combined, own, patterns) && Trim(id) != ""
    ensures BlockedBy(combined, patterns, id) && !Disabled(entries, provider, id) <==>
            && (forall x :: x in patterns ==> !PatternMatches(x, id))
            && (SomeHits(own, id) || HitsThroughComma(patterns, id))
  {
    BlockedExactly(own, patterns, false, None, combined, id);
    DisabledByOne(entries, provider, patterns, id);
    forall x | x in patterns && ',' !in Key(x) && EntryHits(x, id) ensures PatternMatches(x, id) {
      HitIsMatch(x, id);
    }
  }

  // A model that is shown as disabled is registered exactly if nothing excludes it, and a pattern that
  // has a comma, or a star but none at its end, matches it.
  lemma DisabledYetRegistered(entries: map<string, ProviderModels>, provider: string, own: seq<string>,
                              patterns: seq<string>, combined: seq<string>, id: string)
    requires ListsPatterns(entries, provider, patterns) && Merged(combined, own, patterns) && Trim(id) != ""
    ensures Disabled(entries, provider, id) && !BlockedBy(combined, patterns, id) <==>
            && !SomeHits(own, id) && !SomeHits(patterns, id) && MatchesLoosely(patterns, id)
  {
    BlockedExactly(own, patterns, false, None, combined, id);
    DisabledByOne(entries, provider, patterns, id);
    forall x | x in patterns && SameToBoth(x) && PatternMatches(x, id) ensures EntryHits(x, id) {
      HitIsMatch(x, id);
    }
  }

  // An account's own entry, with no patterns at all: blocked, and shown as enabled.
  lemma OwnEntryHides(provider: string, id: string)
    requires id != "" && Key(id) == id && ',' !in id && '*' !in id
    ensures ListsPatterns(map[], provider, []) && Merged([id], [id], [])
    ensures BlockedBy([id], [], id) && !Disabled(map[], provider, id)
  {
    KeyEnds(id);
    assert Keys([id]) == {id} && Keys([]) == {};
    OnePiece(id, id);
    assert id in [id];
    BlockedYetEnabled(map[], provider, [id], [], [id], id);
  }

  lemma BothHidden(a: string, both: string)
    requires Key(a) == a && a != "" && '*' !in a && Key(both) == both && '*' !in both && a != both
    requires ',' in both && a in Split(both, ',')
    ensures HitsThroughComma([both], a) && !PatternMatches(both, a)
  {
    assert Hits(a, a);
    assert EntryHits(both, a) && both in [both];
  }

  lemma OnePatternBlocks(pattern: string, id: string)
    requires Merged([pattern], [], [pattern]) && HitsThroughComma([pattern], id)
    ensures BlockedBy([pattern], [pattern], id)
  {
    BlockedExactly([], [pattern], false, None, [pattern], id);
  }

  lemma OnePatternShown(entries: map<string, ProviderModels>, provider: string, pattern: string, id: string)
    requires ListsPatterns(entries, provider, [pattern]) && !PatternMatches(pattern, id)
    ensures !Disabled(entries, provider, id)
  {
    DisabledByOne(entries, provider, [pattern], id);
  }

  // One pattern with a comma: its first half is blocked, and not shown as disabled.
  lemma CommaHides(a: string, b: string)
    requires Key(a) == a && Key(b) == b && a != "" && b != ""
    requires ',' !in a && '*' !in a && ',' !in b && '*' !in b
    ensures var both := a + "," + b;
            var entries := map["p" := map[both := true]];
            && ListsPatterns(entries, "p", [both]) && Merged([both], [], [both])
            && BlockedBy([both], [both], a) && !Disabled(entries, "p", a)
  {
    var both := a + "," + b;
    KeyOfBoth(a, b);
    KeyEnds(a);
    PiecesOfBoth(a, b);
    BothHidden(a, both);
    OnePatternListed(both);
    OnePatternBlocks(both, a);
    OnePatternShown(map["p" := map[both := true]], "p", both, a);
  }

  lemma OnePatternListed(pattern: string)
    requires Trim(pattern) == pattern && Key(pattern) == pattern && pattern != ""
    ensures ListsPatterns(map["p" := map[pattern := true]], "p", [pattern]) && Merged([pattern], [], [pattern])
  {
    TrimClean("p");
    assert Key("p") == "p";
    assert Keys([pattern]) == {pattern} && Keys([]) == {};
  }

  lemma LowerBoth(a: string, b: string)
    requires ToLower(a) == a && ToLower(b) == b
    ensures ToLower(a + b) == a + b
  {
    forall i | 0 <= i < |a + b| ensures LowerChar((a + b)[i]) == (a + b)[i] {
      if i < |a| {
        assert (a + b)[i] == ToLower(a)[i];
      } else {
        assert (a + b)[i] == ToLower(b)[i - |a|];
      }
    }
  }

  lemma KeyIsTrimmed(a: string)
    requires Key(a) == a && a != ""
    ensures Trim(a) == a && ToLower(a) == a
  {
    KeyEnds(a);
    TrimClean(a);
  }

  lemma KeyOfBoth(a: string, b: string)
    requires Key(a) == a && Key(b) == b && a != "" && b != ""
    ensures Trim(a + "," + b) == a + "," + b && Key(a + "," + b) == a + "," + b
  {
    KeyEnds(a);
    KeyEnds(b);
    TrimClean(a + "," + b);
    KeyIsTrimmed(a);
    KeyIsTrimmed(b);
    LowerBoth(a, ",");
    LowerBoth(a + ",", b);
  }

  lemma PiecesOfBoth(a: string, b: string)
    requires ',' !in a && ',' !in b
    ensures a in Split(a + "," + b, ',')
  {
    assert a + "," + b == a + ([','] + b);
    SplitPast(a, b, ',');
    SplitNone(a, ',');
  }
}
