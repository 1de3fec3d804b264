/** Saving twice: merging a source into a file that already agrees with it leaves the file alone
    exactly if every sequence element finds its own counterpart again. */
module YamlSettled {
  import opened Text
  import opened YamlTree
  import opened YamlProofs
  import opened YamlMatching

  function UpTo(n: nat): (r: seq<int>)
    ensures |r| == n && forall i :: 0 <= i < n ==> r[i] == i
  {
    seq(n, i => i)
  }

  // Every element of s is matched to the element of m at its own place, on every level.
  ghost predicate Recognises(m: Tree, s: Tree)
    decreases s, 1
  {
    m.Node? && s.Node? && m.kind == s.kind ==>
      match s.kind
      case Sequence =>
        && |m.content| == |s.content|
        && Chosen(m.content, s.content, |s.content|) == UpTo(|s.content|)
        && forall i :: 0 <= i < |s.content| ==> Recognises(m.content[i], s.content[i])
      case Mapping =>
        forall j :: 0 <= j && 2 * j + 1 < |s.content| ==> ValueRecognises(m.content, KeyOf(s, j), s.content[2 * j + 1])
      case _ => true
  }

  ghost predicate ValueRecognises(content: seq<Tree>, key: string, value: Tree)
    decreases value, 2
  {
    match ValueOf(content, key)
    case Some(v) => Recognises(v, value)
    case None => true
  }

  // The note of what the merge puts in the i-th place, before it goes in: that of the element matched
  // to it, or of the source's own.
  function NoteComing(m: seq<Tree>, s: seq<Tree>, i: nat): string
    requires i < |s|
  {
    var from := Chosen(m, s, |s|)[i];
    var coming := if 0 <= from < |m| then m[from] else s[i];
    if coming.Node? then coming.note else ""
  }

  ghost predicate ToldApartAt(m: seq<Tree>, s: seq<Tree>, i: nat)
    requires i < |s| && i < |m|
  {
    m[i].Node? && Chosen(m, s, |s|)[i] != i ==> m[i].note != NoteComing(m, s, i)
  }

  // Where an element is not matched in its own place, its note differs from that of what comes there
  // instead: another element of m, or the element of s.
  ghost predicate ToldApart(m: Tree, s: Tree)
    decreases s, 1
  {
    m.Node? && s.Node? && m.kind == s.kind ==>
      match s.kind
      case Sequence =>
        && |m.content| == |s.content|
        && (forall i :: 0 <= i < |s.content| ==> ToldApartAt(m.content, s.content, i))
        && forall i :: 0 <= i < |s.content| ==> ToldApart(m.content[i], s.content[i])
      case Mapping =>
        forall j :: 0 <= j && 2 * j + 1 < |s.content| ==> ValueToldApart(m.content, KeyOf(s, j), s.content[2 * j + 1])
      case _ => true
  }

  ghost predicate ValueToldApart(content: seq<Tree>, key: string, value: Tree)
    decreases value, 2
  {
    match ValueOf(content, key)
    case Some(v) => ToldApart(v, value)
    case None => true
  }

  // ----- Keys stay where they are -----

  ghost predicate SameKeys(a: seq<Tree>, b: seq<Tree>) {
    |a| == |b| && forall j :: 0 <= j && 2 * j < |a| ==> a[2 * j] == b[2 * j]
  }

  lemma FindSameKeys(a: seq<Tree>, b: seq<Tree>, key: string)
    requires SameKeys(a, b)
    ensures Find(a, key) == Find(b, key)
  {
    forall j ensures KeyAt(a, key, j) <==> KeyAt(b, key, j) {
    }
    var at := Find(a, key);
    if at != -1 {
      FindsFirst(b, key, at);
    }
  }

  // What an agreeing mapping lacks is a known default, so nothing is added to it.
  ghost predicate LacksOnlyDefaults(content: seq<Tree>, s: Tree, path: Path)
    requires s.Node?
  {
    forall j :: 0 <= j && 2 * j + 1 < |s.content| && Find(content, KeyOf(s, j)) == -1 ==>
      IsKnownDefault(path + [KeyOf(s, j)], Prune(path + [KeyOf(s, j)], s.content[2 * j + 1]))
  }

  lemma AgreesLacksOnlyDefaults(m: Tree, s: Tree, path: Path)
    requires Agrees(m, s, path) && s.kind == Mapping
    ensures LacksOnlyDefaults(m.content, s, path)
  {
    forall j | 0 <= j && 2 * j + 1 < |s.content| && Find(m.content, KeyOf(s, j)) == -1
      ensures IsKnownDefault(path + [KeyOf(s, j)], Prune(path + [KeyOf(s, j)], s.content[2 * j + 1]))
    {
      ValueFinds(m.content, KeyOf(s, j));
      assert ValueAgrees(m.content, KeyOf(s, j), s.content[2 * j + 1], path);
    }
  }

  lemma PairKeepsKeys(content: seq<Tree>, s: Tree, j: nat, path: Path)
    requires s.Node? && 2 * j + 1 < |s.content|
    requires Find(content, KeyOf(s, j)) == -1 ==>
               IsKnownDefault(path + [KeyOf(s, j)], Prune(path + [KeyOf(s, j)], s.content[2 * j + 1]))
    ensures SameKeys(MergePair(content, s, j, path), content)
    ensures var at := Find(content, KeyOf(s, j));
            MergePair(content, s, j, path) ==
            if at == -1 then content
            else content[2 * at + 1 := MergeNode(content[2 * at + 1], s.content[2 * j + 1], path + [KeyOf(s, j)])]
  {
  }

  lemma {:induction false} MergedKeepsKeys(content: seq<Tree>, s: Tree, n: nat, path: Path)
    requires s.Node? && 2 * n <= |s.content| && LacksOnlyDefaults(content, s, path)
    ensures SameKeys(MergedPairs(content, s, n, path), content)
    decreases n
  {
    if n > 0 {
      var before := MergedPairs(content, s, n - 1, path);
      MergedKeepsKeys(content, s, n - 1, path);
      FindSameKeys(before, content, KeyOf(s, n - 1));
      PairKeepsKeys(before, s, n - 1, path);
    }
  }

  lemma SameLack(a: seq<Tree>, b: seq<Tree>, s: Tree, path: Path)
    requires s.Node? && SameKeys(a, b) && LacksOnlyDefaults(b, s, path)
    ensures LacksOnlyDefaults(a, s, path)
  {
    forall j | 0 <= j && 2 * j + 1 < |s.content| && Find(a, KeyOf(s, j)) == -1
      ensures IsKnownDefault(path + [KeyOf(s, j)], Prune(path + [KeyOf(s, j)], s.content[2 * j + 1]))
    {
      FindSameKeys(a, b, KeyOf(s, j));
    }
  }

  // One pair changes the value under its own key and no other.
  lemma PairElsewhere(content: seq<Tree>, s: Tree, i: nat, j: nat, at: nat, path: Path)
    requires Decoded(s) && CleanKeys(s) && s.kind == Mapping && 2 * i + 1 < |s.content| && 2 * j + 1 < |s.content|
    requires LacksOnlyDefaults(content, s, path) && Find(content, KeyOf(s, j)) == at && i != j
    ensures SameKeys(MergePair(content, s, i, path), content)
    ensures MergePair(content, s, i, path)[2 * at + 1] == content[2 * at + 1]
  {
    PairKeepsKeys(content, s, i, path);
    KeysDistinct(s, i, j);
  }

  // The value at one place after n pairs.
  ghost function PlaceAfter(content: seq<Tree>, s: Tree, n: nat, at: nat, path: Path): Tree
    requires s.Node? && 2 * n <= |s.content| && LacksOnlyDefaults(content, s, path) && 2 * at + 1 < |content|
  {
    MergedKeepsKeys(content, s, n, path);
    MergedPairs(content, s, n, path)[2 * at + 1]
  }

  lemma PairTurn(content: seq<Tree>, s: Tree, i: nat, j: nat, at: nat, path: Path)
    requires Decoded(s) && CleanKeys(s) && s.kind == Mapping && 2 * i + 1 < |s.content| && 2 * j + 1 < |s.content|
    requires LacksOnlyDefaults(content, s, path) && Find(content, KeyOf(s, j)) == at && i != j
    ensures PlaceAfter(content, s, i + 1, at, path) == PlaceAfter(content, s, i, at, path)
  {
    var before := MergedPairs(content, s, i, path);
    MergedKeepsKeys(content, s, i, path);
    SameLack(before, content, s, path);
    FindSameKeys(before, content, KeyOf(s, j));
    PairElsewhere(before, s, i, j, at, path);
  }

  lemma OwnTurn(content: seq<Tree>, s: Tree, j: nat, at: nat, path: Path)
    requires Decoded(s) && CleanKeys(s) && s.kind == Mapping && 2 * j + 1 < |s.content|
    requires LacksOnlyDefaults(content, s, path) && Find(content, KeyOf(s, j)) == at
    ensures PlaceAfter(content, s, j + 1, at, path)
            == MergeNode(PlaceAfter(content, s, j, at, path), s.content[2 * j + 1], path + [KeyOf(s, j)])
  {
    var before := MergedPairs(content, s, j, path);
    MergedKeepsKeys(content, s, j, path);
    SameLack(before, content, s, path);
    FindSameKeys(before, content, KeyOf(s, j));
    PairKeepsKeys(before, s, j, path);
  }

  lemma {:induction false} Unchanged(content: seq<Tree>, s: Tree, m: nat, n: nat, j: nat, at: nat, path: Path)
    requires Decoded(s) && CleanKeys(s) && s.kind == Mapping && 2 * n <= |s.content| && 2 * j + 1 < |s.content|
    requires LacksOnlyDefaults(content, s, path) && Find(content, KeyOf(s, j)) == at && m <= n && (j < m || n <= j)
    ensures PlaceAfter(content, s, n, at, path) == PlaceAfter(content, s, m, at, path)
    decreases n
  {
    if m < n {
      Unchanged(content, s, m, n - 1, j, at, path);
      PairTurn(content, s, n - 1, j, at, path);
    }
  }

  // In the end the value of a key is the merge of the one it had.
  lemma MergedValue(content: seq<Tree>, s: Tree, j: nat, at: nat, path: Path)
    requires Decoded(s) && CleanKeys(s) && s.kind == Mapping && 2 * j + 1 < |s.content|
    requires LacksOnlyDefaults(content, s, path) && Find(content, KeyOf(s, j)) == at
    ensures PlaceAfter(content, s, |s.content| / 2, at, path)
            == MergeNode(content[2 * at + 1], s.content[2 * j + 1], path + [KeyOf(s, j)])
  {
    Unchanged(content, s, 0, j, j, at, path);
    OwnTurn(content, s, j, at, path);
    Unchanged(content, s, j + 1, |s.content| / 2, j, at, path);
  }

  // ----- Dropping nothing -----

  lemma {:induction false} KeepsAll(content: seq<Tree>, keep: set<string>, j: nat)
    requires 2 * j <= |content|
    requires forall i :: j <= i && 2 * i + 1 < |content| && content[2 * i].Node? ==> Trim(content[2 * i].value) in keep
    ensures KeepPairs(content, keep, j) == content[2 * j..]
    decreases |content| - 2 * j
  {
    if 2 * j + 1 < |content| {
      KeepsAll(content, keep, j + 1);
      assert content[2 * j..] == content[2 * j..2 * j + 2] + content[2 * (j + 1)..];
    }
  }

  lemma PrunesNothing(m: Tree, s: Tree)
    requires m.Node? && Decoded(s) && (m.kind == Mapping && s.kind == Mapping ==> NoExtraKeys(m, s) && NoBlankKeys(s))
    ensures PruneMissing(m, s) == m
  {
    if m.kind == Mapping && s.kind == Mapping {
      forall i | 0 <= i && 2 * i + 1 < |m.content| && m.content[2 * i].Node?
        ensures Trim(m.content[2 * i].value) in KeysKept(s)
      {
        var j :| 0 <= j && 2 * j + 1 < |s.content| && s.content[2 * j].Node?
                 && Trim(s.content[2 * j].value) == Trim(m.content[2 * i].value);
        KeyKept(s, j);
        assert Trim(KeyOf(s, j)) != "";
      }
      KeepsAll(m.content, KeysKept(s), 0);
      assert m.content[0..] == m.content;
    }
  }

  // ----- Recognised means left alone -----

  lemma {:induction false} MergedIsSame(content: seq<Tree>, s: Tree, n: nat, path: Path)
    requires s.Node? && 2 * n <= |s.content| && LacksOnlyDefaults(content, s, path)
    requires forall j :: 0 <= j < n && Find(content, KeyOf(s, j)) != -1 ==>
               var v := content[2 * Find(content, KeyOf(s, j)) + 1];
               MergeNode(v, s.content[2 * j + 1], path + [KeyOf(s, j)]) == v
    ensures MergedPairs(content, s, n, path) == content
    decreases n
  {
    if n > 0 {
      MergedIsSame(content, s, n - 1, path);
      PairKeepsKeys(content, s, n - 1, path);
    }
  }

  lemma {:induction false} ItemAt(content: seq<Tree>, s: Tree, n: nat, i: nat, path: Path)
    requires s.Node? && i < n <= |s.content|
    ensures MergedItems(content, s, n, path)[i]
            == MergeItem(if i < |content| then content[i] else Nil, s.content[i], path)
    decreases n
  {
    if i < n - 1 {
      ItemAt(content, s, n - 1, i, path);
    }
  }

  lemma InPlace(m: seq<Tree>, s: seq<Tree>)
    requires |m| == |s| && Chosen(m, s, |s|) == UpTo(|s|)
    ensures Reordered(m, s) == m
  {
  }

  lemma {:induction false} LeftAlone(m: Tree, s: Tree, path: Path)
    requires Decoded(m) && Decoded(s) && CleanKeys(s) && Agrees(m, s, path) && Recognises(m, s)
    ensures MergeNode(m, s, path) == m
    decreases s
  {
    match s.kind
    case Sequence =>
      if m.kind == Sequence {
        InPlace(m.content, s.content);
        var items := MergedItems(m.content, s, |s.content|, path);
        forall i | 0 <= i < |s.content| ensures items[i] == m.content[i] {
          ItemAt(m.content, s, |s.content|, i, path);
          LeftAlone(m.content[i], s.content[i], path);
          PrunesNothing(m.content[i], s.content[i]);
        }
        assert items == m.content;
      }
    case Mapping =>
      AgreesLacksOnlyDefaults(m, s, path);
      forall j | 0 <= j < |s.content| / 2 && Find(m.content, KeyOf(s, j)) != -1
        ensures var v := m.content[2 * Find(m.content, KeyOf(s, j)) + 1];
                MergeNode(v, s.content[2 * j + 1], path + [KeyOf(s, j)]) == v
      {
        ValueFinds(m.content, KeyOf(s, j));
        assert ValueAgrees(m.content, KeyOf(s, j), s.content[2 * j + 1], path);
        assert ValueRecognises(m.content, KeyOf(s, j), s.content[2 * j + 1]);
        LeftAlone(ValueOf(m.content, KeyOf(s, j)).value, s.content[2 * j + 1], path + [KeyOf(s, j)]);
      }
      MergedIsSame(m.content, s, |s.content| / 2, path);
    case _ =>
  }

  // ----- Left alone means recognised -----

  // Of an agreeing element that a merge and the pruning after it leave alone, the merge alone does.
  lemma ItemLeftAlone(m: Tree, s: Tree, path: Path)
    requires Decoded(m) && Decoded(s) && Agrees(m, s, path) && MergeItem(m, s, path) == m
    requires s.kind == Mapping ==> NoExtraKeys(m, s) && NoBlankKeys(s)
    ensures MergeNode(m, s, path) == m
  {
    if s.kind == Mapping {
      AgreesLacksOnlyDefaults(m, s, path);
      MergedKeepsKeys(m.content, s, |s.content| / 2, path);
      var merged := MergeNode(m, s, path);
      assert merged == MergeMapping(m, s, path) && merged.content == MergedPairs(m.content, s, |s.content| / 2, path);
      forall j | 0 <= j && 2 * j + 1 < |merged.content| && merged.content[2 * j].Node?
        ensures HasTrimmed(s, Trim(merged.content[2 * j].value))
      {
        assert merged.content[2 * j] == m.content[2 * j];
      }
      PrunesNothing(merged, s);
    }
  }

  lemma ItemNote(d: Tree, s: Tree, path: Path)
    requires d.Node?
    ensures MergeItem(d, s, path).Node? && MergeItem(d, s, path).note == d.note
  {
    NoteKept(d, s, path);
  }

  // With notes of their own, the elements that stay as they are were matched in place.
  lemma StayedInPlace(m: Tree, s: Tree, path: Path)
    requires Decoded(m) && Decoded(s) && m.kind == Sequence && s.kind == Sequence && |m.content| == |s.content|
    requires ToldApart(m, s)
    requires MergedItems(Reordered(m.content, s.content), s, |s.content|, path) == m.content
    ensures Chosen(m.content, s.content, |s.content|) == UpTo(|s.content|)
  {
    if m.content != [] {
      var chosen, ordered := Chosen(m.content, s.content, |s.content|), Reordered(m.content, s.content);
      ChosenInjective(m.content, s.content, |s.content|);
      forall i | 0 <= i < |s.content| ensures chosen[i] == i {
        ItemAt(ordered, s, |s.content|, i, path);
        assert m.content[i].Node? && s.content[i].Node? && ToldApartAt(m.content, s.content, i);
        if ordered[i].Node? {
          ItemNote(ordered[i], s.content[i], path);
          assert m.content[chosen[i]].note == m.content[i].note;
        }
      }
    }
  }

  lemma {:induction false} LeftAloneRecognises(m: Tree, s: Tree, path: Path)
    requires Decoded(m) && Decoded(s) && CleanKeys(s) && Agrees(m, s, path) && ToldApart(m, s)
    requires MergeNode(m, s, path) == m
    ensures Recognises(m, s)
    decreases s
  {
    match s.kind
    case Sequence =>
      if m.kind == Sequence {
        StayedInPlace(m, s, path);
        InPlace(m.content, s.content);
        forall i | 0 <= i < |s.content| ensures Recognises(m.content[i], s.content[i]) {
          ItemAt(m.content, s, |s.content|, i, path);
          ItemLeftAlone(m.content[i], s.content[i], path);
          LeftAloneRecognises(m.content[i], s.content[i], path);
        }
      }
    case Mapping =>
      AgreesLacksOnlyDefaults(m, s, path);
      forall j | 0 <= j && 2 * j + 1 < |s.content|
        ensures ValueRecognises(m.content, KeyOf(s, j), s.content[2 * j + 1])
      {
        ValueFinds(m.content, KeyOf(s, j));
        if Find(m.content, KeyOf(s, j)) != -1 {
          MergedValue(m.content, s, j, Find(m.content, KeyOf(s, j)), path);
          assert ValueAgrees(m.content, KeyOf(s, j), s.content[2 * j + 1], path);
          assert ValueToldApart(m.content, KeyOf(s, j), s.content[2 * j + 1]);
          LeftAloneRecognises(ValueOf(m.content, KeyOf(s, j)).value, s.content[2 * j + 1], path + [KeyOf(s, j)]);
        }
      }
    case _ =>
  }

  // A file that agrees with the source is left as it is by another merge, notes included, if every
  // element is matched in its own place (LeftAlone); and only then, where each element that is not can be
  // told by its note from what comes in its place.
  lemma SettlesExactly(m: Tree, s: Tree, path: Path)
    requires Decoded(m) && Decoded(s) && CleanKeys(s) && Agrees(m, s, path) && ToldApart(m, s)
    ensures MergeNode(m, s, path) == m <==> Recognises(m, s)
  {
    if Recognises(m, s) {
      LeftAlone(m, s, path);
    }
    if MergeNode(m, s, path) == m {
      LeftAloneRecognises(m, s, path);
    }
  }

  // ----- What a merge leaves is a decoded tree again -----

  lemma {:induction false} KeptDecoded(content: seq<Tree>, keep: set<string>, j: nat)
    requires AllDecoded(content) && 2 * j <= |content|
    ensures AllDecoded(KeepPairs(content, keep, j))
    decreases |content| - 2 * j
  {
    if 2 * j + 1 < |content| {
      KeptDecoded(content, keep, j + 1);
      KeptOrCut(content, keep, j);
      PartDecoded(content, keep, j);
      JoinDecoded(KeptPart(content, keep, j), KeepPairs(content, keep, j + 1));
    } else {
      EndDecoded(content, j);
    }
  }

  lemma PartDecoded(content: seq<Tree>, keep: set<string>, j: nat)
    requires AllDecoded(content) && 2 * j + 1 < |content|
    ensures AllDecoded(KeptPart(content, keep, j))
  {
  }

  // Nothing is behind the last pair.
  lemma EndDecoded(content: seq<Tree>, j: nat)
    requires AllDecoded(content) && |content| - 1 <= 2 * j <= |content|
    ensures AllDecoded(content[2 * j..])
  {
    assert 2 * j == |content|;
  }

  lemma JoinDecoded(a: seq<Tree>, b: seq<Tree>)
    requires AllDecoded(a) && AllDecoded(b)
    ensures AllDecoded(a + b)
  {
  }

  lemma {:induction false} PrunedDecoded(path: Path, t: Tree)
    requires Decoded(t)
    ensures Decoded(Prune(path, t))
    decreases t, 1
  {
    if t.kind == Mapping {
      PrunedPairsDecoded(path, t, 0);
    } else if t.kind == Sequence {
      PrunedItemsDecoded(path, t, |t.content|);
    }
  }

  lemma {:induction false} PrunedPairsDecoded(path: Path, t: Tree, j: nat)
    requires Decoded(t) && t.kind == Mapping
    ensures AllDecoded(PrunePairs(path, t, j))
    decreases t, 0, |t.content| - 2 * j
  {
    if 2 * j + 1 < |t.content| {
      PrunedPairsDecoded(path, t, j + 1);
      PrunedDecoded(path + [t.content[2 * j].value], t.content[2 * j + 1]);
      PrunedPair(path, t, j);
      JoinDecoded(PrunedPart(path, t, j), PrunePairs(path, t, j + 1));
    }
  }

  lemma {:induction false} PrunedItemsDecoded(path: Path, t: Tree, n: nat)
    requires Decoded(t) && n <= |t.content|
    ensures forall i :: 0 <= i < n ==> Decoded(PruneItems(path, t, n)[i])
    decreases t, 0, n
  {
    if n > 0 {
      PrunedItemsDecoded(path, t, n - 1);
      PrunedDecoded(path, t.content[n - 1]);
    }
  }

  lemma {:induction false} MergedDecoded(d: Tree, s: Tree, path: Path)
    requires Decoded(d) && Decoded(s)
    ensures Decoded(MergeNode(d, s, path))
    decreases s, 2
  {
    match s.kind
    case Mapping =>
      PairsDecoded(if d.kind != Mapping then s.content else d.content, s, |s.content| / 2, path);
    case Sequence =>
      var content := if d.kind != Sequence then [] else d.content;
      if content != [] && s.content != [] {
        ChosenAreOriginals(content, s.content);
      }
      ItemsDecoded(Reordered(content, s.content), s, |s.content|, path);
    case _ =>
  }

  lemma {:induction false} ItemsDecoded(content: seq<Tree>, s: Tree, n: nat, path: Path)
    requires Decoded(s) && n <= |s.content|
    requires forall i :: 0 <= i < |content| ==> content[i].Nil? || Decoded(content[i])
    ensures forall i :: 0 <= i < n ==> Decoded(MergedItems(content, s, n, path)[i])
    decreases s, 0, n
  {
    if n > 0 {
      ItemsDecoded(content, s, n - 1, path);
      ItemDecoded(if n - 1 < |content| then content[n - 1] else Nil, s.content[n - 1], path);
    }
  }

  lemma {:induction false} ItemDecoded(d: Tree, s: Tree, path: Path)
    requires (d.Nil? || Decoded(d)) && Decoded(s)
    ensures Decoded(MergeItem(d, s, path))
    decreases s, 3
  {
    if d.Node? {
      MergedDecoded(d, s, path);
      var merged := MergeNode(d, s, path);
      if merged.kind == Mapping && s.kind == Mapping {
        KeptDecoded(merged.content, KeysKept(s), 0);
      }
    }
  }

  lemma {:induction false} PairsDecoded(content: seq<Tree>, s: Tree, n: nat, path: Path)
    requires AllDecoded(content) && Decoded(s) && s.kind == Mapping && 2 * n <= |s.content|
    ensures AllDecoded(MergedPairs(content, s, n, path))
    decreases s, 0, n
  {
    if n > 0 {
      PairsDecoded(content, s, n - 1, path);
      PairDecoded(MergedPairs(content, s, n - 1, path), s, n - 1, path);
    }
  }

  lemma {:induction false} PairDecoded(content: seq<Tree>, s: Tree, j: nat, path: Path)
    requires AllDecoded(content) && Decoded(s) && s.kind == Mapping && 2 * j + 1 < |s.content|
    ensures AllDecoded(MergePair(content, s, j, path))
    decreases s, 0, j
  {
    var at, child := Find(content, KeyOf(s, j)), path + [KeyOf(s, j)];
    if at != -1 {
      MergedDecoded(content[2 * at + 1], s.content[2 * j + 1], child);
      PutDecoded(content, 2 * at + 1, MergeNode(content[2 * at + 1], s.content[2 * j + 1], child));
    } else {
      PrunedDecoded(child, s.content[2 * j + 1]);
      JoinDecoded(content, [s.content[2 * j], Prune(child, s.content[2 * j + 1])]);
    }
  }

  lemma PutDecoded(content: seq<Tree>, i: nat, t: Tree)
    requires AllDecoded(content) && i < |content| && Decoded(t)
    ensures AllDecoded(content[i := t])
  {
  }

  // Saving twice: what one merge leaves, the next leaves alone if every element of it is matched in its
  // own place, whatever the notes; and only then, where the notes tell what was moved.
  lemma SavedTwice(d: Tree, s: Tree, path: Path)
    requires Decoded(d) && Decoded(s) && CleanKeys(s)
    ensures var m := MergeNode(d, s, path);
            && (Recognises(m, s) ==> MergeNode(m, s, path) == m)
            && (ToldApart(m, s) ==> (MergeNode(m, s, path) == m <==> Recognises(m, s)))
  {
    var m := MergeNode(d, s, path);
    MergedDecoded(d, s, path);
    MergeAgrees(d, s, path);
    if Recognises(m, s) {
      LeftAlone(m, s, path);
    }
    if ToldApart(m, s) {
      SettlesExactly(m, s, path);
    }
  }

  // ----- A file that does not settle -----

  function Plain(value: string, note: string): Tree {
    Node(Scalar, "!!str", value, note, [])
  }

  function Pairs(k1: string, v1: string, k2: string, v2: string, note: string): Tree {
    Node(Mapping, "!!map", "", note, [Plain(k1, note), Plain(v1, note), Plain(k2, note), Plain(v2, note)])
  }

  function ListOf(item: Tree, note: string): Tree {
    Node(Sequence, "!!seq", "", note, [item])
  }

  // The same element with its two keys in another order; the notes are the file's comments.
  const FILE := ListOf(Pairs("y", "2", "x", "1", "mine"), "mine")
  const SOURCE := ListOf(Pairs("x", "1", "y", "2", "new"), "new")

  lemma TrimShort(c: char)
    requires !IsSpace(c)
    ensures Trim([c]) == [c]
  {
    assert TrimLeft([c]) == [c];
  }

  ghost predicate OneLetterKeys(content: seq<Tree>) {
    forall j :: 0 <= j && 2 * j + 1 < |content| && content[2 * j].Node? ==> |Trim(content[2 * j].value)| == 1
  }

  lemma {:induction false} NoScalarUnder(content: seq<Tree>, key: string, j: nat)
    requires |key| > 1 && OneLetterKeys(content)
    ensures ScalarUnder(content, key, j) == ""
    decreases |content| - 2 * j
  {
    if 2 * j + 1 < |content| {
      NoScalarUnder(content, key, j + 1);
      if content[2 * j].Node? {
        assert |ToLower(Trim(content[2 * j].value))| == 1 && |ToLower(key)| == |key|;
      }
    }
  }

  lemma LongKeys(i: nat)
    requires i < |IDENTITY_KEYS|
    ensures |IDENTITY_KEYS[i]| > 1
  {
  }

  lemma {:induction false} NoIdentityKeys(content: seq<Tree>, i: nat)
    requires OneLetterKeys(content)
    ensures IdentityFrom(content, i) == FirstScalar(content, 0)
    decreases |IDENTITY_KEYS| - i
  {
    if i < |IDENTITY_KEYS| {
      LongKeys(i);
      NoScalarUnder(content, IDENTITY_KEYS[i], 0);
      NoIdentityKeys(content, i + 1);
    }
  }

  // The first pair of such an element names it.
  lemma NamedByFirst(k1: char, v1: char, k2: char, v2: string, note: string)
    requires !IsSpace(k1) && !IsSpace(v1) && !IsSpace(k2)
    ensures Identity(Pairs([k1], [v1], [k2], v2, note)) == ToLower([k1]) + "=" + [v1]
  {
    TrimShort(k1);
    TrimShort(v1);
    TrimShort(k2);
    var content := Pairs([k1], [v1], [k2], v2, note).content;
    NoIdentityKeys(content, 0);
    assert content[0].value == [k1] && content[1].value == [v1];
  }

  lemma OtherName(k1: char, v1: char, k2: char, v2: char, note: string, note': string)
    requires 'a' <= k1 <= 'z' && 'a' <= k2 <= 'z' && k1 != k2 && !IsSpace(v1) && !IsSpace(v2)
    ensures !SameName(Pairs([k1], [v1], [k2], [v2], note), Pairs([k2], [v2], [k1], [v1], note'))
  {
    NamedByFirst(k1, v1, k2, [v2], note);
    NamedByFirst(k2, v2, k1, [v1], note');
    assert (ToLower([k1]) + "=" + [v1])[0] == k1 && (ToLower([k2]) + "=" + [v2])[0] == k2;
  }

  lemma OtherShape()
    ensures !SameShape(FILE.content[0], SOURCE.content[0])
  {
    TrimShort('x');
    TrimShort('y');
    var o, t := FILE.content[0].content[0], SOURCE.content[0].content[0];
    assert o.value == "y" && t.value == "x";
    assert !StructEq(o, t);
  }

  lemma Unmatched()
    ensures Chosen(FILE.content, SOURCE.content, 1) == [-1]
  {
    OtherName('y', '2', 'x', '1', "mine", "new");
    OtherShape();
    assert Chosen(FILE.content, SOURCE.content, 0) == [];
    assert MatchElement(FILE.content, InUse([]), SOURCE.content[0]) == -1;
  }

  lemma Replaced()
    ensures MergeNode(FILE, SOURCE, []).content == SOURCE.content
  {
    Unmatched();
    assert Reordered(FILE.content, SOURCE.content) == [Nil];
    ItemAt([Nil], SOURCE, 1, 0, []);
    assert MergedItems([Nil], SOURCE, 1, []) == SOURCE.content;
  }

  lemma ValueIn(k1: string, v1: string, k2: string, v2: string, note: string)
    requires k1 != k2
    ensures ValueOf(Pairs(k1, v1, k2, v2, note).content, k1) == Some(Plain(v1, note))
    ensures ValueOf(Pairs(k1, v1, k2, v2, note).content, k2) == Some(Plain(v2, note))
  {
    var content := Pairs(k1, v1, k2, v2, note).content;
    assert ValueFrom(content, k2, 1) == Some(content[3]);
  }

  lemma SaysTheSame()
    ensures Agrees(FILE.content[0], SOURCE.content[0], []) && NoExtraKeys(FILE.content[0], SOURCE.content[0])
  {
    ValueIn("y", "2", "x", "1", "mine");
    var m, s := FILE.content[0], SOURCE.content[0];
    forall j | 0 <= j && 2 * j + 1 < |s.content| ensures ValueAgrees(m.content, KeyOf(s, j), s.content[2 * j + 1], []) {
      assert j == 0 || j == 1;
    }
    forall j | 0 <= j && 2 * j + 1 < |m.content| && m.content[2 * j].Node?
      ensures HasTrimmed(s, Trim(m.content[2 * j].value))
    {
      assert j == 0 || j == 1;
      assert s.content[2 * (1 - j)].value == m.content[2 * j].value;
    }
  }

  lemma NotRecognised()
    ensures !Recognises(FILE, SOURCE)
  {
    Unmatched();
    assert UpTo(1)[0] == 0;
  }

  lemma FileToldApart()
    ensures ToldApart(FILE, SOURCE)
  {
    PairToldApart();
    assert FILE.content[0].note != SOURCE.content[0].note;
  }

  lemma FileAgrees()
    ensures Agrees(FILE, SOURCE, [])
  {
    SaysTheSame();
  }

  // The file says what the source says, yet the next merge replaces the element and its comments.
  lemma CanUnsettle()
    ensures Agrees(FILE, SOURCE, []) && ToldApart(FILE, SOURCE) && !Recognises(FILE, SOURCE)
    ensures MergeNode(FILE, SOURCE, []).content == SOURCE.content != FILE.content
  {
    FileAgrees();
    FileToldApart();
    NotRecognised();
    Replaced();
    assert FILE.content[0].note != SOURCE.content[0].note;
  }

  lemma PairToldApart()
    ensures ToldApart(FILE.content[0], SOURCE.content[0])
  {
    ValueIn("y", "2", "x", "1", "mine");
    var m, s := FILE.content[0], SOURCE.content[0];
    forall j | 0 <= j && 2 * j + 1 < |s.content| ensures ValueToldApart(m.content, KeyOf(s, j), s.content[2 * j + 1]) {
      assert j == 0 || j == 1;
    }
  }
}
