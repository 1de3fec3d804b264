/** The merge preserves what the source tree means, the destination's notes and its foreign keys. */
module YamlProofs {
  import opened Text
  import opened YamlTree

  // A tree as the decoder builds it: no missing nodes, no aliases, keys paired with values.
  ghost predicate Decoded(t: Tree)
    decreases t
  {
    && t.Node? && (t.kind == Scalar || t.kind == Sequence || t.kind == Mapping)
    && (t.kind == Mapping ==> |t.content| % 2 == 0)
    && forall i :: 0 <= i < |t.content| ==> Decoded(t.content[i])
  }

  ghost predicate NoBlankKeys(t: Tree)
    requires t.Node?
  {
    forall j :: 0 <= j && 2 * j + 1 < |t.content| ==> Trim(KeyOf(t, j)) != ""
  }

  // The keys of every mapping are distinct, and none is blank in a mapping that is a sequence element.
  ghost predicate CleanKeys(t: Tree)
    decreases t
  {
    && t.Node?
    && (forall i :: 0 <= i < |t.content| ==> CleanKeys(t.content[i]))
    && (t.kind == Mapping ==>
          forall i, j :: 0 <= i < j < |t.content| / 2 ==> t.content[2 * i].value != t.content[2 * j].value)
    && (t.kind == Sequence ==>
          forall i :: 0 <= i < |t.content| && t.content[i].kind == Mapping ==> NoBlankKeys(t.content[i]))
  }

  ghost predicate HasKey(s: Tree, key: string)
    requires s.Node?
  {
    exists j :: KeyAt(s.content, key, j)
  }

  ghost predicate HasTrimmed(s: Tree, key: string)
    requires s.Node?
  {
    exists j :: 0 <= j && 2 * j + 1 < |s.content| && s.content[2 * j].Node? && Trim(s.content[2 * j].value) == key
  }

  // Every key of d is, trimmed, a trimmed key of s.
  ghost predicate NoExtraKeys(d: Tree, s: Tree)
    requires d.Node? && s.Node?
  {
    forall j :: 0 <= j && 2 * j + 1 < |d.content| && d.content[2 * j].Node? ==>
      HasTrimmed(s, Trim(d.content[2 * j].value))
  }

  // d says what s says: scalars have s's tag and value; sequences have s's elements, and where an
  // element is a mapping no others keys; null may stand for an empty sequence; every key of s has
  // a value in d that agrees, or is absent because its value prunes to a known default.
  ghost predicate Agrees(d: Tree, s: Tree, path: Path)
    decreases s, 0
  {
    && d.Node? && s.Node?
    && match s.kind
       case Scalar => d.kind == Scalar && d.tag == s.tag && d.value == s.value
       case Sequence =>
         || (d.kind == Scalar && d.tag == "!!null" && s.content == [])
         || (d.kind == Sequence && |d.content| == |s.content| &&
             forall i :: 0 <= i < |s.content| ==>
               Agrees(d.content[i], s.content[i], path) &&
               (s.content[i].kind == Mapping ==> NoExtraKeys(d.content[i], s.content[i])))
       case Mapping =>
         d.kind == Mapping &&
         forall j ::
             0 <= j && 2 * j + 1 < |s.content| ==> ValueAgrees(d.content, KeyOf(s, j), s.content[2 * j + 1], path)
       case _ => false
  }

  ghost predicate ValueAgrees(content: seq<Tree>, key: string, value: Tree, path: Path)
    decreases value, 1
  {
    match ValueOf(content, key)
    case Some(v) => Agrees(v, value, path + [key])
    case None => IsKnownDefault(path + [key], Prune(path + [key], value))
  }

  // The value a mapping's content has under a key, read from the j-th pair on.
  ghost function ValueFrom(content: seq<Tree>, key: string, j: nat): Option<Tree>
    decreases |content| - 2 * j
  {
    if 2 * j + 1 >= |content| then None
    else if KeyAt(content, key, j) then Some(content[2 * j + 1])
    else ValueFrom(content, key, j + 1)
  }

  ghost function ValueOf(content: seq<Tree>, key: string): Option<Tree> {
    ValueFrom(content, key, 0)
  }

  // ----- Finding keys -----

  lemma FindsFirst(content: seq<Tree>, key: string, j: int)
    requires KeyAt(content, key, j) && forall i :: 0 <= i < j ==> !KeyAt(content, key, i)
    ensures Find(content, key) == j
  {
  }

  lemma {:induction false} ValueFromFinds(content: seq<Tree>, key: string, j: nat)
    ensures var at := FindFrom(content, key, j);
            ValueFrom(content, key, j) == if at == -1 then None else Some(content[2 * at + 1])
    decreases |content| - 2 * j
  {
    if 2 * j + 1 < |content| && !KeyAt(content, key, j) {
      ValueFromFinds(content, key, j + 1);
    }
  }

  lemma ValueFinds(content: seq<Tree>, key: string)
    ensures var at := Find(content, key);
            ValueOf(content, key) == if at == -1 then None else Some(content[2 * at + 1])
  {
    ValueFromFinds(content, key, 0);
  }

  lemma KeysDistinct(t: Tree, i: nat, j: nat)
    requires Decoded(t) && CleanKeys(t) && t.kind == Mapping && 2 * i + 1 < |t.content| && 2 * j + 1 < |t.content|
    ensures KeyOf(t, i) == KeyOf(t, j) ==> i == j
  {
  }

  lemma FindsDistinct(s: Tree, j: int)
    requires Decoded(s) && CleanKeys(s) && s.kind == Mapping && 0 <= j && 2 * j + 1 < |s.content|
    ensures Find(s.content, KeyOf(s, j)) == j
  {
    var key := KeyOf(s, j);
    assert KeyAt(s.content, key, j);
    forall i | 0 <= i < j ensures !KeyAt(s.content, key, i) {
      assert s.content[2 * i].value != s.content[2 * j].value;
    }
    FindsFirst(s.content, key, j);
  }

  // ----- A copy agrees with its original -----

  lemma {:induction false} CopyAgrees(s: Tree, path: Path)
    requires Decoded(s) && CleanKeys(s)
    ensures Agrees(s, s, path)
    ensures s.kind == Mapping ==> NoExtraKeys(s, s)
    decreases s
  {
    match s.kind
    case Sequence =>
      forall i | 0 <= i < |s.content|
        ensures Agrees(s.content[i], s.content[i], path)
        ensures s.content[i].kind == Mapping ==> NoExtraKeys(s.content[i], s.content[i])
      {
        CopyAgrees(s.content[i], path);
      }
    case Mapping =>
      forall j | 0 <= j && 2 * j + 1 < |s.content|
        ensures ValueAgrees(s.content, KeyOf(s, j), s.content[2 * j + 1], path)
      {
        FindsDistinct(s, j);
        ValueFinds(s.content, KeyOf(s, j));
        CopyAgrees(s.content[2 * j + 1], path + [KeyOf(s, j)]);
      }
    case _ =>
  }

  // ----- A pruned copy agrees with its original -----

  lemma {:induction false} PrunedItem(path: Path, t: Tree, n: nat, i: nat)
    requires t.Node? && i < n <= |t.content|
    ensures PruneItems(path, t, n)[i] == Prune(path, t.content[i])
  {
    if i < n - 1 {
      PrunedItem(path, t, n - 1, i);
    }
  }

  // What PrunePairs leaves from pair j on: the staying pairs, pruned.
  // A pair behind the first part, if that is a pair or nothing, is one of the rest.
  lemma Later(part: seq<Tree>, rest: seq<Tree>, at: nat) returns (later: nat)
    requires (part == [] || (|part| == 2 && at > 0)) && 2 * at + 1 < |part + rest|
    ensures 2 * later + 1 < |rest| && later == (if part == [] then at else at - 1)
    ensures (part + rest)[2 * at] == rest[2 * later] && (part + rest)[2 * at + 1] == rest[2 * later + 1]
  {
    later := if part == [] then at else at - 1;
  }

  lemma KeyLater(part: seq<Tree>, rest: seq<Tree>, key: string, at: int)
    requires (part == [] || |part| == 2) && KeyAt(rest, key, at)
    ensures KeyAt(part + rest, key, if part == [] then at else at + 1)
  {
  }

  lemma {:induction false} PairsComeFrom(path: Path, t: Tree, j: nat, at: nat) returns (i: nat)
    requires t.Node? && 2 * at + 1 < |PrunePairs(path, t, j)|
    ensures j <= i && 2 * i + 1 < |t.content| && StaysPair(path, t.content[2 * i], t.content[2 * i + 1])
    ensures PrunePairs(path, t, j)[2 * at] == t.content[2 * i]
    ensures PrunePairs(path, t, j)[2 * at + 1] == Prune(path + [t.content[2 * i].value], t.content[2 * i + 1])
    decreases |t.content| - 2 * j
  {
    var part := PrunedPart(path, t, j);
    PrunedPair(path, t, j);
    if part != [] && at == 0 {
      i := j;
    } else {
      var later := Later(part, PrunePairs(path, t, j + 1), at);
      i := PairsComeFrom(path, t, j + 1, later);
    }
  }

  lemma {:induction false} PairStays(path: Path, t: Tree, j: nat, i: nat)
    requires t.Node? && j <= i && 2 * i + 1 < |t.content| && StaysPair(path, t.content[2 * i], t.content[2 * i + 1])
    ensures exists at :: KeyAt(PrunePairs(path, t, j), t.content[2 * i].value, at)
    decreases |t.content| - 2 * j
  {
    var key, part, rest := t.content[2 * i].value, PrunedPart(path, t, j), PrunePairs(path, t, j + 1);
    PrunedPair(path, t, j);
    if i == j {
      assert KeyAt(part + rest, key, 0);
    } else {
      PairStays(path, t, j + 1, i);
      var at :| KeyAt(rest, key, at);
      KeyLater(part, rest, key, at);
    }
  }

  lemma {:induction false} NoneStays(path: Path, t: Tree, j: nat)
    requires t.Node?
    requires forall i :: j <= i && 2 * i + 1 < |t.content| ==> !StaysPair(path, t.content[2 * i], t.content[2 * i + 1])
    ensures PrunePairs(path, t, j) == []
    decreases |t.content| - 2 * j
  {
    if 2 * j + 1 < |t.content| {
      NoneStays(path, t, j + 1);
    }
  }

  // A key found after pruning was there before, at the one place the clean mapping has it.
  lemma PrunedComesFrom(path: Path, t: Tree, j: nat, at: nat)
    requires Decoded(t) && CleanKeys(t) && t.kind == Mapping && 2 * j + 1 < |t.content|
    requires KeyAt(PrunePairs(path, t, 0), KeyOf(t, j), at)
    ensures StaysPair(path, t.content[2 * j], t.content[2 * j + 1])
    ensures PrunePairs(path, t, 0)[2 * at + 1] == Prune(path + [KeyOf(t, j)], t.content[2 * j + 1])
  {
    var i := PairsComeFrom(path, t, 0, at);
    KeysDistinct(t, i, j);
  }

  // Where a key of a clean mapping ends up after pruning.
  lemma PrunedLookup(path: Path, t: Tree, j: nat)
    requires Decoded(t) && CleanKeys(t) && t.kind == Mapping && 2 * j + 1 < |t.content|
    ensures var out, key, value := PrunePairs(path, t, 0), KeyOf(t, j), t.content[2 * j + 1];
            ValueOf(out, key) ==
              if StaysPair(path, t.content[2 * j], value) then Some(Prune(path + [key], value)) else None
  {
    ValueFinds(PrunePairs(path, t, 0), KeyOf(t, j));
    if StaysPair(path, t.content[2 * j], t.content[2 * j + 1]) {
      PairStays(path, t, 0, j);
    }
    var at := Find(PrunePairs(path, t, 0), KeyOf(t, j));
    if at != -1 {
      PrunedComesFrom(path, t, j, at);
    }
  }

  lemma {:induction false} PruneKeepsZero(path: Path, t: Tree)
    requires Decoded(t) && IsZero(t)
    ensures IsZero(Prune(path, t))
    decreases t
  {
    if t.kind == Sequence {
      forall i | 0 <= i < |t.content| ensures IsZero(Prune(path, t).content[i]) {
        PrunedItem(path, t, |t.content|, i);
        PruneKeepsZero(path, t.content[i]);
      }
    } else if t.kind == Mapping {
      forall i | 0 <= i && 2 * i + 1 < |t.content| ensures !StaysPair(path, t.content[2 * i], t.content[2 * i + 1]) {
        assert IsZero(t.content[2 * i + 1]);
      }
      NoneStays(path, t, 0);
    }
  }

  lemma PruneKeepsDefault(path: Path, t: Tree)
    requires Decoded(t) && IsKnownDefault(path, t)
    ensures IsKnownDefault(path, Prune(path, t))
  {
    if IsZero(t) {
      PruneKeepsZero(path, t);
    }
  }

  lemma EmptyIsZero(t: Tree)
    requires EmptyCollection(t)
    ensures IsZero(t)
  {
  }

  lemma {:induction false} PrunedAgrees(path: Path, s: Tree)
    requires Decoded(s) && CleanKeys(s)
    ensures Agrees(Prune(path, s), s, path)
    ensures s.kind == Mapping ==> NoExtraKeys(Prune(path, s), s)
    decreases s
  {
    match s.kind
    case Sequence =>
      forall i | 0 <= i < |s.content|
        ensures Agrees(Prune(path, s).content[i], s.content[i], path)
        ensures s.content[i].kind == Mapping ==> NoExtraKeys(Prune(path, s).content[i], s.content[i])
      {
        PrunedItem(path, s, |s.content|, i);
        PrunedAgrees(path, s.content[i]);
      }
    case Mapping =>
      var out := PrunePairs(path, s, 0);
      forall j | 0 <= j && 2 * j + 1 < |s.content|
        ensures ValueAgrees(out, KeyOf(s, j), s.content[2 * j + 1], path)
      {
        var child, value := path + [KeyOf(s, j)], s.content[2 * j + 1];
        PrunedLookup(path, s, j);
        if StaysPair(path, s.content[2 * j], value) {
          PrunedAgrees(child, value);
        } else if IsKnownDefault(child, value) {
          PruneKeepsDefault(child, value);
        } else {
          EmptyIsZero(Prune(child, value));
        }
      }
      forall j | 0 <= j && 2 * j + 1 < |out| && out[2 * j].Node? ensures HasTrimmed(s, Trim(out[2 * j].value)) {
        var i := PairsComeFrom(path, s, 0, j);
      }
    case _ =>
  }

  // ----- Dropping the keys the source lacks -----

  lemma {:induction false} ValueShift(k: Tree, v: Tree, rest: seq<Tree>, key: string, j: nat)
    ensures ValueFrom([k, v] + rest, key, j + 1) == ValueFrom(rest, key, j)
    decreases |rest| - 2 * j
  {
    if 2 * j + 1 < |rest| {
      ValueShift(k, v, rest, key, j + 1);
    }
  }

  lemma ValuePastPair(k: Tree, v: Tree, rest: seq<Tree>, key: string)
    ensures ValueOf([k, v] + rest, key) == if k.Node? && k.value == key then Some(v) else ValueOf(rest, key)
  {
    ValueShift(k, v, rest, key, 0);
  }

  lemma {:induction false} KeptLookup(content: seq<Tree>, keep: set<string>, key: string, j: nat)
    requires 2 * j <= |content| && Trim(key) in keep
    ensures ValueOf(KeepPairs(content, keep, j), key) == ValueFrom(content, key, j)
    decreases |content| - 2 * j
  {
    if 2 * j + 1 >= |content| {
      assert |KeepPairs(content, keep, j)| <= 1;
    } else {
      KeptLookup(content, keep, key, j + 1);
      var k, v, rest := content[2 * j], content[2 * j + 1], KeepPairs(content, keep, j + 1);
      KeptOrCut(content, keep, j);
      if k.Nil? || Trim(k.value) in keep {
        ValuePastPair(k, v, rest, key);
      } else {
        assert [] + rest == rest;
      }
    }
  }

  lemma {:induction false} KeptKeys(content: seq<Tree>, keep: set<string>, j: nat, at: nat)
    requires 2 * j <= |content| && 2 * at + 1 < |KeepPairs(content, keep, j)|
             && KeepPairs(content, keep, j)[2 * at].Node?
    ensures Trim(KeepPairs(content, keep, j)[2 * at].value) in keep
    decreases |content| - 2 * j
  {
    if 2 * j + 1 < |content| {
      var part := KeptPart(content, keep, j);
      KeptOrCut(content, keep, j);
      if part == [] || at > 0 {
        var later := Later(part, KeepPairs(content, keep, j + 1), at);
        KeptKeys(content, keep, j + 1, later);
      }
    }
  }

  lemma KeyKept(s: Tree, j: nat)
    requires Decoded(s) && s.kind == Mapping && 2 * j + 1 < |s.content|
    ensures Trim(KeyOf(s, j)) in KeysKept(s) <==> Trim(KeyOf(s, j)) != ""
  {
    assert 0 <= j < |s.content| / 2;
  }

  // What a mapping has under a key of s after it lost the keys s lacks.
  lemma AfterPruning(d: Tree, s: Tree, j: nat)
    requires Decoded(s) && d.Node? && d.kind == Mapping && s.kind == Mapping && 2 * j + 1 < |s.content|
    ensures ValueOf(PruneMissing(d, s).content, KeyOf(s, j)) ==
            if Trim(KeyOf(s, j)) == "" then None else ValueOf(d.content, KeyOf(s, j))
  {
    var key, out := KeyOf(s, j), KeepPairs(d.content, KeysKept(s), 0);
    KeyKept(s, j);
    if Trim(key) == "" {
      ValueFinds(out, key);
      var at := Find(out, key);
      if at != -1 {
        KeptKeys(d.content, KeysKept(s), 0, at);
      }
    } else {
      KeptLookup(d.content, KeysKept(s), key, 0);
    }
  }

  lemma PrunedHasNoExtra(d: Tree, s: Tree)
    requires d.Node? && s.Node? && d.kind == Mapping && s.kind == Mapping
    ensures NoExtraKeys(PruneMissing(d, s), s)
  {
    var out := KeepPairs(d.content, KeysKept(s), 0);
    forall j | 0 <= j && 2 * j + 1 < |out| && out[2 * j].Node? ensures HasTrimmed(s, Trim(out[2 * j].value)) {
      KeptKeys(d.content, KeysKept(s), 0, j);
      var i :| 0 <= i < |s.content| / 2 && s.content[2 * i].Node?
          && Trim(s.content[2 * i].value) == Trim(out[2 * j].value);
      assert 2 * i + 1 < |s.content|;
    }
  }

  lemma PruneMissingAgrees(d: Tree, s: Tree, path: Path)
    requires Decoded(s) && Agrees(d, s, path) && (s.kind == Mapping ==> NoBlankKeys(s))
    ensures Agrees(PruneMissing(d, s), s, path)
    ensures s.kind == Mapping ==> NoExtraKeys(PruneMissing(d, s), s)
  {
    if s.kind == Mapping {
      PrunedHasNoExtra(d, s);
      var out := PruneMissing(d, s).content;
      forall j | 0 <= j && 2 * j + 1 < |s.content|
        ensures ValueAgrees(out, KeyOf(s, j), s.content[2 * j + 1], path)
      {
        AfterPruning(d, s, j);
        assert ValueAgrees(d.content, KeyOf(s, j), s.content[2 * j + 1], path);
      }
    }
  }

  // ----- The merge -----

  ghost predicate AllDecoded(content: seq<Tree>) {
    |content| % 2 == 0 && forall i :: 0 <= i < |content| ==> Decoded(content[i])
  }

  lemma PairKeepsOthers(content: seq<Tree>, s: Tree, j: nat, path: Path, key: string)
    requires s.Node? && 2 * j + 1 < |s.content| && s.content[2 * j].Node? && KeyOf(s, j) != key && |content| % 2 == 0
    ensures |MergePair(content, s, j, path)| % 2 == 0
    ensures ValueOf(MergePair(content, s, j, path), key) == ValueOf(content, key)
  {
    var out := MergePair(content, s, j, path);
    forall i | 0 <= i ensures KeyAt(out, key, i) <==> KeyAt(content, key, i) {
    }
    if Find(content, key) != -1 {
      FindsFirst(out, key, Find(content, key));
    }
    ValueFinds(out, key);
    ValueFinds(content, key);
  }

  // The pairs of s leave alone every key s does not have.
  lemma {:induction false} PairsKeepOthers(content: seq<Tree>, s: Tree, n: nat, path: Path, key: string)
    requires Decoded(s) && s.kind == Mapping && 2 * n <= |s.content| && |content| % 2 == 0
    requires forall j :: 0 <= j < n ==> KeyOf(s, j) != key
    ensures |MergedPairs(content, s, n, path)| % 2 == 0
    ensures ValueOf(MergedPairs(content, s, n, path), key) == ValueOf(content, key)
  {
    if n > 0 {
      PairsKeepOthers(content, s, n - 1, path, key);
      PairKeepsOthers(MergedPairs(content, s, n - 1, path), s, n - 1, path, key);
    }
  }

  lemma ChosenAreOriginals(originals: seq<Tree>, targets: seq<Tree>)
    requires originals != [] && targets != []
    requires forall i :: 0 <= i < |originals| ==> Decoded(originals[i])
    ensures |Reordered(originals, targets)| == |targets|
    ensures forall i :: 0 <= i < |targets| ==>
              Reordered(originals, targets)[i].Nil? || Decoded(Reordered(originals, targets)[i])
  {
  }

  lemma {:induction false} MergeAgrees(d: Tree, s: Tree, path: Path)
    requires Decoded(d) && Decoded(s) && CleanKeys(s)
    ensures Agrees(MergeNode(d, s, path), s, path)
    decreases s, 2
  {
    match s.kind
    case Mapping =>
      MappingAgrees(if d.kind != Mapping then CopyOnto(d, s) else d, s, path);
    case Sequence =>
      if !(d.kind == Scalar && d.tag == "!!null" && s.content == []) {
        var content := if d.kind != Sequence then [] else d.content;
        if content != [] && s.content != [] {
          ChosenAreOriginals(content, s.content);
        }
        ItemsAgree(Reordered(content, s.content), s, |s.content|, path);
      }
    case _ =>
  }

  lemma {:induction false} ItemsAgree(content: seq<Tree>, s: Tree, n: nat, path: Path)
    requires Decoded(s) && CleanKeys(s) && s.kind == Sequence && n <= |s.content|
    requires forall i :: 0 <= i < |content| ==> content[i].Nil? || Decoded(content[i])
    ensures forall i :: 0 <= i < n ==>
              Agrees(MergedItems(content, s, n, path)[i], s.content[i], path) &&
              (s.content[i].kind == Mapping ==> NoExtraKeys(MergedItems(content, s, n, path)[i], s.content[i]))
    decreases s, 0, n
  {
    if n > 0 {
      ItemsAgree(content, s, n - 1, path);
      var item, e := if n - 1 < |content| then content[n - 1] else Nil, s.content[n - 1];
      if item.Nil? {
        CopyAgrees(e, path);
      } else {
        MergeAgrees(item, e, path);
        PruneMissingAgrees(MergeNode(item, e, path), e, path);
      }
    }
  }

  lemma {:induction false} MappingAgrees(d: Tree, s: Tree, path: Path)
    requires Decoded(s) && CleanKeys(s) && s.kind == Mapping && d.Node? && d.kind == Mapping && AllDecoded(d.content)
    ensures Agrees(MergeMapping(d, s, path), s, path)
    decreases s, 1
  {
    forall j | 0 <= j && 2 * j + 1 < |s.content|
      ensures ValueAgrees(MergeMapping(d, s, path).content, KeyOf(s, j), s.content[2 * j + 1], path)
    {
      PairAgrees(d.content, s, j, path);
      ValueStays(d.content, s, |s.content| / 2, j, path);
      SameValueAgrees(MergeMapping(d, s, path).content, MergedPairs(d.content, s, j + 1, path), KeyOf(s, j),
                      s.content[2 * j + 1], path);
    }
  }

  lemma FoundDecoded(content: seq<Tree>, key: string)
    requires AllDecoded(content)
    ensures ValueOf(content, key).Some? ==> Decoded(ValueOf(content, key).value)
  {
    ValueFinds(content, key);
  }

  lemma SameValueAgrees(a: seq<Tree>, b: seq<Tree>, key: string, value: Tree, path: Path)
    requires value.Node? && ValueOf(a, key) == ValueOf(b, key) && ValueAgrees(b, key, value, path)
    ensures ValueAgrees(a, key, value, path)
  {
  }

  // The value under a key after n pairs.
  ghost function ValueAfter(content: seq<Tree>, s: Tree, n: nat, key: string, path: Path): Option<Tree>
    requires s.Node? && 2 * n <= |s.content|
  {
    ValueOf(MergedPairs(content, s, n, path), key)
  }

  lemma OtherTurn(content: seq<Tree>, s: Tree, n: nat, j: nat, path: Path)
    requires Decoded(s) && CleanKeys(s) && s.kind == Mapping && j < n && 2 * n + 1 < |s.content| && |content| % 2 == 0
    ensures ValueAfter(content, s, n + 1, KeyOf(s, j), path) == ValueAfter(content, s, n, KeyOf(s, j), path)
  {
    KeysDistinct(s, j, n);
    PairsKeepOthersEven(content, s, n, path);
    PairKeepsOthers(MergedPairs(content, s, n, path), s, n, path, KeyOf(s, j));
  }

  // Once its pair had its turn, the value of a key stays.
  lemma {:induction false} ValueStays(content: seq<Tree>, s: Tree, n: nat, j: nat, path: Path)
    requires Decoded(s) && CleanKeys(s) && s.kind == Mapping && j < n && 2 * n <= |s.content| && |content| % 2 == 0
    ensures ValueAfter(content, s, n, KeyOf(s, j), path) == ValueAfter(content, s, j + 1, KeyOf(s, j), path)
    decreases n
  {
    if j + 1 < n {
      ValueStays(content, s, n - 1, j, path);
      OtherTurn(content, s, n - 1, j, path);
    }
  }

  lemma {:induction false} PairAgrees(content: seq<Tree>, s: Tree, j: nat, path: Path)
    requires Decoded(s) && CleanKeys(s) && s.kind == Mapping && 2 * j + 1 < |s.content| && AllDecoded(content)
    ensures ValueAgrees(MergedPairs(content, s, j + 1, path), KeyOf(s, j), s.content[2 * j + 1], path)
    decreases s, 0, 1
  {
    forall i | 0 <= i < j ensures KeyOf(s, i) != KeyOf(s, j) {
      KeysDistinct(s, i, j);
    }
    PairsKeepOthers(content, s, j, path, KeyOf(s, j));
    FoundDecoded(content, KeyOf(s, j));
    LandedAgrees(MergedPairs(content, s, j, path), s, j, path);
  }

  lemma {:induction false} LandedAgrees(content: seq<Tree>, s: Tree, j: nat, path: Path)
    requires Decoded(s) && CleanKeys(s) && s.kind == Mapping && 2 * j + 1 < |s.content| && |content| % 2 == 0
    requires var v := ValueOf(content, KeyOf(s, j)); v.Some? ==> Decoded(v.value)
    ensures ValueAgrees(MergePair(content, s, j, path), KeyOf(s, j), s.content[2 * j + 1], path)
    decreases s, 0, 0
  {
    var value, child := s.content[2 * j + 1], path + [KeyOf(s, j)];
    var v := ValueOf(content, KeyOf(s, j));
    if v.Some? {
      MergeAgrees(v.value, value, child);
    } else {
      PrunedAgrees(child, value);
    }
    PairLands(content, s, j, path);
  }

  lemma {:induction false} PairsKeepOthersEven(content: seq<Tree>, s: Tree, n: nat, path: Path)
    requires Decoded(s) && s.kind == Mapping && 2 * n <= |s.content| && |content| % 2 == 0
    ensures |MergedPairs(content, s, n, path)| % 2 == 0
  {
    if n > 0 {
      PairsKeepOthersEven(content, s, n - 1, path);
    }
  }

  // Where the pair itself ends up.
  lemma PairLands(content: seq<Tree>, s: Tree, j: nat, path: Path)
    requires s.Node? && 2 * j + 1 < |s.content| && s.content[2 * j].Node? && |content| % 2 == 0
    ensures var key, value, child := KeyOf(s, j), s.content[2 * j + 1], path + [KeyOf(s, j)];
            ValueOf(MergePair(content, s, j, path), key) ==
            match ValueOf(content, key)
            case Some(v) => Some(MergeNode(v, value, child))
            case None => if IsKnownDefault(child, Prune(child, value)) then None else Some(Prune(child, value))
  {
    var key := KeyOf(s, j);
    var out, at := MergePair(content, s, j, path), Find(content, key);
    ValueFinds(content, key);
    ValueFinds(out, key);
    if at != -1 {
      forall i | 0 <= i ensures KeyAt(out, key, i) <==> KeyAt(content, key, i) {
      }
      FindsFirst(out, key, at);
    } else if out != content {
      forall i | 0 <= i < |content| / 2 ensures !KeyAt(out, key, i) {
        assert !KeyAt(content, key, i);
      }
      FindsFirst(out, key, |content| / 2);
    }
  }

  // ----- What the destination keeps -----

  lemma NoteKept(d: Tree, s: Tree, path: Path)
    requires d.Node?
    ensures MergeNode(d, s, path).Node? && MergeNode(d, s, path).note == d.note
  {
  }

  // A node that becomes a mapping takes the source's tag, one that becomes a sequence that of sequences;
  // one that was of the kind already keeps its own.
  lemma KindChanges(d: Tree, s: Tree, path: Path)
    requires d.Node? && s.Node?
    ensures var m := MergeNode(d, s, path);
            && m.Node?
            && (s.kind == Mapping ==> m.kind == Mapping && m.tag == if d.kind == Mapping then d.tag else s.tag)
            && (s.kind == Mapping && d.kind != Mapping ==> m.value == s.value)
            && (s.kind == Sequence && !(d.kind == Scalar && d.tag == "!!null" && s.content == []) ==>
                  m.kind == Sequence && m.tag == if d.kind == Sequence then d.tag else "!!seq")
  {
  }

  // Keys, their order and every note of an existing mapping stay; new keys come after.
  lemma {:induction false} PlacesKept(content: seq<Tree>, s: Tree, n: nat, path: Path)
    requires s.Node? && 2 * n <= |s.content|
    ensures var out := MergedPairs(content, s, n, path);
            && |content| <= |out|
            && (forall j :: 0 <= j && 2 * j < |content| ==> out[2 * j] == content[2 * j])
            && (forall i :: 0 <= i < |content| && content[i].Node? ==> out[i].Node? && out[i].note == content[i].note)
  {
    if n > 0 {
      PlacesKept(content, s, n - 1, path);
      var before := MergedPairs(content, s, n - 1, path);
      var at := Find(before, KeyOf(s, n - 1));
      if at != -1 && before[2 * at + 1].Node? {
        NoteKept(before[2 * at + 1], s.content[2 * n - 1], path + [KeyOf(s, n - 1)]);
      }
    }
  }

  // A key the source does not have keeps its value, whole.
  lemma ForeignKeysKept(d: Tree, s: Tree, path: Path, key: string)
    requires Decoded(d) && Decoded(s) && d.kind == Mapping && s.kind == Mapping && !HasKey(s, key)
    ensures ValueOf(MergeMapping(d, s, path).content, key) == ValueOf(d.content, key)
  {
    forall j | 0 <= j < |s.content| / 2 ensures KeyOf(s, j) != key {
      if KeyOf(s, j) == key {
        assert KeyAt(s.content, key, j);
      }
    }
    PairsKeepOthers(d.content, s, |s.content| / 2, path, key);
  }

  // Where a matched element may have blank keys they are lost, so it still says what the source
  // says exactly if every value under a blank key prunes to a known default.
  lemma MatchedAgreesExactly(d: Tree, s: Tree, path: Path)
    requires Decoded(d) && Decoded(s) && CleanKeys(s) && d.kind == Mapping && s.kind == Mapping
    ensures Agrees(MergeItem(d, s, path), s, path) <==>
            forall j :: 0 <= j && 2 * j + 1 < |s.content| && Trim(KeyOf(s, j)) == "" ==>
              IsKnownDefault(path + [KeyOf(s, j)], Prune(path + [KeyOf(s, j)], s.content[2 * j + 1]))
  {
    var merged := MergeNode(d, s, path);
    MergeAgrees(d, s, path);
    NoteKept(d, s, path);
    var out := MergeItem(d, s, path).content;
    forall j | 0 <= j && 2 * j + 1 < |s.content|
      ensures ValueAgrees(out, KeyOf(s, j), s.content[2 * j + 1], path) <==>
              (Trim(KeyOf(s, j)) == "" ==>
                 IsKnownDefault(path + [KeyOf(s, j)], Prune(path + [KeyOf(s, j)], s.content[2 * j + 1])))
    {
      AfterPruning(merged, s, j);
      assert ValueAgrees(merged.content, KeyOf(s, j), s.content[2 * j + 1], path);
    }
  }
}
