/** By what a mapping among the elements of a sequence is recognised: its title, read off its keys. */
module YamlNames {
  import opened Text
  import opened YamlTree

  // ----- Titles -----

  // The pair has the key, white space around it and capitals aside, and a scalar value.
  ghost predicate ScalarPair(t: Tree, key: string, j: int)
    requires t.Node?
  {
    && 0 <= j && 2 * j + 1 < |t.content| && t.content[2 * j].Node? && t.content[2 * j + 1].Node?
    && t.content[2 * j + 1].kind == Scalar && ToLower(Trim(t.content[2 * j].value)) == ToLower(key)
  }

  ghost predicate FirstScalarPair(t: Tree, key: string, j: int)
    requires t.Node?
  {
    ScalarPair(t, key, j) && forall i :: 0 <= i < j ==> !ScalarPair(t, key, i)
  }

  // The first such pair has the value, white space around it aside.
  ghost predicate Under(t: Tree, key: string, value: string)
    requires t.Node?
  {
    exists j :: FirstScalarPair(t, key, j) && Trim(t.content[2 * j + 1].value) == value
  }

  // There is no such pair, or the first one has a blank value.
  ghost predicate Blank(t: Tree, key: string)
    requires t.Node?
  {
    forall j :: FirstScalarPair(t, key, j) ==> Trim(t.content[2 * j + 1].value) == ""
  }

  // The keys that name an element, the earlier ones first.
  const NAMING := ["id", "name", "alias", "api-key", "api_key", "apikey", "key", "provider", "model"]

  ghost predicate BlankUpTo(t: Tree, i: int)
    requires t.Node?
  {
    forall k :: 0 <= k < i && k < 9 ==> Blank(t, NAMING[k])
  }

  ghost predicate NamedUnder(t: Tree, i: int, value: string)
    requires t.Node?
  {
    0 <= i < 9 && value != "" && Under(t, NAMING[i], value) && BlankUpTo(t, i)
  }

  // A pair with a scalar that is not blank.
  ghost predicate TellingPair(t: Tree, j: int)
    requires t.Node?
  {
    && 0 <= j && 2 * j + 1 < |t.content| && t.content[2 * j].Node? && t.content[2 * j + 1].Node?
    && t.content[2 * j + 1].kind == Scalar && Trim(t.content[2 * j + 1].value) != ""
  }

  ghost predicate FirstTelling(t: Tree, j: int)
    requires t.Node?
  {
    TellingPair(t, j) && forall i :: 0 <= i < j ==> !TellingPair(t, i)
  }

  ghost predicate TitledByName(t: Tree, title: string)
    requires t.Node?
  {
    exists i, value :: NamedUnder(t, i, value) && title == NAMING[i] + "=" + value
  }

  ghost predicate TitledByFirst(t: Tree, title: string)
    requires t.Node?
  {
    exists j :: FirstTelling(t, j)
                && title == ToLower(Trim(t.content[2 * j].value)) + "=" + Trim(t.content[2 * j + 1].value)
  }

  // A mapping is titled by the first naming key that has a value and that value; without one by the first
  // pair that has a scalar at all.
  ghost predicate Titled(t: Tree, title: string) {
    && t.Node? && t.kind == Mapping
    && (TitledByName(t, title) || (BlankUpTo(t, 9) && TitledByFirst(t, title)))
  }

  // ----- The title is what the matching compares -----

  ghost predicate UnderOrNone(t: Tree, key: string, value: string)
    requires t.Node?
  {
    Under(t, key, value) || (value == "" && forall i :: !ScalarPair(t, key, i))
  }

  ghost predicate NoPairBefore(t: Tree, key: string, j: int)
    requires t.Node?
  {
    forall i :: 0 <= i < j ==> !ScalarPair(t, key, i)
  }

  lemma NoneBehind(t: Tree, key: string, j: nat)
    requires t.Node? && 2 * j + 1 >= |t.content| && NoPairBefore(t, key, j)
    ensures UnderOrNone(t, key, ScalarUnder(t.content, key, j))
  {
  }

  lemma NotThisPair(t: Tree, key: string, j: nat)
    requires t.Node? && NoPairBefore(t, key, j) && !ScalarPair(t, key, j)
    ensures NoPairBefore(t, key, j + 1)
  {
  }

  lemma ThisPair(t: Tree, key: string, j: nat)
    requires t.Node? && NoPairBefore(t, key, j) && ScalarPair(t, key, j)
    ensures UnderOrNone(t, key, ScalarUnder(t.content, key, j))
  {
    ScalarUnderTakes(t, key, j);
    UnderFirst(t, key, j);
  }

  // What ScalarUnder finds from the j-th pair on.
  lemma {:induction false} ScalarUnderFinds(t: Tree, key: string, j: nat)
    requires t.Node? && NoPairBefore(t, key, j)
    ensures UnderOrNone(t, key, ScalarUnder(t.content, key, j))
    decreases |t.content| - 2 * j
  {
    if 2 * j + 1 >= |t.content| {
      NoneBehind(t, key, j);
    } else if ScalarPair(t, key, j) {
      ThisPair(t, key, j);
    } else {
      NotThisPair(t, key, j);
      ScalarUnderSkips(t, key, j);
      ScalarUnderFinds(t, key, j + 1);
    }
  }

  lemma UnderFirst(t: Tree, key: string, j: nat)
    requires t.Node? && FirstScalarPair(t, key, j)
    ensures Under(t, key, Trim(t.content[2 * j + 1].value))
  {
  }

  lemma ScalarUnderTakes(t: Tree, key: string, j: nat)
    requires t.Node? && ScalarPair(t, key, j)
    ensures ScalarUnder(t.content, key, j) == Trim(t.content[2 * j + 1].value)
  {
  }

  lemma ScalarUnderSkips(t: Tree, key: string, j: nat)
    requires t.Node? && 2 * j + 1 < |t.content| && !ScalarPair(t, key, j)
    ensures ScalarUnder(t.content, key, j) == ScalarUnder(t.content, key, j + 1)
  {
  }

  lemma FirstPairIsUnique(t: Tree, key: string, i: int, j: int)
    requires t.Node? && FirstScalarPair(t, key, i) && FirstScalarPair(t, key, j)
    ensures i == j
  {
  }

  lemma UnderIsUnique(t: Tree, key: string, a: string, b: string)
    requires t.Node? && Under(t, key, a) && Under(t, key, b)
    ensures a == b
  {
    var i := PairUnder(t, key, a);
    var j := PairUnder(t, key, b);
    FirstPairIsUnique(t, key, i, j);
  }

  lemma PairUnder(t: Tree, key: string, value: string) returns (i: nat)
    requires t.Node? && Under(t, key, value)
    ensures FirstScalarPair(t, key, i) && Trim(t.content[2 * i + 1].value) == value
  {
    i :| FirstScalarPair(t, key, i) && Trim(t.content[2 * i + 1].value) == value;
  }

  lemma BlankOrUnder(t: Tree, key: string, value: string)
    requires t.Node? && Under(t, key, value)
    ensures Blank(t, key) <==> value == ""
  {
    var i := PairUnder(t, key, value);
    forall j | FirstScalarPair(t, key, j) ensures j == i {
      FirstPairIsUnique(t, key, i, j);
    }
  }

  lemma UnderIs(t: Tree, key: string)
    requires t.Node?
    ensures var value := ScalarUnder(t.content, key, 0);
            && (Blank(t, key) <==> value == "") && (value != "" ==> Under(t, key, value))
  {
    ScalarUnderFinds(t, key, 0);
    if Under(t, key, ScalarUnder(t.content, key, 0)) {
      BlankOrUnder(t, key, ScalarUnder(t.content, key, 0));
    }
  }

  lemma {:induction false} FirstScalarFinds(t: Tree, j: nat)
    requires t.Node? && forall i :: 0 <= i < j ==> !TellingPair(t, i)
    ensures var title := FirstScalar(t.content, j);
            if title == "" then forall i :: !TellingPair(t, i) else TitledByFirst(t, title)
    decreases |t.content| - 2 * j
  {
    if 2 * j + 1 < |t.content| {
      if TellingPair(t, j) {
        assert FirstTelling(t, j);
      } else {
        FirstScalarFinds(t, j + 1);
      }
    }
  }

  lemma FirstTellingIsUnique(t: Tree, i: int, j: int)
    requires t.Node? && FirstTelling(t, i) && FirstTelling(t, j)
    ensures i == j
  {
  }

  lemma FirstTitleIsUnique(t: Tree, a: string, b: string)
    requires t.Node? && TitledByFirst(t, a) && TitledByFirst(t, b)
    ensures a == b
  {
    var i := FirstTitlePair(t, a);
    var j := FirstTitlePair(t, b);
    FirstTellingIsUnique(t, i, j);
  }

  lemma FirstTitlePair(t: Tree, title: string) returns (i: nat)
    requires t.Node? && TitledByFirst(t, title)
    ensures FirstTelling(t, i)
            && title == ToLower(Trim(t.content[2 * i].value)) + "=" + Trim(t.content[2 * i + 1].value)
  {
    i :| FirstTelling(t, i)
         && title == ToLower(Trim(t.content[2 * i].value)) + "=" + Trim(t.content[2 * i + 1].value);
  }

  lemma NamedIsNotBlank(t: Tree, i: int, value: string)
    requires t.Node? && NamedUnder(t, i, value)
    ensures !Blank(t, NAMING[i])
  {
    BlankOrUnder(t, NAMING[i], value);
  }

  lemma NoNameAllBlank(t: Tree, title: string)
    requires t.Node? && BlankUpTo(t, 9)
    ensures !TitledByName(t, title)
  {
    forall i, value ensures !NamedUnder(t, i, value) {
      if 0 <= i < 9 && Under(t, NAMING[i], value) {
        BlankOrUnder(t, NAMING[i], value);
      }
    }
  }

  lemma NameTitleIsUnique(t: Tree, a: string, b: string)
    requires t.Node? && TitledByName(t, a) && TitledByName(t, b)
    ensures a == b
  {
    var i, value :| NamedUnder(t, i, value) && a == NAMING[i] + "=" + value;
    var j, other :| NamedUnder(t, j, other) && b == NAMING[j] + "=" + other;
    NamedIsNotBlank(t, i, value);
    NamedIsNotBlank(t, j, other);
    UnderIsUnique(t, NAMING[i], value, other);
  }

  lemma TitleIsUnique(t: Tree, a: string, b: string)
    requires Titled(t, a) && Titled(t, b)
    ensures a == b
  {
    if BlankUpTo(t, 9) {
      NoNameAllBlank(t, a);
      NoNameAllBlank(t, b);
      FirstTitleIsUnique(t, a, b);
    } else {
      NameTitleIsUnique(t, a, b);
    }
  }

  ghost predicate TitleOrNone(t: Tree, title: string) {
    if title != "" then Titled(t, title) else forall other :: !Titled(t, other)
  }

  lemma BlankOneMore(t: Tree, i: nat)
    requires t.Node? && i < 9 && BlankUpTo(t, i) && Blank(t, NAMING[i])
    ensures BlankUpTo(t, i + 1)
  {
  }

  lemma {:induction false} IdentityIsTitle(t: Tree, i: nat)
    requires t.Node? && t.kind == Mapping && i <= 9 && BlankUpTo(t, i)
    ensures TitleOrNone(t, IdentityFrom(t.content, i))
    decreases 9 - i
  {
    if i == 9 {
      NamelessTitle(t);
    } else {
      UnderIs(t, NAMING[i]);
      IdentityStep(t.content, i);
      if ScalarUnder(t.content, NAMING[i], 0) != "" {
        NamedIsTitled(t, i, ScalarUnder(t.content, NAMING[i], 0));
      } else {
        BlankOneMore(t, i);
        IdentityIsTitle(t, i + 1);
      }
    }
  }

  lemma NamedIsTitled(t: Tree, i: nat, value: string)
    requires t.Node? && t.kind == Mapping && NamedUnder(t, i, value)
    ensures TitleOrNone(t, NAMING[i] + "=" + value)
  {
    assert NAMING[i] + "=" + value != "";
    assert TitledByName(t, NAMING[i] + "=" + value);
  }

  lemma IdentityStep(content: seq<Tree>, i: nat)
    requires i < 9
    ensures var value := ScalarUnder(content, NAMING[i], 0);
            IdentityFrom(content, i) ==
            if value != "" then NAMING[i] + "=" + value else IdentityFrom(content, i + 1)
  {
    assert NAMING[i] == IDENTITY_KEYS[i];
  }

  lemma NamelessTitle(t: Tree)
    requires t.Node? && t.kind == Mapping && BlankUpTo(t, 9)
    ensures TitleOrNone(t, IdentityFrom(t.content, 9))
  {
    FirstScalarFinds(t, 0);
    forall title ensures !TitledByName(t, title) {
      NoNameAllBlank(t, title);
    }
  }

  lemma TitleIsIdentity(t: Tree, title: string)
    requires title != ""
    ensures Titled(t, title) <==> Identity(t) == title
  {
    if t.Node? && t.kind == Mapping {
      IdentityIsTitle(t, 0);
      if Titled(t, title) {
        TitleIsUnique(t, title, Identity(t));
      }
    }
  }

  lemma SameTitleIsSameName(original: Tree, target: Tree, title: string)
    requires title != "" && Titled(target, title)
    ensures Titled(original, title) <==> SameName(original, target)
  {
    TitleIsIdentity(target, title);
    TitleIsIdentity(original, title);
  }

  // A titled element takes the first unused original with the same title, if there is one, however their
  // other keys, their order and their notes differ.
  lemma MatchedByTitle(originals: seq<Tree>, used: set<int>, target: Tree, title: string, i: nat)
    requires title != "" && Titled(target, title)
    requires i < |originals| && i !in used && Titled(originals[i], title)
    requires forall k :: 0 <= k < i && k !in used ==> !Titled(originals[k], title)
    ensures MatchElement(originals, used, target) == i
  {
    var named := FirstUnused(originals, used, o => SameName(o, target), 0);
    SameTitleIsSameName(originals[i], target, title);
    forall k | 0 <= k < i && k !in used ensures !SameName(originals[k], target) {
      SameTitleIsSameName(originals[k], target, title);
    }
    FirstAccepted(originals, used, o => SameName(o, target), i);
  }

  lemma FirstAccepted(originals: seq<Tree>, used: set<int>, accept: Tree -> bool, i: nat)
    requires i < |originals| && i !in used && accept(originals[i])
    requires forall k :: 0 <= k < i && k !in used ==> !accept(originals[k])
    ensures FirstUnused(originals, used, accept, 0) == i
  {
  }

  // ----- Elements without a title -----

  // What the matching by structure looks at: kinds, the texts of scalars without white space around them,
  // and the order of everything. Tags and notes are left aside.
  function Skeleton(t: Tree): Tree
    decreases t
  {
    match t
    case Nil => Nil
    case Node(kind, _, value, _, content) =>
      if kind == Mapping || kind == Sequence then
        Node(kind, "", "", "", seq(|content|, i requires 0 <= i < |content| => Skeleton(content[i])))
      else Node(kind, "", Trim(value), "", [])
  }

  // Keys stand with values, on every level.
  ghost predicate Paired(t: Tree)
    decreases t
  {
    t.Nil? ||
    ((t.kind == Mapping ==> |t.content| % 2 == 0) && forall i :: 0 <= i < |t.content| ==> Paired(t.content[i]))
  }

  predicate Collection(t: Tree) {
    t.Node? && (t.kind == Mapping || t.kind == Sequence)
  }

  predicate Comparable(a: Tree, b: Tree) {
    Collection(a) && Collection(b) && a.kind == b.kind && |a.content| == |b.content|
  }

  lemma SkeletonAt(t: Tree)
    requires Collection(t)
    ensures Collection(Skeleton(t)) && |Skeleton(t).content| == |t.content|
    ensures forall i :: 0 <= i < |t.content| ==> Skeleton(t).content[i] == Skeleton(t.content[i])
  {
  }

  lemma SkeletonsAlike(a: Tree, b: Tree)
    requires Comparable(a, b)
    ensures Skeleton(a) == Skeleton(b) <==>
            forall i :: 0 <= i < |a.content| ==> Skeleton(a.content[i]) == Skeleton(b.content[i])
  {
    SkeletonAt(a);
    SkeletonAt(b);
    if forall i :: 0 <= i < |a.content| ==> Skeleton(a.content[i]) == Skeleton(b.content[i]) {
      assert Skeleton(a).content == Skeleton(b).content;
    }
  }

  lemma ElementsAlike(a: Tree, b: Tree)
    requires Comparable(a, b) && Paired(a)
    ensures StructEq(a, b) <==> forall i :: 0 <= i < |a.content| ==> StructEq(a.content[i], b.content[i])
  {
  }

  lemma IncomparableDiffer(a: Tree, b: Tree)
    requires !Comparable(a, b)
    ensures StructEq(a, b) <==> Skeleton(a) == Skeleton(b)
  {
    if Collection(a) && Collection(b) {
      SkeletonAt(a);
      SkeletonAt(b);
    }
  }

  lemma {:induction false} SameStructure(a: Tree, b: Tree)
    requires Paired(a) && Paired(b)
    ensures StructEq(a, b) <==> Skeleton(a) == Skeleton(b)
    decreases a
  {
    if Comparable(a, b) {
      forall i | 0 <= i < |a.content|
        ensures StructEq(a.content[i], b.content[i]) <==> Skeleton(a.content[i]) == Skeleton(b.content[i])
      {
        SameStructure(a.content[i], b.content[i]);
      }
      SkeletonsAlike(a, b);
      ElementsAlike(a, b);
    } else {
      IncomparableDiffer(a, b);
    }
  }

  // An element no unused original shares a name with takes the first unused one of the same structure.
  lemma MatchedByStructure(originals: seq<Tree>, used: set<int>, target: Tree, i: nat)
    requires target.Node? && Paired(target) && forall k :: 0 <= k < |originals| ==> Paired(originals[k])
    requires forall k :: 0 <= k < |originals| && k !in used ==> !SameName(originals[k], target)
    requires i < |originals| && i !in used && Skeleton(originals[i]) == Skeleton(target)
    requires forall k :: 0 <= k < i && k !in used ==> Skeleton(originals[k]) != Skeleton(target)
    ensures MatchElement(originals, used, target) == i
  {
    forall k | 0 <= k < |originals|
      ensures StructEq(originals[k], target) <==> Skeleton(originals[k]) == Skeleton(target)
    {
      SameStructure(originals[k], target);
    }
    FirstAccepted(originals, used, o => SameShape(o, target), i);
  }
}
