/** Matching sequence elements: the matching is injective, and over scalars it reuses as many of
    the original nodes as any matching by value could. */
module YamlMatching {
  import opened Text
  import opened YamlTree

  // The items at the indices in picks, among the first n.
  ghost function Picked<T>(items: seq<T>, picks: set<int>, n: nat): multiset<T>
    requires n <= |items|
  {
    if n == 0 then multiset{}
    else Picked(items, picks, n - 1) + (if n - 1 in picks then multiset{items[n - 1]} else multiset{})
  }

  lemma PickedAt<T>(items: seq<T>, picks: set<int>, n: nat, v: T)
    requires 0 < n <= |items|
    ensures Picked(items, picks, n)[v]
            == Picked(items, picks, n - 1)[v] + (if n - 1 in picks && items[n - 1] == v then 1 else 0)
  {
  }

  lemma {:induction false} PickedOf<T>(items: seq<T>, picks: set<int>, more: set<int>, k: nat, n: nat, v: T)
    requires n <= |items| && k !in picks && more == picks + {k}
    ensures Picked(items, more, n)[v] == Picked(items, picks, n)[v] + (if k < n && items[k] == v then 1 else 0)
    decreases n
  {
    if n > 0 {
      PickedOf(items, picks, more, k, n - 1, v);
      PickedAt(items, picks, n, v);
      PickedAt(items, more, n, v);
    }
  }

  lemma PickMore<T>(items: seq<T>, picks: set<int>, k: nat, n: nat)
    requires n <= |items| && k !in picks
    ensures Picked(items, picks + {k}, n)
            == Picked(items, picks, n) + (if k < n then multiset{items[k]} else multiset{})
  {
    var more, was := Picked(items, picks + {k}, n), Picked(items, picks, n);
    forall v ensures more[v] == (was + (if k < n then multiset{items[k]} else multiset{}))[v] {
      PickedOf(items, picks, picks + {k}, k, n, v);
    }
  }

  // Fewer picks of a value than there are of it: some index with that value is not picked.
  lemma {:induction false} SomeLeft<T>(items: seq<T>, picks: set<int>, v: T, n: nat)
    requires n <= |items|
    ensures Picked(items, picks, n)[v] <= multiset(items[..n])[v]
    ensures Picked(items, picks, n)[v] < multiset(items[..n])[v] <==>
            exists k :: 0 <= k < n && k !in picks && items[k] == v
  {
    if n > 0 {
      SomeLeft(items, picks, v, n - 1);
      assert items[..n] == items[..n - 1] + [items[n - 1]];
      if k :| 0 <= k < n - 1 && k !in picks && items[k] == v {
        assert 0 <= k < n;
      } else if n - 1 !in picks && items[n - 1] == v {
        assert 0 <= n - 1 < n;
      }
    }
  }

  ghost predicate AllScalars(items: seq<Tree>) {
    forall i :: 0 <= i < |items| ==> items[i].Node? && items[i].kind == Scalar
  }

  function Value(t: Tree): string {
    if t.Nil? then "" else Trim(t.value)
  }

  function Values(items: seq<Tree>): seq<string> {
    seq(|items|, i requires 0 <= i < |items| => Value(items[i]))
  }

  // The originals in use after n targets.
  function Used(originals: seq<Tree>, targets: seq<Tree>, n: nat): set<int>
    requires n <= |targets|
  {
    InUse(Chosen(originals, targets, n))
  }

  // Distinct places in range, holding nodes; -1 where there is none.
  ghost predicate Injective(originals: seq<Tree>, chosen: seq<int>) {
    && (forall i :: 0 <= i < |chosen| ==> -1 <= chosen[i] < |originals|)
    && (forall i :: 0 <= i < |chosen| && chosen[i] != -1 ==> originals[chosen[i]].Node?)
    && (forall i, j :: 0 <= i < j < |chosen| && chosen[i] != -1 ==> chosen[i] != chosen[j])
  }

  lemma InjectiveSnoc(originals: seq<Tree>, before: seq<int>, last: int)
    requires Injective(originals, before)
    requires last == -1 || (0 <= last < |originals| && originals[last].Node? && last !in before)
    ensures Injective(originals, before + [last])
  {
  }

  lemma {:induction false} ChosenInjective(originals: seq<Tree>, targets: seq<Tree>, n: nat)
    requires n <= |targets|
    ensures Injective(originals, Chosen(originals, targets, n))
  {
    if n > 0 {
      ChosenInjective(originals, targets, n - 1);
      var before := Chosen(originals, targets, n - 1);
      var last := MatchElement(originals, InUse(before), targets[n - 1]);
      assert last in before && last != -1 ==> last in InUse(before);
      InjectiveSnoc(originals, before, last);
    }
  }

  // Every entry of the reordered sequence is missing or one of the originals, none used twice.
  lemma ReorderIsInjective(originals: seq<Tree>, targets: seq<Tree>)
    requires originals != [] && targets != []
    ensures var chosen, out := Chosen(originals, targets, |targets|), Reordered(originals, targets);
            && |out| == |targets|
            && (forall i :: 0 <= i < |targets| ==>
                  if chosen[i] == -1 then out[i].Nil?
                  else 0 <= chosen[i] < |originals| && out[i] == originals[chosen[i]])
            && (forall i, j :: 0 <= i < j < |targets| && out[i].Node? && out[j].Node? ==> chosen[i] != chosen[j])
  {
    ChosenInjective(originals, targets, |targets|);
  }

  // ----- Scalars: as many nodes reused as possible -----

  // v's place in items, when some unused place holds it.
  ghost predicate Takes<T>(items: seq<T>, used: set<int>, r: int, v: T) {
    if r == -1 then forall k :: 0 <= k < |items| && k !in used ==> items[k] != v
    else 0 <= r < |items| && r !in used && items[r] == v
  }

  // Over scalars the two tests come to one: an unused original with the same trimmed value.
  lemma ScalarMatch(originals: seq<Tree>, used: set<int>, target: Tree)
    requires AllScalars(originals) && target.Node? && target.kind == Scalar
    ensures Takes(Values(originals), used, MatchElement(originals, used, target), Value(target))
  {
    assert forall k ::
           0 <= k < |originals| ==> (SameShape(originals[k], target) <==> Value(originals[k]) == Value(target));
    assert forall k :: 0 <= k < |originals| && SameName(originals[k], target) ==> Value(originals[k]) == Value(target);
  }

  lemma InUseSnoc(before: seq<int>, last: int)
    ensures InUse(before + [last]) == if last == -1 then InUse(before) else InUse(before) + {last}
  {
  }

  lemma ValuesTake(items: seq<Tree>, n: nat)
    requires 0 < n <= |items|
    ensures Values(items)[..n] == Values(items)[..n - 1] + [Value(items[n - 1])]
  {
  }

  lemma SomeLeftOf<T>(items: seq<T>, picks: set<int>, v: T)
    ensures Picked(items, picks, |items|)[v] < multiset(items)[v]
            <==> exists k :: 0 <= k < |items| && k !in picks && items[k] == v
  {
    SomeLeft(items, picks, v, |items|);
    assert items[..|items|] == items;
  }

  lemma PickStep<T>(items: seq<T>, picks: set<int>, r: int, v: T)
    requires Takes(items, picks, r, v)
    ensures var picked := Picked(items, picks, |items|);
            Picked(items, if r == -1 then picks else picks + {r}, |items|)
            == if picked[v] < multiset(items)[v] then picked + multiset{v} else picked
  {
    SomeLeftOf(items, picks, v);
    if r != -1 {
      PickMore(items, picks, r, |items|);
    }
  }

  // One more target takes one more original of its value, if any is left.
  lemma UsedStep(originals: seq<Tree>, targets: seq<Tree>, n: nat)
    requires AllScalars(originals) && AllScalars(targets) && 0 < n <= |targets|
    ensures var before, v := Used(originals, targets, n - 1), Value(targets[n - 1]);
            var picked := Picked(Values(originals), before, |originals|);
            Picked(Values(originals), Used(originals, targets, n), |originals|)
            == if picked[v] < multiset(Values(originals))[v] then picked + multiset{v} else picked
  {
    var before := Used(originals, targets, n - 1);
    var r := MatchElement(originals, before, targets[n - 1]);
    ScalarMatch(originals, before, targets[n - 1]);
    InUseSnoc(Chosen(originals, targets, n - 1), r);
    PickStep(Values(originals), before, r, Value(targets[n - 1]));
  }

  // What is in use after n targets is exactly what originals and targets have in common.
  lemma {:induction false} UsedIsCommon(originals: seq<Tree>, targets: seq<Tree>, n: nat)
    requires AllScalars(originals) && AllScalars(targets) && n <= |targets|
    ensures Picked(Values(originals), Used(originals, targets, n), |originals|)
            == multiset(Values(originals)) * multiset(Values(targets)[..n])
  {
    var values := Values(originals);
    if n == 0 {
      NothingPicked(values, {}, |values|);
      assert Used(originals, targets, 0) == {};
    } else {
      UsedIsCommon(originals, targets, n - 1);
      UsedStep(originals, targets, n);
      var before, v := Used(originals, targets, n - 1), Value(targets[n - 1]);
      ValuesTake(targets, n);
      CommonStep(Picked(values, before, |values|), multiset(values), multiset(Values(targets)[..n - 1]), v);
    }
  }

  lemma CommonStep(picked: multiset<string>, all: multiset<string>, wanted: multiset<string>, v: string)
    requires picked == all * wanted
    ensures all * (wanted + multiset{v}) == if picked[v] < all[v] then picked + multiset{v} else picked
  {
  }

  lemma {:induction false} NothingPicked<T>(items: seq<T>, picks: set<int>, n: nat)
    requires n <= |items| && picks == {}
    ensures Picked(items, picks, n) == multiset{}
  {
    if n > 0 {
      NothingPicked(items, picks, n - 1);
    }
  }

  // ----- ... and no matching by value could reuse more -----

  // An injective matching of targets with originals of the same trimmed value.
  ghost predicate MatchesByValue(originals: seq<Tree>, targets: seq<Tree>, chosen: seq<int>) {
    && |chosen| <= |targets| && Injective(originals, chosen)
    && forall i :: 0 <= i < |chosen| && chosen[i] != -1 ==> Value(originals[chosen[i]]) == Value(targets[i])
  }

  lemma IndicesStep(picks: set<int>, n: nat)
    ensures var now := set i | 0 <= i < n && i in picks;
            |now| == if n == 0 then 0 else |set i | 0 <= i < n - 1 && i in picks| + (if n - 1 in picks then 1 else 0)
  {
    var now := set i | 0 <= i < n && i in picks;
    if n > 0 {
      var fewer := set i | 0 <= i < n - 1 && i in picks;
      assert now == fewer + (if n - 1 in picks then {n - 1} else {});
    } else {
      assert now == {};
    }
  }

  lemma {:induction false} PickedSize<T>(items: seq<T>, picks: set<int>, n: nat)
    requires n <= |items|
    ensures |Picked(items, picks, n)| == |set i | 0 <= i < n && i in picks|
  {
    if n > 0 {
      PickedSize(items, picks, n - 1);
    }
    IndicesStep(picks, n);
  }

  lemma InUseSize<T>(items: seq<T>, picks: set<int>)
    requires forall i :: i in picks ==> 0 <= i < |items|
    ensures |Picked(items, picks, |items|)| == |picks|
  {
    PickedSize(items, picks, |items|);
    assert (set i | 0 <= i < |items| && i in picks) == picks;
  }

  lemma MatchesInit(originals: seq<Tree>, targets: seq<Tree>, chosen: seq<int>)
    requires MatchesByValue(originals, targets, chosen) && chosen != []
    ensures var n := |chosen| - 1;
            && MatchesByValue(originals, targets, chosen[..n]) && chosen == chosen[..n] + [chosen[n]]
            && (chosen[n] != -1 ==> 0 <= chosen[n] < |originals| && chosen[n] !in InUse(chosen[..n]))
  {
    var before := chosen[..|chosen| - 1];
    assert forall i :: 0 <= i < |before| ==> before[i] == chosen[i];
  }

  lemma {:induction false} MatchingWithinTargets(originals: seq<Tree>, targets: seq<Tree>, chosen: seq<int>)
    requires MatchesByValue(originals, targets, chosen)
    ensures Picked(Values(originals), InUse(chosen), |originals|) <= multiset(Values(targets)[..|chosen|])
  {
    var values, n := Values(originals), |chosen|;
    if n == 0 {
      NothingPicked(values, InUse(chosen), |values|);
    } else {
      var before, last := chosen[..n - 1], chosen[n - 1];
      MatchesInit(originals, targets, chosen);
      MatchingWithinTargets(originals, targets, before);
      InUseSnoc(before, last);
      ValuesTake(targets, n);
      if last != -1 {
        PickMore(values, InUse(before), last, |values|);
      }
    }
  }

  lemma {:induction false} PickedPrefix<T>(items: seq<T>, picks: set<int>, n: nat)
    requires n <= |items|
    ensures Picked(items, picks, n) <= multiset(items[..n])
  {
    if n > 0 {
      PickedPrefix(items, picks, n - 1);
      assert items[..n] == items[..n - 1] + [items[n - 1]];
    }
  }

  lemma PickedWithin<T>(items: seq<T>, picks: set<int>)
    ensures Picked(items, picks, |items|) <= multiset(items)
  {
    assert items[..|items|] == items;
    PickedPrefix(items, picks, |items|);
  }

  lemma SmallerMultiset<T>(a: multiset<T>, b: multiset<T>)
    requires a <= b
    ensures |a| <= |b|
  {
    assert b == a + (b - a);
  }

  lemma InUseInRange(originals: seq<Tree>, chosen: seq<int>)
    requires Injective(originals, chosen)
    ensures forall i :: i in InUse(chosen) ==> 0 <= i < |originals|
  {
  }

  // Over scalars the reordering reuses the most nodes that any matching by value can.
  lemma ReuseIsMaximal(originals: seq<Tree>, targets: seq<Tree>, other: seq<int>)
    requires AllScalars(originals) && AllScalars(targets) && MatchesByValue(originals, targets, other)
    ensures |InUse(other)| <= |Used(originals, targets, |targets|)|
    ensures |Used(originals, targets, |targets|)| == |multiset(Values(originals)) * multiset(Values(targets))|
  {
    var values, wanted := Values(originals), Values(targets);
    var common := multiset(values) * multiset(wanted);
    var mine := Used(originals, targets, |targets|);
    assert wanted[..|targets|] == wanted;
    UsedIsCommon(originals, targets, |targets|);
    ChosenInjective(originals, targets, |targets|);
    InUseInRange(originals, Chosen(originals, targets, |targets|));
    InUseSize(values, mine);
    MatchingWithinTargets(originals, targets, other);
    PickedWithin(values, InUse(other));
    InUseInRange(originals, other);
    InUseSize(values, InUse(other));
    PrefixWithin(wanted, |other|);
    SmallerMultiset(Picked(values, InUse(other), |values|), common);
  }

  lemma PrefixWithin(s: seq<string>, n: nat)
    requires n <= |s|
    ensures multiset(s[..n]) <= multiset(s)
  {
    assert s == s[..n] + s[n..];
  }

  // ----- A permutation keeps every node -----

  lemma {:induction false} ChosenNodes(originals: seq<Tree>, chosen: seq<int>, nodes: seq<Tree>)
    requires Injective(originals, chosen) && |nodes| == |chosen|
    requires forall i :: 0 <= i < |chosen| ==> chosen[i] != -1 && nodes[i] == originals[chosen[i]]
    ensures multiset(nodes) == Picked(originals, InUse(chosen), |originals|)
  {
    var n := |chosen|;
    if n == 0 {
      NothingPicked(originals, InUse(chosen), |originals|);
    } else {
      var before, last := chosen[..n - 1], chosen[n - 1];
      assert chosen == before + [last] && nodes == nodes[..n - 1] + [nodes[n - 1]];
      assert forall i :: 0 <= i < n - 1 ==> before[i] == chosen[i];
      ChosenNodes(originals, before, nodes[..n - 1]);
      InUseSnoc(before, last);
      assert last !in InUse(before);
      PickMore(originals, InUse(before), last, |originals|);
    }
  }

  ghost function Taken(chosen: seq<int>): set<int> {
    set i | i in chosen
  }

  lemma {:induction false} TakenSize(chosen: seq<int>)
    ensures |Taken(chosen)| <= |chosen|
  {
    if chosen != [] {
      TakenSize(chosen[1..]);
      assert chosen == [chosen[0]] + chosen[1..];
      assert Taken(chosen) == Taken(chosen[1..]) + {chosen[0]};
    }
  }

  lemma AllInUse<T>(items: seq<T>, picks: set<int>)
    requires |Picked(items, picks, |items|)| == |items|
    ensures Picked(items, picks, |items|) == multiset(items)
  {
    PickedWithin(items, picks);
    var picked := Picked(items, picks, |items|);
    assert multiset(items) == picked + (multiset(items) - picked);
    assert |multiset(items) - picked| == 0;
  }

  lemma MissingCosts(chosen: seq<int>)
    ensures -1 in chosen ==> |InUse(chosen)| < |chosen|
  {
    TakenSize(chosen);
    if -1 in chosen {
      assert Taken(chosen) == InUse(chosen) + {-1};
    }
  }

  lemma AllUsed(originals: seq<Tree>, targets: seq<Tree>)
    requires AllScalars(originals) && AllScalars(targets)
    requires multiset(Values(originals)) == multiset(Values(targets))
    ensures |Used(originals, targets, |targets|)| == |multiset(Values(originals))|
  {
    ReuseIsMaximal(originals, targets, []);
    assert multiset(Values(originals)) * multiset(Values(targets)) == multiset(Values(originals));
  }

  lemma AllFound(originals: seq<Tree>, targets: seq<Tree>)
    requires AllScalars(originals) && AllScalars(targets)
    requires multiset(Values(originals)) == multiset(Values(targets))
    ensures |originals| == |targets| == |Used(originals, targets, |targets|)|
    ensures -1 !in Chosen(originals, targets, |targets|)
  {
    AllUsed(originals, targets);
    assert |multiset(Values(originals))| == |originals| && |multiset(Values(targets))| == |targets|;
    MissingCosts(Chosen(originals, targets, |targets|));
  }

  // A permutation of the scalars keeps every node, and with it every comment.
  lemma PermutationKeepsNodes(originals: seq<Tree>, targets: seq<Tree>)
    requires AllScalars(originals) && AllScalars(targets)
    requires multiset(Values(originals)) == multiset(Values(targets))
    ensures multiset(Reordered(originals, targets)) == multiset(originals)
  {
    AllFound(originals, targets);
    if targets != [] {
      var chosen := Chosen(originals, targets, |targets|);
      ChosenInjective(originals, targets, |targets|);
      InUseInRange(originals, chosen);
      ChosenNodes(originals, chosen, Reordered(originals, targets));
      InUseSize(originals, InUse(chosen));
      AllInUse(originals, InUse(chosen));
    }
  }
}
