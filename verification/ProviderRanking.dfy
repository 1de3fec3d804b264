/** The order in which the providers of a model are named: more clients first, then by name. */
module ProviderRanking {

  datatype ProviderCount = ProviderCount(name: string, count: int)

  // The order of strings in Go, character by character.
  predicate Less(a: string, b: string) {
    if b == [] then false
    else if a == [] then true
    else a[0] < b[0] || (a[0] == b[0] && Less(a[1..], b[1..]))
  }

  // The strings agree up to some place, and there a ends first or has the smaller character.
  ghost predicate FirstDiffersBelow(a: string, b: string, k: nat) {
    && k <= |a| && k < |b| && a[..k] == b[..k] && (k == |a| || a[k] < b[k])
  }

  lemma {:induction false} LessIsFirstDifference(a: string, b: string)
    ensures Less(a, b) <==> exists k :: FirstDiffersBelow(a, b, k)
    decreases |a|
  {
    if a == [] || b == [] || a[0] < b[0] {
      assert b != [] ==> FirstDiffersBelow(a, b, 0);
    } else {
      LessIsFirstDifference(a[1..], b[1..]);
      if k :| FirstDiffersBelow(a[1..], b[1..], k) && a[0] == b[0] {
        DiffersLater(a, b, k);
      }
      if k :| FirstDiffersBelow(a, b, k) {
        DiffersSooner(a, b, k);
      }
    }
  }

  lemma DiffersLater(a: string, b: string, k: nat)
    requires a != [] && b != [] && a[0] == b[0] && FirstDiffersBelow(a[1..], b[1..], k)
    ensures FirstDiffersBelow(a, b, k + 1)
  {
    assert a[..k + 1] == [a[0]] + a[1..][..k] && b[..k + 1] == [b[0]] + b[1..][..k];
  }

  lemma DiffersSooner(a: string, b: string, k: nat)
    requires a != [] && b != [] && !(a[0] < b[0]) && FirstDiffersBelow(a, b, k)
    ensures a[0] == b[0] && FirstDiffersBelow(a[1..], b[1..], k - 1)
  {
    assert a[..k][0] == a[0] && b[..k][0] == b[0];
    assert a[1..][..k - 1] == a[..k][1..] && b[1..][..k - 1] == b[..k][1..];
  }

  lemma {:induction false} LessTotal(a: string, b: string)
    ensures !(Less(a, b) && Less(b, a))
    ensures Less(a, b) || Less(b, a) || a == b
    decreases |a|
  {
    if a != [] && b != [] {
      LessTotal(a[1..], b[1..]);
      if a[0] == b[0] && a[1..] == b[1..] {
        assert a == [a[0]] + a[1..] && b == [b[0]] + b[1..];
      }
    }
  }

  lemma {:induction false} LessTransitive(a: string, b: string, c: string)
    requires Less(a, b) && Less(b, c)
    ensures Less(a, c)
    decreases |a|
  {
    if a != [] && a[0] == b[0] && b[0] == c[0] {
      LessTransitive(a[1..], b[1..], c[1..]);
    }
  }

  predicate Before(a: ProviderCount, b: ProviderCount) {
    a.count > b.count || (a.count == b.count && Less(a.name, b.name))
  }

  lemma BeforeTotal(a: ProviderCount, b: ProviderCount)
    ensures !(Before(a, b) && Before(b, a))
    ensures a != b ==> Before(a, b) || Before(b, a)
  {
    LessTotal(a.name, b.name);
  }

  lemma BeforeTransitive(a: ProviderCount, b: ProviderCount, c: ProviderCount)
    requires Before(a, b) && Before(b, c)
    ensures Before(a, c)
  {
    if a.count == c.count {
      LessTransitive(a.name, b.name, c.name);
    }
  }

  ghost predicate Ranked(list: seq<ProviderCount>) {
    forall i, j :: 0 <= i < j < |list| ==> Before(list[i], list[j])
  }

  // Into its place in a ranked list.
  function Insert(list: seq<ProviderCount>, x: ProviderCount): seq<ProviderCount> {
    if list == [] then [x]
    else if Before(x, list[0]) then [x] + list
    else [list[0]] + Insert(list[1..], x)
  }

  function Sort(list: seq<ProviderCount>): seq<ProviderCount> {
    if list == [] then [] else Insert(Sort(list[1..]), list[0])
  }

  lemma {:induction false} InsertMembers(list: seq<ProviderCount>, x: ProviderCount, y: ProviderCount)
    ensures y in Insert(list, x) <==> y == x || y in list
    decreases |list|
  {
    if list != [] && !Before(x, list[0]) {
      InsertMembers(list[1..], x, y);
      assert list == [list[0]] + list[1..];
    }
  }

  lemma RankedCons(x: ProviderCount, rest: seq<ProviderCount>)
    requires Ranked(rest) && forall y :: y in rest ==> Before(x, y)
    ensures Ranked([x] + rest)
  {
  }

  lemma BeforeAll(x: ProviderCount, list: seq<ProviderCount>)
    requires Ranked(list) && list != [] && Before(x, list[0])
    ensures forall y :: y in list ==> Before(x, y)
  {
    forall y | y in list ensures Before(x, y) {
      if y != list[0] {
        assert Before(list[0], y);
        BeforeTransitive(x, list[0], y);
      }
    }
  }

  lemma {:induction false} InsertRanks(list: seq<ProviderCount>, x: ProviderCount)
    requires Ranked(list) && x !in list
    ensures Ranked(Insert(list, x))
    decreases |list|
  {
    if list != [] {
      BeforeTotal(x, list[0]);
      if Before(x, list[0]) {
        BeforeAll(x, list);
        RankedCons(x, list);
      } else {
        InsertRanks(list[1..], x);
        forall y | y in Insert(list[1..], x) ensures Before(list[0], y) {
          InsertMembers(list[1..], x, y);
        }
        RankedCons(list[0], Insert(list[1..], x));
      }
    }
  }

  ghost predicate NoRepeats(list: seq<ProviderCount>) {
    forall i, j :: 0 <= i < j < |list| ==> list[i] != list[j]
  }

  lemma {:induction false} SortMembers(list: seq<ProviderCount>, y: ProviderCount)
    ensures y in Sort(list) <==> y in list
    decreases |list|
  {
    if list != [] {
      SortMembers(list[1..], y);
      InsertMembers(Sort(list[1..]), list[0], y);
      assert list == [list[0]] + list[1..];
    }
  }

  lemma {:induction false} SortRanks(list: seq<ProviderCount>)
    requires NoRepeats(list)
    ensures Ranked(Sort(list))
    decreases |list|
  {
    if list != [] {
      SortRanks(list[1..]);
      SortMembers(list[1..], list[0]);
      InsertRanks(Sort(list[1..]), list[0]);
    }
  }

  lemma FirstIsFirst(a: seq<ProviderCount>, b: seq<ProviderCount>)
    requires Ranked(a) && Ranked(b) && a != [] && b != []
    requires a[0] in b && b[0] in a
    ensures a[0] == b[0]
  {
    BeforeTotal(a[0], b[0]);
  }

  lemma TailMembers(a: seq<ProviderCount>, y: ProviderCount)
    requires Ranked(a) && a != []
    ensures y in a[1..] <==> y in a && y != a[0]
  {
    assert a == [a[0]] + a[1..];
    BeforeTotal(a[0], a[0]);
  }

  // Whatever sorts, and in whatever order the map was walked: the ranking is determined by what is
  // in it.
  lemma {:induction false} RankingIsUnique(a: seq<ProviderCount>, b: seq<ProviderCount>)
    requires Ranked(a) && Ranked(b)
    requires forall y :: y in a <==> y in b
    ensures a == b
    decreases |a|
  {
    assert a != [] ==> a[0] in a;
    assert b != [] ==> b[0] in b;
    if a != [] {
      FirstIsFirst(a, b);
      forall y ensures y in a[1..] <==> y in b[1..] {
        TailMembers(a, y);
        TailMembers(b, y);
      }
      RankingIsUnique(a[1..], b[1..]);
      assert a == [a[0]] + a[1..] && b == [b[0]] + b[1..];
    }
  }
}
