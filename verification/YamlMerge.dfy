/** The merge on the linked nodes themselves, in place: every method is proved against the function
    of the same purpose on tree values, and what it hangs under the destination is the
    destination's own or new, never a node of the source. */
module YamlMerge {
  import opened Text
  import opened YamlTree
  import opened YamlMatching

  function WithKids(t: Tree, kids: seq<Tree>): Tree {
    if t.Nil? then t else t.(content := kids)
  }

  ghost predicate Indices(idx: seq<nat>, n: nat) {
    && (forall k :: 0 <= k < |idx| ==> idx[k] < n)
    && (forall j, k :: 0 <= j < k < |idx| ==> idx[j] < idx[k])
  }

  // The items at increasing indices.
  ghost function Pick<T>(items: seq<T>, idx: seq<nat>): (r: seq<T>)
    requires Indices(idx, |items|)
    ensures |r| == |idx| && forall k :: 0 <= k < |idx| ==> r[k] == items[idx[k]]
  {
    seq(|idx|, k requires 0 <= k < |idx| => items[idx[k]])
  }

  // A sequence with its first i items pruned.
  ghost function PrunedUpTo(path: Path, t: Tree, i: nat): Tree
    requires t.Node? && i <= |t.content|
  {
    WithKids(t, PruneItems(path, t, i) + t.content[i..])
  }

  lemma PrunedOneMore(path: Path, t: Tree, i: nat)
    requires t.Node? && i < |t.content|
    ensures PrunedUpTo(path, t, i + 1)
            == WithKids(PrunedUpTo(path, t, i),
                        PrunedUpTo(path, t, i).content[i := Prune(path, PrunedUpTo(path, t, i).content[i])])
  {
    var now := PrunedUpTo(path, t, i);
    assert now.content[i] == t.content[i];
    assert PruneItems(path, t, i + 1) + t.content[i + 1..] == now.content[i := Prune(path, t.content[i])];
  }

  // Pruning item after item, as the loop does, comes to the same.
  ghost function PruneStep(path: Path, t: Tree, i: nat): Tree {
    if t.Node? && i < |t.content| then WithKids(t, t.content[i := Prune(path, t.content[i])]) else t
  }

  ghost function PruneSteps(path: Path, t: Tree, i: nat): Tree {
    if i == 0 then t else PruneStep(path, PruneSteps(path, t, i - 1), i - 1)
  }

  lemma {:induction false} PruneStepsPrune(path: Path, t: Tree, i: nat)
    requires t.Node? && i <= |t.content|
    ensures PruneSteps(path, t, i) == PrunedUpTo(path, t, i)
  {
    if i == 0 {
      assert PruneItems(path, t, 0) + t.content[0..] == t.content;
    } else {
      PruneStepsPrune(path, t, i - 1);
      PrunedOneMore(path, t, i - 1);
    }
  }

  lemma PrunedAll(path: Path, t: Tree)
    requires t.Node? && t.kind == Sequence
    ensures PrunedUpTo(path, t, |t.content|) == Prune(path, t)
  {
    assert PruneItems(path, t, |t.content|) + [] == PruneItems(path, t, |t.content|);
  }

  // The first i pairs of t are dealt with in now: idx lists the nodes that stay, and with what the
  // rest still yields they make up all.
  ghost predicate Filtering(t: Tree, now: seq<Tree>, idx: seq<nat>, i: nat, all: seq<Tree>, rest: seq<Tree>)
    requires t.Node?
  {
    && |now| == |t.content| && Indices(idx, |now|) && (forall k :: 0 <= k < |idx| ==> idx[k] < 2 * i)
    && now[if 2 * i <= |now| then 2 * i else |now|..] == t.content[if 2 * i <= |now| then 2 * i else |now|..]
    && all == Pick(now, idx) + rest
  }

  lemma FilteringStart(t: Tree, all: seq<Tree>)
    requires t.Node?
    ensures Filtering(t, t.content, [], 0, all, all)
  {
    assert Pick(t.content, []) + all == all;
  }

  lemma FilteringEnd(path: Path, t: Tree, now: seq<Tree>, idx: seq<nat>, i: nat)
    requires t.Node? && t.kind == Mapping && 2 * i + 1 >= |now|
    requires Filtering(t, now, idx, i, PrunePairs(path, t, 0), PrunePairs(path, t, i))
    ensures WithKids(WithKids(t, now), Pick(now, idx)) == Prune(path, t)
  {
    assert Pick(now, idx) + [] == Pick(now, idx);
  }

  lemma PickMany<T>(items: seq<T>, idx: seq<nat>, more: seq<nat>)
    requires Indices(idx + more, |items|)
    ensures Indices(idx, |items|) && Indices(more, |items|)
    ensures Pick(items, idx + more) == Pick(items, idx) + Pick(items, more)
  {
    assert forall k :: 0 <= k < |idx| ==> idx[k] == (idx + more)[k];
    assert forall k :: 0 <= k < |more| ==> more[k] == (idx + more)[k + |idx|];
  }

  lemma PickPair<T>(items: seq<T>, idx: seq<nat>, i: nat)
    requires 2 * i + 1 < |items| && Indices(idx + [2 * i, 2 * i + 1], |items|)
    ensures Indices(idx, |items|)
    ensures Pick(items, idx + [2 * i, 2 * i + 1]) == Pick(items, idx) + [items[2 * i], items[2 * i + 1]]
  {
    PickMany(items, idx, [2 * i, 2 * i + 1]);
    assert Pick(items, [2 * i, 2 * i + 1]) == [items[2 * i], items[2 * i + 1]];
  }

  lemma CurrentPair(t: Tree, now: seq<Tree>, idx: seq<nat>, i: nat, all: seq<Tree>, rest: seq<Tree>)
    requires t.Node? && 2 * i + 1 < |t.content| && Filtering(t, now, idx, i, all, rest)
    ensures now[2 * i] == t.content[2 * i] && now[2 * i + 1] == t.content[2 * i + 1]
  {
    assert now[2 * i] == now[2 * i..][0] && now[2 * i + 1] == now[2 * i..][1];
  }

  lemma FilterRest(t: Tree, now: seq<Tree>, idx: seq<nat>, i: nat, value: Tree, all: seq<Tree>, rest: seq<Tree>)
    requires t.Node? && 2 * i + 1 < |t.content| && Filtering(t, now, idx, i, all, rest)
    ensures Filtering(t, now[2 * i + 1 := value], idx, i + 1, all, rest)
  {
    var next := now[2 * i + 1 := value];
    assert next[2 * i + 2..] == now[2 * i..][2..] && t.content[2 * i + 2..] == t.content[2 * i..][2..];
    assert Pick(next, idx) == Pick(now, idx);
  }

  lemma FilterKeeps(t: Tree, now: seq<Tree>, idx: seq<nat>, i: nat, all: seq<Tree>, pair: seq<Tree>, rest: seq<Tree>)
    requires t.Node? && 2 * i + 1 < |t.content| && Filtering(t, now, idx, i + 1, all, pair + rest)
    requires (forall k :: 0 <= k < |idx| ==> idx[k] < 2 * i) && pair == [now[2 * i], now[2 * i + 1]]
    ensures Filtering(t, now, idx + [2 * i, 2 * i + 1], i + 1, all, rest)
  {
    PickPair(now, idx, i);
    Regrouped(Pick(now, idx), pair, rest);
  }

  // One pair further, which yields part.
  lemma FilterPart(t: Tree, now: seq<Tree>, idx: seq<nat>, idx': seq<nat>, i: nat, value: Tree, all: seq<Tree>,
                   part: seq<Tree>, rest: seq<Tree>)
    requires t.Node? && 2 * i + 1 < |t.content| && Filtering(t, now, idx, i, all, part + rest)
    requires || (part == [] && idx' == idx)
             || (part == [now[2 * i], value] && idx' == idx + [2 * i, 2 * i + 1])
    ensures Filtering(t, now[2 * i + 1 := value], idx', i + 1, all, rest)
  {
    FilterRest(t, now, idx, i, value, all, part + rest);
    if part == [] {
      Regrouped([], [], rest);
    } else {
      FilterKeeps(t, now[2 * i + 1 := value], idx, i, all, part, rest);
    }
  }

  lemma FilterStep(path: Path, t: Tree, now: seq<Tree>, idx: seq<nat>, idx': seq<nat>, i: nat, value: Tree, stays: bool)
    requires t.Node? && 2 * i + 1 < |t.content|
    requires Filtering(t, now, idx, i, PrunePairs(path, t, 0), PrunePairs(path, t, i))
    requires stays <==> StaysPair(path, now[2 * i], now[2 * i + 1])
    requires stays ==> value == Prune(path + [now[2 * i].value], now[2 * i + 1])
    requires idx' == if stays then idx + [2 * i, 2 * i + 1] else idx
    ensures Filtering(t, now[2 * i + 1 := value], idx', i + 1, PrunePairs(path, t, 0), PrunePairs(path, t, i + 1))
  {
    CurrentPair(t, now, idx, i, PrunePairs(path, t, 0), PrunePairs(path, t, i));
    PrunedPair(path, t, i);
    FilterPart(t, now, idx, idx', i, value, PrunePairs(path, t, 0), PrunedPart(path, t, i), PrunePairs(path, t, i + 1));
  }

  lemma OneMoreItem(items: seq<Tree>, i: nat)
    requires i < |items|
    ensures items[..i + 1] == items[..i] + [items[i]]
  {
  }

  lemma SamePair(a: seq<Tree>, b: seq<Tree>, i: nat, j: nat)
    requires 2 * i + 1 < |a| && 2 * j <= |b| && a[2 * i..] == b[2 * j..]
    ensures 2 * j + 1 < |b| && a[2 * i] == b[2 * j] && a[2 * i..2 * i + 2] == b[2 * j..2 * j + 2]
    ensures a[2 * (i + 1)..] == b[2 * (j + 1)..]
  {
    var x, y := a[2 * i..], b[2 * j..];
    assert |x| == |y| && x[0] == y[0];
    assert a[2 * i..2 * i + 2] == x[..2] && b[2 * j..2 * j + 2] == y[..2];
    assert a[2 * (i + 1)..] == x[2..] && b[2 * (j + 1)..] == y[2..];
  }

  lemma {:induction false} KeepSuffix(a: seq<Tree>, b: seq<Tree>, keep: set<string>, i: nat, j: nat)
    requires 2 * i <= |a| && 2 * j <= |b| && a[2 * i..] == b[2 * j..]
    ensures KeepPairs(a, keep, i) == KeepPairs(b, keep, j)
    decreases |a| - 2 * i
  {
    assert |a[2 * i..]| == |b[2 * j..]|;
    if 2 * i + 1 < |a| {
      SamePair(a, b, i, j);
      KeepSuffix(a, b, keep, i + 1, j + 1);
    }
  }

  lemma Regrouped(a: seq<Tree>, b: seq<Tree>, c: seq<Tree>)
    ensures a + (b + c) == (a + b) + c && a + ([] + c) == a + c
  {
  }

  function WithoutPair<T>(now: seq<T>, p: nat): (cut: seq<T>)
    requires 2 * p + 1 < |now|
    ensures |cut| == |now| - 2
  {
    now[..2 * p] + now[2 * (p + 1)..]
  }

  ghost function AllBut(n: nat, p: nat): (idx: seq<nat>)
    requires 2 * p + 1 < n
    ensures Indices(idx, n) && |idx| == n - 2
  {
    seq(n - 2, k requires 0 <= k < n - 2 => if k < 2 * p then k else k + 2)
  }

  lemma PickAllBut<T>(items: seq<T>, p: nat)
    requires 2 * p + 1 < |items|
    ensures Pick(items, AllBut(|items|, p)) == WithoutPair(items, p)
  {
  }

  lemma AroundPair(now: seq<Tree>, p: nat)
    requires 2 * p + 1 < |now|
    ensures WithoutPair(now, p)[..2 * p] == now[..2 * p] && WithoutPair(now, p)[2 * p..] == now[2 * (p + 1)..]
  {
  }

  // What the walk from the p-th pair on makes of a mapping's content, removing pairs as it goes.
  ghost function Walked(now: seq<Tree>, keep: set<string>, p: nat): seq<Tree>
    decreases |now| - 2 * p
  {
    if 2 * p + 1 >= |now| then now
    else if KeptPart(now, keep, p) == [] then Walked(WithoutPair(now, p), keep, p)
    else Walked(now, keep, p + 1)
  }

  lemma CutYieldsNothing(now: seq<Tree>, keep: set<string>, p: nat)
    requires 2 * p + 1 < |now| && KeptPart(now, keep, p) == []
    ensures KeepPairs(now, keep, p) == KeepPairs(WithoutPair(now, p), keep, p)
  {
    KeptOrCut(now, keep, p);
    AroundPair(now, p);
    KeepSuffix(now, WithoutPair(now, p), keep, p + 1, p);
  }

  lemma KeptYieldsPair(now: seq<Tree>, keep: set<string>, p: nat)
    requires 2 * p + 1 < |now| && KeptPart(now, keep, p) != []
    ensures now[..2 * p] + KeepPairs(now, keep, p) == now[..2 * (p + 1)] + KeepPairs(now, keep, p + 1)
  {
    var pair := KeptPart(now, keep, p);
    KeptOrCut(now, keep, p);
    Regrouped(now[..2 * p], pair, KeepPairs(now, keep, p + 1));
    assert now[..2 * p] + pair == now[..2 * (p + 1)];
  }

  // What is dealt with and what the rest yields.
  ghost function Yield(now: seq<Tree>, keep: set<string>, p: nat): seq<Tree>
    requires 2 * p <= |now|
  {
    now[..2 * p] + KeepPairs(now, keep, p)
  }

  lemma WalkEnds(now: seq<Tree>, keep: set<string>, p: nat)
    requires 2 * p <= |now| <= 2 * p + 1
    ensures Yield(now, keep, p) == now
  {
  }

  lemma WalkCuts(now: seq<Tree>, keep: set<string>, p: nat)
    requires 2 * p + 1 < |now| && KeptPart(now, keep, p) == []
    ensures Yield(WithoutPair(now, p), keep, p) == Yield(now, keep, p)
  {
    AroundPair(now, p);
    CutYieldsNothing(now, keep, p);
  }

  lemma WalkPasses(now: seq<Tree>, keep: set<string>, p: nat)
    requires 2 * p + 1 < |now| && KeptPart(now, keep, p) != []
    ensures Yield(now, keep, p + 1) == Yield(now, keep, p)
  {
    KeptYieldsPair(now, keep, p);
  }

  lemma {:induction false} WalkKeeps(now: seq<Tree>, keep: set<string>, p: nat)
    requires 2 * p <= |now|
    ensures Walked(now, keep, p) == Yield(now, keep, p)
    decreases |now| - 2 * p
  {
    if 2 * p + 1 >= |now| {
      WalkEnds(now, keep, p);
    } else if KeptPart(now, keep, p) == [] {
      WalkCuts(now, keep, p);
      WalkKeeps(WithoutPair(now, p), keep, p);
    } else {
      WalkPasses(now, keep, p);
      WalkKeeps(now, keep, p + 1);
    }
  }

  lemma WalkIsFilter(now: seq<Tree>, keep: set<string>)
    ensures Walked(now, keep, 0) == KeepPairs(now, keep, 0)
  {
    WalkKeeps(now, keep, 0);
    Regrouped([], [], KeepPairs(now, keep, 0));
  }

  // A sequence's items with the first i of s merged in.
  ghost function MergingItems(items: seq<Tree>, s: Tree, i: nat, path: Path): seq<Tree>
    requires s.Node? && i <= |s.content|
  {
    MergedItems(items, s, i, path) + (if i <= |items| then items[i..] else [])
  }

  lemma MergingStep(items: seq<Tree>, s: Tree, i: nat, path: Path)
    requires s.Node? && i < |s.content|
    ensures var now := MergingItems(items, s, i, path);
            && |now| == (if i <= |items| then |items| else i)
            && MergingItems(items, s, i + 1, path)
               == if i < |items| then now[i := MergeItem(now[i], s.content[i], path)] else now + [s.content[i]]
  {
    var now, next := MergingItems(items, s, i, path), MergingItems(items, s, i + 1, path);
    if i < |items| {
      assert now[i] == items[i];
      assert next == now[i := MergeItem(items[i], s.content[i], path)];
    } else {
      assert next == now + [MergeItem(Nil, s.content[i], path)];
    }
  }

  lemma StretchSnoc(front: seq<Tree>, items: seq<Tree>, n: nat, i: nat)
    requires n <= i < |items|
    ensures front + items[n..i + 1] == (front + items[n..i]) + [items[i]]
  {
  }

  // Past the destination's items, merging is appending.
  lemma {:induction false} MergingRest(items: seq<Tree>, s: Tree, i: nat, path: Path)
    requires s.Node? && |items| <= i <= |s.content|
    ensures MergingItems(items, s, |s.content|, path) == MergingItems(items, s, i, path) + s.content[i..]
    decreases |s.content| - i
  {
    if i < |s.content| {
      MergingRest(items, s, i + 1, path);
      MergingStep(items, s, i, path);
      assert s.content[i..] == [s.content[i]] + s.content[i + 1..];
    }
  }

  lemma MergedPrefix(items: seq<Tree>, s: Tree, path: Path)
    requires s.Node?
    ensures |MergingItems(items, s, |s.content|, path)| >= |s.content|
    ensures MergingItems(items, s, |s.content|, path)[..|s.content|] == MergedItems(items, s, |s.content|, path)
  {
  }

  // Merging item after item, as the loop does, comes to the same.
  ghost function ItemStep(t: Tree, s: Tree, i: nat, path: Path): Tree {
    if t.Node? && s.Node? && i < |t.content| && i < |s.content|
    then WithKids(t, t.content[i := MergeItem(t.content[i], s.content[i], path)]) else t
  }

  ghost function ItemSteps(t: Tree, s: Tree, i: nat, path: Path): Tree {
    if i == 0 then t else ItemStep(ItemSteps(t, s, i - 1, path), s, i - 1, path)
  }

  lemma {:induction false} ItemStepsMerge(t: Tree, s: Tree, i: nat, path: Path)
    requires t.Node? && s.Node? && i <= |t.content| && i <= |s.content|
    ensures ItemSteps(t, s, i, path) == WithKids(t, MergingItems(t.content, s, i, path))
  {
    if i == 0 {
      assert MergingItems(t.content, s, 0, path) == t.content;
    } else {
      ItemStepsMerge(t, s, i - 1, path);
      MergingStep(t.content, s, i - 1, path);
    }
  }

  ghost function WithPair(content: seq<Tree>, key: Tree, candidate: Tree, child: Path): seq<Tree> {
    if IsKnownDefault(child, candidate) then content else content + [key, candidate]
  }

  function Placed(d: Tree, s: Tree): Tree {
    if d.Nil? || s.Nil? then d
    else
      var d1 := if d.kind != Sequence then d.(kind := Sequence, tag := "!!seq", content := []) else d;
      WithKids(d1, Reordered(d1.content, s.content))
  }

  lemma SequenceMerge(d: Tree, s: Tree, path: Path)
    requires d.Node? && s.Node? && s.kind == Sequence && !(d.kind == Scalar && d.tag == "!!null" && s.content == [])
    ensures MergeNode(d, s, path) == WithKids(Placed(d, s), MergedItems(Placed(d, s).content, s, |s.content|, path))
  {
  }

  lemma PairPlaced(content: seq<Tree>, s: Tree, j: nat, path: Path)
    requires s.Node? && 2 * j + 1 < |s.content| && s.content[2 * j].Node?
    ensures var key, value := s.content[2 * j], s.content[2 * j + 1];
            var at, child := Find(content, key.value), path + [key.value];
            MergePair(content, s, j, path) ==
            if at != -1 then content[2 * at + 1 := MergeNode(content[2 * at + 1], value, child)]
            else WithPair(content, key, Prune(child, value), child)
  {
  }

  class YamlNode {
    var kind: Kind
    var tag: string
    var value: string
    const note: string
    var content: seq<YamlNode?>
    ghost var repr: set<YamlNode>

    // The node and everything below it is a tree, held in repr.
    ghost predicate Valid()
      reads this, repr
      decreases repr, 0
    {
      this in repr && Forest(content, repr - {this})
    }

    // Trees side by side, apart from each other, held in R.
    static ghost predicate Forest(kids: seq<YamlNode?>, R: set<YamlNode>)
      reads R
      decreases R, 1
    {
      && (forall i :: 0 <= i < |kids| && kids[i] != null ==> kids[i] in R && kids[i].repr <= R && kids[i].Valid())
      && (forall i, j :: 0 <= i < j < |kids| && kids[i] != null && kids[j] != null ==> kids[i].repr !! kids[j].repr)
    }

    // The tree a node stands for.
    function Abs(): (t: Tree)
      requires Valid()
      reads this, repr
      ensures t.Node? && |t.content| == |content|
      decreases repr, 0, 0
    {
      Node(kind, tag, value, note, Trees(content, repr - {this}))
    }

    static function Trees(kids: seq<YamlNode?>, ghost R: set<YamlNode>): (ts: seq<Tree>)
      requires Forest(kids, R)
      reads R
      ensures |ts| == |kids|
      ensures forall i :: 0 <= i < |kids| ==> ts[i] == TreeOf(kids[i])
      decreases R, 1, |kids|
    {
      if kids == [] then []
      else Trees(kids[..|kids| - 1], R) + [TreeOf(kids[|kids| - 1])]
    }

    static function TreeOf(n: YamlNode?): Tree
      requires n != null ==> n.Valid()
      reads n, if n != null then n.repr else {}
      decreases if n != null then n.repr else {}, 0, 1
    {
      if n == null then Nil else n.Abs()
    }

    constructor (kind: Kind, tag: string, value: string, note: string, kids: seq<YamlNode?>, ghost R: set<YamlNode>)
      requires Forest(kids, R)
      ensures Valid() && repr == {this} + R && Abs() == Node(kind, tag, value, note, Trees(kids, R))
    {
      this.kind, this.tag, this.value, this.note := kind, tag, value, note;
      content, repr := kids, {this} + R;
      new;
      assert repr - {this} == R;
    }

    // Hangs new kids under the node.
    method Adopt(kids: seq<YamlNode?>, ghost R: set<YamlNode>)
      requires Forest(kids, R) && this !in R
      modifies this`content, this`repr
      ensures content == kids && repr == {this} + R
      ensures Valid() && Abs().content == Trees(kids, R)
      ensures unchanged(R)
    {
      content, repr := kids, {this} + R;
      assert repr - {this} == R;
    }

    // The same, with everything but the note taken over.
    method AdoptAs(kind: Kind, tag: string, value: string, kids: seq<YamlNode?>, ghost R: set<YamlNode>)
      requires Forest(kids, R) && this !in R
      modifies this`kind, this`tag, this`value, this`content, this`repr
      ensures content == kids && repr == {this} + R && this.kind == kind
      ensures Valid() && Abs() == Node(kind, tag, value, note, old(Trees(kids, R)))
    {
      this.kind, this.tag, this.value := kind, tag, value;
      content, repr := kids, {this} + R;
      assert repr - {this} == R;
    }

    static lemma ForestSnoc(kids: seq<YamlNode?>, kid: YamlNode?, R: set<YamlNode>)
      requires Forest(kids, R)
      requires kid != null ==> kid.Valid() && kid.repr !! R
      ensures kid == null ==> Forest(kids + [kid], R)
      ensures kid == null ==> Trees(kids + [kid], R) == Trees(kids, R) + [Nil]
      ensures kid != null ==> Forest(kids + [kid], R + kid.repr)
      ensures kid != null ==> Trees(kids + [kid], R + kid.repr) == Trees(kids, R) + [kid.Abs()]
    {
    }

    // deepCopyNode: nothing of the copy is part of the original.
    static method DeepCopy(n: YamlNode?) returns (copy: YamlNode?)
      requires n != null ==> n.Valid()
      ensures n == null <==> copy == null
      ensures n != null ==> copy.Valid() && fresh(copy.repr) && copy.Abs() == n.Abs()
      decreases if n != null then n.repr else {}, 0
    {
      if n == null {
        return null;
      }
      var kids, R := CopyKids(n);
      copy := new YamlNode(n.kind, n.tag, n.value, n.note, kids, R);
    }

    static method CopyKids(n: YamlNode) returns (kids: seq<YamlNode?>, ghost R: set<YamlNode>)
      requires n.Valid()
      ensures fresh(R) && Forest(kids, R) && Trees(kids, R) == n.Abs().content
      decreases n.repr - {n}, 2
    {
      kids, R := [], {};
      for i := 0 to |n.content|
        invariant fresh(R) && Forest(kids, R) && Trees(kids, R) == n.Abs().content[..i]
      {
        OneMoreItem(n.Abs().content, i);
        kids, R := CopyKid(n, i, kids, R);
      }
    }

    static method CopyKid(n: YamlNode, i: nat, kids: seq<YamlNode?>, ghost R: set<YamlNode>)
      returns (kids': seq<YamlNode?>, ghost R': set<YamlNode>)
      requires n.Valid() && i < |n.content| && Forest(kids, R)
      ensures fresh(R' - R) && Forest(kids', R') && Trees(kids', R') == Trees(kids, R) + [n.Abs().content[i]]
      decreases n.repr - {n}, 1
    {
      n.KidOf(i);
      var kid := DeepCopy(n.content[i]);
      ForestSnoc(kids, kid, R);
      kids', R' := kids + [kid], R + (if kid != null then kid.repr else {});
    }

    lemma KidOf(i: nat)
      requires Valid() && i < |content|
      ensures content[i] == null <==> Abs().content[i].Nil?
      ensures content[i] != null ==> content[i].Valid() && Abs().content[i] == content[i].Abs()
      ensures TreeOf(content[i]) == Abs().content[i]
    {
      assert Abs().content == Trees(content, repr - {this});
    }

    // After the i-th kid changed, and nothing else of this node's did.
    twostate lemma KidChanged(i: nat)
      requires old(Valid()) && i < |content| && content == old(content) && content[i] != null
      requires content[i].Valid() && forall n :: n in content[i].repr ==> n in old(content[i].repr) || fresh(n)
      requires unchanged(old(repr) - old(content[i].repr))
      ensures Forest(content, old(repr) - {this} + content[i].repr)
      ensures Trees(content, old(repr) - {this} + content[i].repr) == old(Abs().content)[i := content[i].Abs()]
    {
      var R := old(repr) - {this} + content[i].repr;
      forall j | 0 <= j < |content| && j != i && content[j] != null
        ensures content[j] in R && content[j].repr <= R && content[j].Valid() && content[j].repr == old(content[j].repr)
        ensures content[j].repr !! content[i].repr
        ensures content[j].Abs() == old(content[j].Abs())
      {
        var k := content[j];
        assert old(k.Valid()) && old(k.repr) !! old(content[i].repr) && k in old(k.repr) && old(k.repr) <= old(repr);
        assert k.repr == old(k.repr);
      }
      assert Forest(content, R);
      var trees := old(Abs().content)[i := content[i].Abs()];
      forall j | 0 <= j < |content| ensures Trees(content, R)[j] == trees[j] {
      }
    }

    // Takes a kid that has grown into this node's footprint.
    ghost method TakeIn(i: nat)
      requires this in repr && i < |content| && content[i] != null && this !in content[i].repr
      requires Forest(content, repr - {this} + content[i].repr)
      modifies this`repr
      ensures repr == old(repr) + old(content[i].repr) && Valid()
      ensures Abs() == Node(kind, tag, value, note, old(Trees(content, repr - {this} + content[i].repr)))
    {
      repr := repr + content[i].repr;
      assert repr - {this} == old(repr) - {this} + content[i].repr;
    }

    // ----- Changing one node's list of kids -----

    static lemma SubForest(kids: seq<YamlNode?>, R: set<YamlNode>, idx: seq<nat>)
      requires Forest(kids, R) && Indices(idx, |kids|)
      ensures Forest(Pick(kids, idx), R)
      ensures Trees(Pick(kids, idx), R) == Pick(Trees(kids, R), idx)
    {
      var sub := Pick(kids, idx);
      forall j, k | 0 <= j < k < |sub| && sub[j] != null && sub[k] != null ensures sub[j].repr !! sub[k].repr {
        assert kids[idx[j]].repr !! kids[idx[k]].repr;
      }
    }

    // Keeps some kids, in order.
    method Keep(sub: seq<YamlNode?>, ghost idx: seq<nat>)
      requires Valid() && Indices(idx, |content|) && sub == Pick(content, idx)
      modifies this`content, this`repr
      ensures Valid() && content == sub && repr == old(repr)
      ensures Abs() == WithKids(old(Abs()), Pick(old(Abs()).content, idx))
    {
      SubForest(content, repr - {this}, idx);
      Rehang(sub, Pick(Abs().content, idx));
    }

    // Hangs up some of the kids it has.
    method Rehang(sub: seq<YamlNode?>, ghost trees: seq<Tree>)
      requires Valid() && Forest(sub, repr - {this}) && Trees(sub, repr - {this}) == trees
      modifies this`content, this`repr
      ensures Valid() && content == sub && repr == old(repr) && Abs() == WithKids(old(Abs()), trees)
    {
      Adopt(sub, repr - {this});
    }

    // Drops the p-th pair.
    method RemovePair(p: nat)
      requires Valid() && 2 * p + 1 < |content|
      modifies this`content, this`repr
      ensures Valid() && content == old(WithoutPair(content, p)) && repr == old(repr)
      ensures Abs() == WithKids(old(Abs()), WithoutPair(old(Abs()).content, p))
    {
      ghost var idx := AllBut(|content|, p);
      PickAllBut(content, p);
      PickAllBut(Abs().content, p);
      Keep(content[..2 * p] + content[2 * (p + 1)..], idx);
    }

    // Fills an empty place with a new tree.
    method FillPlace(i: nat, kid: YamlNode?)
      requires Valid() && i < |content| && content[i] == null
      requires kid != null ==> kid.Valid() && kid.repr !! repr
      modifies this`content, this`repr
      ensures Valid() && content == old(content)[i := kid] && repr == old(repr) + (if kid == null then {} else kid.repr)
      ensures Abs() == WithKids(old(Abs()), old(Abs()).content[i := TreeOf(kid)])
    {
      if kid != null {
        ghost var R := repr - {this} + kid.repr;
        ghost var trees := Abs().content[i := kid.Abs()];
        var kids := content[i := kid];
        assert Forest(kids, R);
        assert Trees(kids, R) == trees;
        Adopt(kids, R);
      }
    }

    // Adds a new tree at the end.
    method Append(kid: YamlNode?)
      requires Valid()
      requires kid != null ==> kid.Valid() && kid.repr !! repr
      modifies this`content, this`repr
      ensures Valid() && content == old(content) + [kid] && repr == old(repr) + (if kid == null then {} else kid.repr)
      ensures Abs() == WithKids(old(Abs()), old(Abs()).content + [TreeOf(kid)])
    {
      if kid == null {
        ForestSnoc(content, null, repr - {this});
        Adopt(content + [null], repr - {this});
      } else {
        AppendKid(kid);
      }
    }

    method AppendKid(kid: YamlNode)
      requires Valid() && kid.Valid() && kid.repr !! repr
      modifies this`content, this`repr
      ensures Valid() && content == old(content) + [kid] && repr == old(repr) + kid.repr
      ensures Abs() == WithKids(old(Abs()), old(Abs()).content + [kid.Abs()])
    {
      ForestSnoc(content, kid, repr - {this});
      Adopt(content + [kid], repr - {this} + kid.repr);
    }

    // ----- Pruning defaults from a new tree -----

    // pruneKnownDefaultsInNewNode.
    static method PruneKnownDefaults(path: Path, node: YamlNode?)
      requires node != null ==> node.Valid()
      modifies if node != null then node.repr else {}
      ensures node != null ==> node.Valid() && node.repr == old(node.repr) && node.Abs() == Prune(path, old(node.Abs()))
      decreases if node != null then node.repr else {}, 5
    {
      if node == null {
        return;
      }
      if node.kind == Mapping {
        node.PruneMapping(path);
      } else if node.kind == Sequence {
        node.PruneSequence(path);
      }
    }

    method PruneKid(i: nat, path: Path)
      requires Valid() && i < |content| && content[i] != null
      modifies repr
      ensures Valid() && content == old(content) && repr == old(repr)
      ensures Abs() == WithKids(old(Abs()), old(Abs()).content[i := Prune(path, old(Abs()).content[i])])
      decreases repr, 0
    {
      PruneKnownDefaults(path, content[i]);
      KidChanged(i);
      assert repr - {this} + content[i].repr == repr - {this};
    }

    method PruneItem(i: nat, path: Path)
      requires Valid() && i < |content|
      modifies repr
      ensures Valid() && content == old(content) && repr == old(repr)
      ensures Abs() == PruneStep(path, old(Abs()), i)
      decreases repr, 1
    {
      KidOf(i);
      if content[i] != null {
        PruneKid(i, path);
      }
    }

    method PruneAllItems(path: Path)
      requires Valid()
      modifies repr
      ensures Valid() && content == old(content) && repr == old(repr)
      ensures Abs() == PrunedUpTo(path, old(Abs()), |content|)
      decreases repr, 2
    {
      ghost var t := Abs();
      for i := 0 to |content|
        invariant Valid() && content == old(content) && repr == old(repr)
        invariant Abs() == PruneSteps(path, t, i)
      {
        PruneItem(i, path);
      }
      PruneStepsPrune(path, t, |content|);
    }

    method PruneSequence(path: Path)
      requires Valid() && kind == Sequence
      modifies repr
      ensures Valid() && repr == old(repr) && Abs() == Prune(path, old(Abs()))
      decreases repr, 3
    {
      PrunedAll(path, Abs());
      PruneAllItems(path);
    }

    method PruneMapping(path: Path)
      requires Valid() && kind == Mapping
      modifies repr
      ensures Valid() && repr == old(repr) && Abs() == Prune(path, old(Abs()))
      decreases repr, 4
    {
      ghost var t := Abs();
      var filtered, idx, pairs := FilterPairs(path, t);
      FilteringEnd(path, t, Abs().content, idx, pairs);
      Keep(filtered, idx);
    }

    method FilterPairs(path: Path, ghost t: Tree)
      returns (filtered: seq<YamlNode?>, ghost idx: seq<nat>, ghost pairs: nat)
      requires Valid() && kind == Mapping && t == Abs()
      modifies repr
      ensures Valid() && content == old(content) && repr == old(repr)
      ensures 2 * pairs + 1 >= |content|
      ensures Abs() == WithKids(t, Abs().content)
      ensures Filtering(t, Abs().content, idx, pairs, PrunePairs(path, t, 0), PrunePairs(path, t, pairs))
      ensures filtered == Pick(content, idx)
      decreases repr, 3
    {
      filtered, idx := [], [];
      var i := 0;
      FilteringStart(t, PrunePairs(path, t, 0));
      while 2 * i + 1 < |content|
        invariant 0 <= i && Valid() && content == old(content) && repr == old(repr)
        invariant Abs() == WithKids(t, Abs().content)
        invariant Filtering(t, Abs().content, idx, i, PrunePairs(path, t, 0), PrunePairs(path, t, i))
        invariant filtered == Pick(content, idx)
      {
        filtered, idx := FilterPair(i, path, filtered, idx, t);
        i := i + 1;
      }
      pairs := i;
    }

    method FilterPair(i: nat, path: Path, filtered: seq<YamlNode?>, ghost idx: seq<nat>, ghost t: Tree)
      returns (filtered': seq<YamlNode?>, ghost idx': seq<nat>)
      requires Valid() && kind == Mapping && 2 * i + 1 < |content|
      requires t.Node? && Abs() == WithKids(t, Abs().content)
      requires Filtering(t, Abs().content, idx, i, PrunePairs(path, t, 0), PrunePairs(path, t, i))
      requires filtered == Pick(content, idx)
      modifies repr
      ensures Valid() && content == old(content) && repr == old(repr)
      ensures Abs() == WithKids(t, Abs().content)
      ensures Filtering(t, Abs().content, idx', i + 1, PrunePairs(path, t, 0), PrunePairs(path, t, i + 1))
      ensures filtered' == Pick(content, idx')
      decreases repr, 2
    {
      ghost var now := Abs().content;
      filtered', idx' := filtered, idx;
      var stays := PruneValue(i, path);
      if stays {
        ghost var pair: seq<nat> := [2 * i, 2 * i + 1];
        idx' := idx + pair;
        filtered' := filtered + [content[2 * i], content[2 * i + 1]];
      }
      FilterStep(path, t, now, idx, idx', i, Abs().content[2 * i + 1], stays);
      if stays {
        PickPair(content, idx, i);
      }
    }

    // One pair of a new mapping: whether it stays, with its value pruned if so.
    method PruneValue(i: nat, path: Path) returns (stays: bool)
      requires Valid() && kind == Mapping && 2 * i + 1 < |content|
      modifies repr
      ensures Valid() && content == old(content) && repr == old(repr)
      ensures stays <==> StaysPair(path, old(Abs()).content[2 * i], old(Abs()).content[2 * i + 1])
      ensures Abs() == WithKids(old(Abs()), old(Abs()).content[2 * i + 1 := Abs().content[2 * i + 1]])
      ensures stays ==>
              Abs().content[2 * i + 1] == Prune(path + [old(Abs()).content[2 * i].value], old(Abs()).content[2 * i + 1])
      decreases repr, 1
    {
      var keyNode, valueNode := content[2 * i], content[2 * i + 1];
      KidOf(2 * i);
      KidOf(2 * i + 1);
      if keyNode == null || valueNode == null {
        return false;
      }
      var childPath := path + [keyNode.value];
      if IsKnownDefault(childPath, valueNode.Abs()) {
        return false;
      }
      PruneKid(2 * i + 1, childPath);
      KidOf(2 * i + 1);
      stays := !((valueNode.kind == Mapping || valueNode.kind == Sequence) && |valueNode.content| == 0);
    }

    // ----- The merge, in place -----

    // copyNodeShallow.
    method CopyFrom(src: YamlNode)
      requires Valid() && src.Valid() && src != this
      modifies this`kind, this`tag, this`value, this`content, this`repr
      ensures Valid() && fresh(repr - {this}) && Abs() == CopyOnto(old(Abs()), old(src.Abs()))
    {
      var kids, R := CopyKids(src);
      AdoptAs(src.kind, src.tag, src.value, kids, R);
    }

    // pruneMissingMapKeys.
    method PruneMissingMapKeys(src: YamlNode)
      requires Valid() && src.Valid() && this !in src.repr
      modifies this`content, this`repr
      ensures Valid() && repr == old(repr) && Abs() == PruneMissing(old(Abs()), old(src.Abs()))
    {
      if kind != Mapping || src.kind != Mapping {
        return;
      }
      var keep := KeysKept(src.Abs());
      WalkIsFilter(Abs().content, keep);
      RemoveMissing(keep);
    }

    // The walk over the pairs, removing those whose keys are not kept.
    method RemoveMissing(keep: set<string>)
      requires Valid()
      modifies this`content, this`repr
      ensures Valid() && repr == old(repr)
      ensures Abs() == WithKids(old(Abs()), Walked(old(Abs()).content, keep, 0))
    {
      ghost var t := Abs();
      var i := 0;
      while 2 * i + 1 < |content|
        invariant 0 <= i && Valid() && repr == old(repr) && Abs() == WithKids(t, Abs().content)
        invariant Walked(Abs().content, keep, i) == Walked(t.content, keep, 0)
        decreases |content| - 2 * i
      {
        i := KeepOrRemove(i, keep);
      }
    }

    // One pair of the walk: past it, or it goes.
    method KeepOrRemove(i: nat, keep: set<string>) returns (next: nat)
      requires Valid() && 2 * i + 1 < |content|
      modifies this`content, this`repr
      ensures Valid() && repr == old(repr) && |content| - 2 * next == |old(content)| - 2 * i - 2
      ensures Abs() == WithKids(old(Abs()), Abs().content)
      ensures Walked(Abs().content, keep, next) == Walked(old(Abs()).content, keep, i)
    {
      var gone := IsMissing(i, keep);
      if gone {
        RemovePair(i);
        return i;
      }
      return i + 1;
    }

    method IsMissing(i: nat, keep: set<string>) returns (missing: bool)
      requires Valid() && 2 * i + 1 < |content|
      ensures missing <==> KeptPart(Abs().content, keep, i) == []
    {
      KidOf(2 * i);
      var keyNode := content[2 * i];
      missing := keyNode != null && Trim(keyNode.value) !in keep;
    }

    static lemma ForestChosen(kids: seq<YamlNode?>, R: set<YamlNode>, chosen: seq<int>, ordered: seq<YamlNode?>)
      requires Forest(kids, R) && Injective(Trees(kids, R), chosen) && |ordered| == |chosen|
      requires forall i :: 0 <= i < |chosen| ==> ordered[i] == if chosen[i] == -1 then null else kids[chosen[i]]
      ensures Forest(ordered, R)
      ensures forall i :: 0 <= i < |chosen| ==>
                Trees(ordered, R)[i] == if chosen[i] == -1 then Nil else Trees(kids, R)[chosen[i]]
    {
    }

    static method ChooseKids(original: seq<YamlNode?>, trees: seq<Tree>, targets: seq<Tree>)
      returns (ordered: seq<YamlNode?>, ghost chosen: seq<int>)
      requires |trees| == |original|
      ensures chosen == Chosen(trees, targets, |targets|) && Injective(trees, chosen)
      ensures |ordered| == |chosen|
      ensures forall i :: 0 <= i < |chosen| ==> ordered[i] == if chosen[i] == -1 then null else original[chosen[i]]
    {
      var used: set<int> := {};
      ordered, chosen := [], [];
      for i := 0 to |targets|
        invariant chosen == Chosen(trees, targets, i) && used == InUse(chosen)
        invariant |ordered| == i
        invariant forall k :: 0 <= k < i ==> -1 <= chosen[k] < |original|
        invariant forall k :: 0 <= k < i ==> ordered[k] == if chosen[k] == -1 then null else original[chosen[k]]
      {
        var idx := MatchElement(trees, used, targets[i]);
        InUseSnoc(chosen, idx);
        chosen := chosen + [idx];
        if idx >= 0 {
          ordered := ordered + [original[idx]];
          used := used + {idx};
        } else {
          ordered := ordered + [null];
        }
      }
      ChosenInjective(trees, targets, |targets|);
    }

    static lemma ReorderedTrees(trees: seq<Tree>, targets: seq<Tree>, chosen: seq<int>, ordered: seq<Tree>)
      requires trees != [] && targets != [] && chosen == Chosen(trees, targets, |targets|)
      requires Injective(trees, chosen) && |ordered| == |chosen|
      requires forall i :: 0 <= i < |chosen| ==> ordered[i] == if chosen[i] == -1 then Nil else trees[chosen[i]]
      ensures ordered == Reordered(trees, targets)
    {
    }

    // reorderSequenceForMerge: each place holds one of the old kids, the very node, or nothing.
    method ReorderForMerge(src: YamlNode)
      requires Valid() && src.Valid() && this !in src.repr
      modifies this`content, this`repr
      ensures Valid() && repr == old(repr)
      ensures Abs() == WithKids(old(Abs()), Reordered(old(Abs()).content, old(src.Abs()).content))
      ensures forall n :: n in content && n != null ==> n in old(content)
    {
      if |content| == 0 || |src.content| == 0 {
        return;
      }
      ghost var trees, targets := Abs().content, src.Abs().content;
      var ordered, chosen := ChooseKids(content, Abs().content, src.Abs().content);
      AdoptChosen(ordered, chosen);
      ReorderedTrees(trees, targets, chosen, Abs().content);
    }

    method AdoptChosen(ordered: seq<YamlNode?>, ghost chosen: seq<int>)
      requires Valid() && Injective(Abs().content, chosen) && |ordered| == |chosen|
      requires forall i :: 0 <= i < |chosen| ==> ordered[i] == if chosen[i] == -1 then null else content[chosen[i]]
      modifies this`content, this`repr
      ensures Valid() && repr == old(repr) && Abs() == WithKids(old(Abs()), Abs().content)
      ensures |Abs().content| == |chosen|
      ensures forall i :: 0 <= i < |chosen| ==>
                Abs().content[i] == if chosen[i] == -1 then Nil else old(Abs().content)[chosen[i]]
      ensures forall n :: n in content && n != null ==> n in old(content)
    {
      ForestChosen(content, repr - {this}, chosen, ordered);
      Adopt(ordered, repr - {this});
    }

    // mergeNodePreserve.
    static method Merge(dst: YamlNode?, src: YamlNode?, path: Path)
      requires dst != null ==> dst.Valid()
      requires src != null ==> src.Valid() && KeysPresent(src.Abs())
      requires dst != null && src != null ==> dst.repr !! src.repr
      modifies if dst != null then dst.repr else {}
      ensures dst != null ==> dst.Valid() && fresh(dst.repr - old(dst.repr))
      ensures dst != null ==> dst.Abs() == MergeNode(old(dst.Abs()), old(TreeOf(src)), path)
      decreases if src != null then src.repr else {}, 5
    {
      if dst == null || src == null {
        return;
      }
      match src.kind
      case Mapping =>
        if dst.kind != Mapping {
          dst.CopyFrom(src);
        }
        dst.MergeMappingFrom(src, path);
      case Sequence =>
        if dst.kind == Scalar && dst.tag == "!!null" && |src.content| == 0 {
          return;
        }
        dst.MergeSequenceFrom(src, path);
      case Scalar =>
        dst.kind, dst.tag, dst.value := src.kind, src.tag, src.value;
      case Unset =>
      case Document =>
        dst.CopyFrom(src);
    }

    // Merges into the i-th kid.
    method MergeKid(i: nat, src: YamlNode?, path: Path)
      requires Valid() && i < |content| && content[i] != null
      requires src != null ==> src.Valid() && KeysPresent(src.Abs()) && repr !! src.repr
      modifies repr
      ensures Valid() && content == old(content) && fresh(repr - old(repr))
      ensures Abs()
              == WithKids(old(Abs()), old(Abs()).content[i := MergeNode(old(Abs()).content[i], old(TreeOf(src)), path)])
      decreases if src != null then src.repr else {}, 6
    {
      KidOf(i);
      Merge(content[i], src, path);
      KidChanged(i);
      TakeIn(i);
    }

    method UpdateValue(i: nat, src: YamlNode?, path: Path)
      requires Valid() && i < |content|
      requires src != null ==> src.Valid() && KeysPresent(src.Abs()) && repr !! src.repr
      modifies repr
      ensures Valid() && content == old(content) && fresh(repr - old(repr))
      ensures Abs()
              == WithKids(old(Abs()), old(Abs()).content[i := MergeNode(old(Abs()).content[i], old(TreeOf(src)), path)])
      decreases if src != null then src.repr else {}, 7
    {
      KidOf(i);
      if content[i] != null {
        MergeKid(i, src, path);
      }
    }

    // One key of the source: merged into its place, or added unless it prunes to a known default.
    method MergePairFrom(src: YamlNode, j: nat, path: Path)
      requires Valid() && kind == Mapping && src.Valid() && src.kind == Mapping && KeysPresent(src.Abs())
      requires repr !! src.repr && 2 * j + 1 < |src.content|
      modifies repr
      ensures Valid() && fresh(repr - old(repr)) && old(content) <= content
      ensures Abs() == WithKids(old(Abs()), MergePair(old(Abs()).content, old(src.Abs()), j, path))
      decreases src.repr, 1
    {
      PairPlaced(Abs().content, src.Abs(), j, path);
      src.KidOf(2 * j);
      src.KidOf(2 * j + 1);
      var sk, sv := src.content[2 * j], src.content[2 * j + 1];
      var idx, childPath := Find(Abs().content, sk.value), path + [sk.value];
      if idx >= 0 {
        UpdateValue(2 * idx + 1, sv, childPath);
      } else {
        AddPair(sk, sv, childPath);
      }
    }

    method AddPair(sk: YamlNode, sv: YamlNode?, childPath: Path)
      requires Valid() && sk.Valid() && (sv != null ==> sv.Valid())
      modifies this`content, this`repr
      ensures Valid() && fresh(repr - old(repr)) && old(content) <= content
      ensures var candidate := Prune(childPath, old(TreeOf(sv)));
              Abs() == WithKids(old(Abs()), WithPair(old(Abs()).content, old(sk.Abs()), candidate, childPath))
    {
      ghost var was, key, pruned := Abs(), sk.Abs(), Prune(childPath, TreeOf(sv));
      var candidate := PrunedCopy(sv, childPath);
      assert Abs() == was && sk.Abs() == key && TreeOf(candidate) == pruned;
      if !IsKnownDefault(childPath, TreeOf(candidate)) {
        AddCandidate(sk, candidate);
      }
    }

    method AddCandidate(sk: YamlNode, candidate: YamlNode?)
      requires Valid() && sk.Valid()
      requires candidate != null ==> candidate.Valid() && candidate.repr !! repr
      modifies this`content, this`repr
      ensures Valid() && old(content) <= content
      ensures fresh(repr - old(repr) - (if candidate == null then {} else candidate.repr))
      ensures Abs() == WithKids(old(Abs()), old(Abs()).content + [old(sk.Abs()), old(TreeOf(candidate))])
    {
      var key := DeepCopy(sk);
      AppendTwo(key, candidate);
    }

    static method PrunedCopy(sv: YamlNode?, childPath: Path) returns (candidate: YamlNode?)
      requires sv != null ==> sv.Valid()
      ensures candidate != null ==> candidate.Valid() && fresh(candidate.repr)
      ensures TreeOf(candidate) == Prune(childPath, TreeOf(sv))
    {
      candidate := DeepCopy(sv);
      PruneKnownDefaults(childPath, candidate);
    }

    static lemma ForestPair(kids: seq<YamlNode?>, key: YamlNode, kid: YamlNode?, R: set<YamlNode>)
      requires Forest(kids, R) && key.Valid() && key.repr !! R
      requires kid != null ==> kid.Valid() && kid.repr !! R && kid.repr !! key.repr
      ensures var R2 := R + key.repr + (if kid == null then {} else kid.repr);
              Forest(kids + [key, kid], R2) && Trees(kids + [key, kid], R2) == Trees(kids, R) + [key.Abs(), TreeOf(kid)]
    {
      ForestSnoc(kids, key, R);
      ForestSnoc(kids + [key], kid, R + key.repr);
      assert kids + [key] + [kid] == kids + [key, kid];
      assert Trees(kids, R) + [key.Abs()] + [TreeOf(kid)] == Trees(kids, R) + [key.Abs(), TreeOf(kid)];
    }

    method AppendTwo(key: YamlNode, kid: YamlNode?)
      requires Valid() && key.Valid() && key.repr !! repr
      requires kid != null ==> kid.Valid() && kid.repr !! repr && kid.repr !! key.repr
      modifies this`content, this`repr
      ensures Valid() && content == old(content) + [key, kid]
      ensures repr == old(repr) + key.repr + (if kid == null then {} else kid.repr)
      ensures Abs() == WithKids(old(Abs()), old(Abs()).content + [key.Abs(), TreeOf(kid)])
    {
      ghost var R := repr - {this} + key.repr + (if kid == null then {} else kid.repr);
      ForestPair(content, key, kid, repr - {this});
      assert this !in R;
      Adopt(content + [key, kid], R);
    }

    // mergeMappingPreserve.
    method MergeMappingFrom(src: YamlNode, path: Path)
      requires Valid() && src.Valid() && repr !! src.repr && KeysPresent(src.Abs())
      modifies repr
      ensures Valid() && fresh(repr - old(repr))
      ensures Abs() == MergeMapping(old(Abs()), old(src.Abs()), path)
      ensures old(kind) == Mapping && src.kind == Mapping ==> old(content) <= content
      decreases src.repr, 3
    {
      if kind != Mapping || src.kind != Mapping {
        CopyFrom(src);
        return;
      }
      MergePairsFrom(src, path);
    }

    method MergePairsFrom(src: YamlNode, path: Path)
      requires Valid() && kind == Mapping && src.Valid() && src.kind == Mapping
      requires repr !! src.repr && KeysPresent(src.Abs())
      modifies repr
      ensures Valid() && fresh(repr - old(repr)) && old(content) <= content
      ensures Abs() == WithKids(old(Abs()), MergedPairs(old(Abs()).content, old(src.Abs()), |src.content| / 2, path))
      decreases src.repr, 2
    {
      ghost var t, s := Abs(), src.Abs();
      for j := 0 to |src.content| / 2
        invariant Valid() && fresh(repr - old(repr)) && old(content) <= content
        invariant Abs() == WithKids(t, MergedPairs(t.content, s, j, path))
      {
        MergePairFrom(src, j, path);
      }
    }

    static method MergeAndPrune(dst: YamlNode, src: YamlNode, path: Path)
      requires dst.Valid() && src.Valid() && KeysPresent(src.Abs()) && dst.repr !! src.repr
      modifies dst.repr
      ensures dst.Valid() && fresh(dst.repr - old(dst.repr))
      ensures dst.Abs() == MergeItem(old(dst.Abs()), old(src.Abs()), path)
      decreases src.repr, 6
    {
      Merge(dst, src, path);
      dst.PruneMissingMapKeys(src);
    }

    // A matched element: merged, then rid of the keys the source lacks.
    method MergeMatched(i: nat, src: YamlNode, path: Path)
      requires Valid() && i < |content| && content[i] != null
      requires src.Valid() && KeysPresent(src.Abs()) && repr !! src.repr
      modifies repr
      ensures Valid() && content == old(content) && fresh(repr - old(repr))
      ensures Abs()
              == WithKids(old(Abs()), old(Abs()).content[i := MergeItem(old(Abs()).content[i], old(src.Abs()), path)])
      decreases src.repr, 7
    {
      KidOf(i);
      MergeAndPrune(content[i], src, path);
      KidChanged(i);
      TakeIn(i);
    }

    // One element of a sequence.
    method MergeItemAt(i: nat, src: YamlNode?, path: Path)
      requires Valid() && i < |content|
      requires src != null ==> src.Valid() && KeysPresent(src.Abs()) && repr !! src.repr
      modifies repr
      ensures Valid() && |content| == |old(content)| && fresh(repr - old(repr))
      ensures Abs()
              == WithKids(old(Abs()), old(Abs()).content[i := MergeItem(old(Abs()).content[i], old(TreeOf(src)), path)])
      decreases if src != null then src.repr else {}, 8
    {
      KidOf(i);
      if content[i] == null {
        var kid := DeepCopy(src);
        FillPlace(i, kid);
      } else if src != null {
        MergeMatched(i, src, path);
      }
    }

    // The node as a sequence, its items in the places of the source's.
    method PlaceItems(src: YamlNode)
      requires Valid() && src.Valid() && repr !! src.repr
      modifies this`kind, this`tag, this`value, this`content, this`repr
      ensures Valid() && repr <= old(repr) && src.Valid() && src.Abs() == old(src.Abs())
      ensures Abs() == Placed(old(Abs()), old(src.Abs()))
    {
      if kind != Sequence {
        AdoptAs(Sequence, "!!seq", value, [], {});
      }
      ReorderForMerge(src);
    }

    method MergeSequenceFrom(src: YamlNode, path: Path)
      requires Valid() && src.Valid() && repr !! src.repr && KeysPresent(src.Abs()) && src.kind == Sequence
      requires !(kind == Scalar && tag == "!!null" && |src.content| == 0)
      modifies repr
      ensures Valid() && fresh(repr - old(repr))
      ensures Abs() == MergeNode(old(Abs()), old(src.Abs()), path)
      decreases src.repr, 4
    {
      SequenceMerge(Abs(), src.Abs(), path);
      PlaceItems(src);
      MergeItemsFrom(src, path);
    }

    // Updates in place, appends what is missing and truncates what is left over.
    method MergeItemsFrom(src: YamlNode, path: Path)
      requires Valid() && src.Valid() && repr !! src.repr && KeysPresent(src.Abs())
      modifies repr
      ensures Valid() && fresh(repr - old(repr))
      ensures Abs() == WithKids(old(Abs()), MergedItems(old(Abs()).content, old(src.Abs()), |src.content|, path))
      decreases src.repr, 3
    {
      MergedPrefix(Abs().content, src.Abs(), path);
      GrowItems(src, path);
      if |src.content| < |content| {
        Truncate(|src.content|);
      }
    }

    method GrowItems(src: YamlNode, path: Path)
      requires Valid() && src.Valid() && repr !! src.repr && KeysPresent(src.Abs())
      modifies repr
      ensures Valid() && fresh(repr - old(repr))
      ensures Abs() == WithKids(old(Abs()), MergingItems(old(Abs()).content, old(src.Abs()), |src.content|, path))
      decreases src.repr, 2
    {
      ghost var items := Abs().content;
      var minContent := |content|;
      if |src.content| < minContent {
        minContent := |src.content|;
      }
      UpdateItems(src, minContent, path);
      AppendItems(src, items, path);
    }

    method Truncate(n: nat)
      requires Valid() && n <= |content|
      modifies this`content, this`repr
      ensures Valid() && repr == old(repr) && Abs() == WithKids(old(Abs()), old(Abs()).content[..n])
    {
      ghost var idx := seq(n, k requires 0 <= k => k);
      assert Pick(content, idx) == content[..n];
      assert Pick(Abs().content, idx) == Abs().content[..n];
      Keep(content[..n], idx);
    }

    method UpdateOne(src: YamlNode, i: nat, path: Path)
      requires Valid() && src.Valid() && repr !! src.repr && KeysPresent(src.Abs())
      requires i < |content| && i < |src.content|
      modifies repr
      ensures Valid() && fresh(repr - old(repr)) && |content| == |old(content)|
      ensures Abs() == ItemStep(old(Abs()), old(src.Abs()), i, path)
      decreases src.repr, 0
    {
      src.KidOf(i);
      MergeItemAt(i, src.content[i], path);
    }

    method UpdateItems(src: YamlNode, minContent: nat, path: Path)
      requires Valid() && src.Valid() && repr !! src.repr && KeysPresent(src.Abs())
      requires minContent <= |content| && minContent <= |src.content|
      modifies repr
      ensures Valid() && fresh(repr - old(repr)) && |content| == |old(content)|
      ensures Abs() == WithKids(old(Abs()), MergingItems(old(Abs()).content, old(src.Abs()), minContent, path))
      decreases src.repr, 1
    {
      ghost var t, s := Abs(), src.Abs();
      for i := 0 to minContent
        invariant Valid() && fresh(repr - old(repr)) && |content| == |old(content)|
        invariant Abs() == ItemSteps(t, s, i, path)
      {
        UpdateOne(src, i, path);
      }
      ItemStepsMerge(t, s, minContent, path);
    }

    method AppendItems(src: YamlNode, ghost items: seq<Tree>, path: Path)
      requires Valid() && src.Valid() && repr !! src.repr && |content| == |items|
      requires var n := if |items| < |src.content| then |items| else |src.content|;
               Abs().content == MergingItems(items, src.Abs(), n, path)
      modifies this`content, this`repr
      ensures Valid() && fresh(repr - old(repr))
      ensures Abs() == WithKids(old(Abs()), MergingItems(items, old(src.Abs()), |src.content|, path))
    {
      ghost var s := src.Abs();
      if |src.content| <= |content| {
        return;
      }
      MergingRest(items, s, |items|, path);
      AppendRest(src, |content|);
    }

    method AppendRest(src: YamlNode, n: nat)
      requires Valid() && src.Valid() && repr !! src.repr && n <= |src.content|
      modifies this`content, this`repr
      ensures Valid() && fresh(repr - old(repr))
      ensures Abs() == WithKids(old(Abs()), old(Abs()).content + old(src.Abs()).content[n..])
    {
      ghost var t, s := Abs(), src.Abs();
      for i := n to |src.content|
        invariant Valid() && fresh(repr - old(repr)) && src.Abs() == s
        invariant Abs() == WithKids(t, t.content + s.content[n..i])
      {
        StretchSnoc(t.content, s.content, n, i);
        AppendNext(src, i, t, t.content + s.content[n..i]);
      }
      assert s.content[n..|s.content|] == s.content[n..];
    }

    method AppendNext(src: YamlNode, i: nat, ghost t: Tree, ghost now: seq<Tree>)
      requires Valid() && src.Valid() && repr !! src.repr && i < |src.content| && Abs() == WithKids(t, now)
      modifies this`content, this`repr
      ensures Valid() && fresh(repr - old(repr)) && src.Valid() && src.Abs() == old(src.Abs())
      ensures Abs() == WithKids(t, now + [old(src.Abs()).content[i]])
    {
      AppendCopy(src, i);
    }

    method AppendCopy(src: YamlNode, i: nat)
      requires Valid() && src.Valid() && repr !! src.repr && i < |src.content|
      modifies this`content, this`repr
      ensures Valid() && fresh(repr - old(repr)) && |content| == |old(content)| + 1
      ensures src.Valid() && src.Abs() == old(src.Abs())
      ensures Abs() == WithKids(old(Abs()), old(Abs()).content + [old(src.Abs()).content[i]])
    {
      src.KidOf(i);
      var kid := DeepCopy(src.content[i]);
      Append(kid);
    }
  }
}
