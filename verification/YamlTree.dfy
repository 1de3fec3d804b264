/** YAML trees as values, and the comment-preserving merge as a function on them. A note stands
    for everything about a node that the merge must not disturb: its style, anchors and comments. */
module YamlTree {
  import opened Text

  datatype Kind = Unset | Document | Sequence | Mapping | Scalar

  // Nil is a missing node. A mapping's content alternates keys and values.
  datatype Tree = Nil | Node(kind: Kind, tag: string, value: string, note: string, content: seq<Tree>)

  type Path = seq<string>

  // ----- Looking keys up -----

  predicate KeyAt(content: seq<Tree>, key: string, j: int) {
    0 <= j && 2 * j + 1 < |content| && content[2 * j].Node? && content[2 * j].value == key
  }

  function FindFrom(content: seq<Tree>, key: string, j: nat): (r: int)
    ensures r == -1 ==> forall i :: j <= i ==> !KeyAt(content, key, i)
    ensures r != -1 ==> j <= r && KeyAt(content, key, r) && forall i :: j <= i < r ==> !KeyAt(content, key, i)
    decreases |content| - 2 * j
  {
    if 2 * j + 1 >= |content| then -1
    else if KeyAt(content, key, j) then j
    else FindFrom(content, key, j + 1)
  }

  // findMapKeyIndex, counting pairs.
  function Find(content: seq<Tree>, key: string): (r: int)
    ensures r == -1 <==> forall i :: 0 <= i ==> !KeyAt(content, key, i)
    ensures r != -1 ==> KeyAt(content, key, r) && forall i :: 0 <= i < r ==> !KeyAt(content, key, i)
  {
    FindFrom(content, key, 0)
  }

  // ----- Zero values and known defaults -----

  predicate IsZero(t: Tree)
    decreases t
  {
    match t
    case Nil => true
    case Node(kind, tag, value, _, content) =>
      match kind
      case Scalar =>
        if tag == "!!bool" then value == "false"
        else if tag == "!!int" || tag == "!!float" then value == "0" || value == "0.0"
        else if tag == "!!str" then value == ""
        else tag == "!!null"
      case Sequence => forall i :: 0 <= i < |content| ==> IsZero(content[i])
      case Mapping => forall i :: 0 <= i < |content| && i % 2 == 1 ==> IsZero(content[i])
      case _ => false
  }

  function Dotted(path: Path): string {
    if path == [] then "" else if |path| == 1 then path[0] else path[0] + "." + Dotted(path[1..])
  }

  const DEFAULT_PPROF_ADDR := "127.0.0.1:8316"
  const DEFAULT_PANEL_REPOSITORY := "https://github.com" + "/router-for-me" + "/Cli-Proxy-API-Management-Center"

  predicate IsKnownDefault(path: Path, t: Tree) {
    || IsZero(t)
    || (t.Node? && t.kind == Scalar && path != [] &&
        var full := Dotted(path);
        || (t.tag == "!!str" && full == "pprof.addr" && t.value == DEFAULT_PPROF_ADDR)
        || (t.tag == "!!str" && full == "remote-management.panel-github-repository"
            && t.value == DEFAULT_PANEL_REPOSITORY)
        || (t.tag == "!!str" && full == "routing.strategy" && t.value == "round-robin")
        || (t.tag == "!!int" && full == "error-logs-max-files" && t.value == "10"))
  }

  predicate EmptyCollection(t: Tree) {
    t.Node? && (t.kind == Mapping || t.kind == Sequence) && t.content == []
  }

  // pruneKnownDefaultsInNewNode.
  function Prune(path: Path, t: Tree): (r: Tree)
    ensures r.Node? <==> t.Node?
    ensures t.Node? ==> r.kind == t.kind && r.tag == t.tag && r.value == t.value && r.note == t.note
    decreases t, 1
  {
    if t.Nil? then t
    else match t.kind
      case Mapping => t.(content := PrunePairs(path, t, 0))
      case Sequence => t.(content := PruneItems(path, t, |t.content|))
      case _ => t
  }

  function PruneItems(path: Path, t: Tree, n: nat): (r: seq<Tree>)
    requires t.Node? && n <= |t.content|
    ensures |r| == n
    decreases t, 0, n
  {
    if n == 0 then [] else PruneItems(path, t, n - 1) + [Prune(path, t.content[n - 1])]
  }

  // Whether a pair of a new mapping stays.
  predicate StaysPair(path: Path, key: Tree, value: Tree)
    decreases value, 2
  {
    && key.Node? && value.Node?
    && !IsKnownDefault(path + [key.value], value)
    && !EmptyCollection(Prune(path + [key.value], value))
  }

  // The pairs from the j-th on.
  function PrunePairs(path: Path, t: Tree, j: nat): seq<Tree>
    requires t.Node?
    decreases t, 0, |t.content| - 2 * j
  {
    if 2 * j + 1 >= |t.content| then []
    else
      var key, value := t.content[2 * j], t.content[2 * j + 1];
      (if StaysPair(path, key, value) then [key, Prune(path + [key.value], value)] else [])
      + PrunePairs(path, t, j + 1)
  }

  // One pair of a new mapping: dropped, or kept with its value pruned.
  function PrunedPart(path: Path, t: Tree, j: nat): seq<Tree>
    requires t.Node? && 2 * j + 1 < |t.content|
  {
    var key, value := t.content[2 * j], t.content[2 * j + 1];
    if StaysPair(path, key, value) then [key, Prune(path + [key.value], value)] else []
  }

  lemma PrunedPair(path: Path, t: Tree, j: nat)
    requires t.Node? && 2 * j + 1 < |t.content|
    ensures PrunePairs(path, t, j) == PrunedPart(path, t, j) + PrunePairs(path, t, j + 1)
  {
  }

  // Every key of every mapping is there, as the merge takes for granted of its source.
  ghost predicate KeysPresent(t: Tree)
    decreases t
  {
    t.Nil? ||
    ((forall i :: 0 <= i < |t.content| ==> KeysPresent(t.content[i])) &&
     (t.kind == Mapping ==> forall j :: 0 <= j && 2 * j + 1 < |t.content| ==> t.content[2 * j].Node?))
  }

  // ----- Matching sequence elements -----

  predicate StructEq(a: Tree, b: Tree)
    decreases a
  {
    if a.Nil? || b.Nil? then a == b
    else if a.kind != b.kind then false
    else match a.kind
      case Mapping =>
        && |a.content| == |b.content|
        && forall i :: 0 <= i < |a.content| - |a.content| % 2 ==> StructEq(a.content[i], b.content[i])
      case Sequence =>
        && |a.content| == |b.content|
        && forall i :: 0 <= i < |a.content| ==> StructEq(a.content[i], b.content[i])
      case _ => Trim(a.value) == Trim(b.value)
  }

  // mappingScalarValue from the j-th pair on: the first scalar under the key decides.
  function ScalarUnder(content: seq<Tree>, key: string, j: nat): string
    decreases |content| - 2 * j
  {
    if 2 * j + 1 >= |content| then ""
    else
      var k, v := content[2 * j], content[2 * j + 1];
      if k.Node? && v.Node? && v.kind == Scalar && ToLower(Trim(k.value)) == ToLower(key) then Trim(v.value)
      else ScalarUnder(content, key, j + 1)
  }

  function FirstScalar(content: seq<Tree>, j: nat): string
    decreases |content| - 2 * j
  {
    if 2 * j + 1 >= |content| then ""
    else
      var k, v := content[2 * j], content[2 * j + 1];
      if k.Node? && v.Node? && v.kind == Scalar && Trim(v.value) != "" then
        ToLower(Trim(k.value)) + "=" + Trim(v.value)
      else FirstScalar(content, j + 1)
  }

  const IDENTITY_KEYS := ["id", "name", "alias", "api-key", "api_key", "apikey", "key", "provider", "model"]

  function IdentityFrom(content: seq<Tree>, i: nat): string
    decreases |IDENTITY_KEYS| - i, content
  {
    if i >= |IDENTITY_KEYS| then FirstScalar(content, 0)
    else if ScalarUnder(content, IDENTITY_KEYS[i], 0) != "" then
      IDENTITY_KEYS[i] + "=" + ScalarUnder(content, IDENTITY_KEYS[i], 0)
    else IdentityFrom(content, i + 1)
  }

  function Identity(t: Tree): string {
    if t.Nil? || t.kind != Mapping then "" else IdentityFrom(t.content, 0)
  }

  // The tests of matchSequenceElement, tried in turn over the unused originals.
  predicate SameName(original: Tree, target: Tree) {
    && original.Node? && target.Node? && original.kind == target.kind
    && ((target.kind == Mapping && Identity(target) != "" && Identity(original) == Identity(target))
        || (target.kind == Scalar && Trim(target.value) != "" && Trim(original.value) == Trim(target.value)))
  }

  predicate SameShape(original: Tree, target: Tree) {
    original.Node? && StructEq(original, target)
  }

  function FirstUnused(originals: seq<Tree>, used: set<int>, accept: Tree -> bool, i: nat): (r: int)
    requires i <= |originals|
    ensures r == -1 || (i <= r < |originals| && r !in used && accept(originals[r]))
    ensures r == -1 ==> forall k :: i <= k < |originals| && k !in used ==> !accept(originals[k])
    ensures r != -1 ==> forall k :: i <= k < r && k !in used ==> !accept(originals[k])
    decreases |originals| - i
  {
    if i == |originals| then -1
    else if i !in used && accept(originals[i]) then i
    else FirstUnused(originals, used, accept, i + 1)
  }

  function MatchElement(originals: seq<Tree>, used: set<int>, target: Tree): (r: int)
    ensures r == -1 || (0 <= r < |originals| && r !in used && originals[r].Node?)
  {
    if target.Nil? then -1
    else
      var named := FirstUnused(originals, used, o => SameName(o, target), 0);
      if named != -1 then named
      else FirstUnused(originals, used, o => SameShape(o, target), 0)
  }

  function InUse(chosen: seq<int>): set<int> {
    set i | i in chosen && i != -1
  }

  // The originals chosen for the first n targets, -1 where there is none.
  function Chosen(originals: seq<Tree>, targets: seq<Tree>, n: nat): (r: seq<int>)
    requires n <= |targets|
    ensures |r| == n
  {
    if n == 0 then [] else
      var before := Chosen(originals, targets, n - 1);
      before + [MatchElement(originals, InUse(before), targets[n - 1])]
  }

  // reorderSequenceForMerge.
  function Reordered(originals: seq<Tree>, targets: seq<Tree>): (r: seq<Tree>)
  {
    if originals == [] || targets == [] then originals
    else
      var chosen := Chosen(originals, targets, |targets|);
      seq(|targets|, i requires 0 <= i < |targets| =>
        if 0 <= chosen[i] < |originals| then originals[chosen[i]] else Nil)
  }

  // ----- The merge -----

  // copyNodeShallow: everything but the note.
  function CopyOnto(d: Tree, s: Tree): Tree {
    if d.Nil? || s.Nil? then d else d.(kind := s.kind, tag := s.tag, value := s.value, content := s.content)
  }

  function KeysKept(s: Tree): set<string>
    requires s.Node?
  {
    set j | 0 <= j < |s.content| / 2 && s.content[2 * j].Node? && Trim(s.content[2 * j].value) != "" ::
      Trim(s.content[2 * j].value)
  }

  // One pair of a mapping: kept, or cut.
  function KeptPart(content: seq<Tree>, keep: set<string>, j: nat): seq<Tree>
    requires 2 * j + 1 < |content|
  {
    if content[2 * j].Nil? || Trim(content[2 * j].value) in keep then [content[2 * j], content[2 * j + 1]] else []
  }

  // The pairs from the j-th on that pruneMissingMapKeys keeps; a lone trailing node stays.
  function KeepPairs(content: seq<Tree>, keep: set<string>, j: nat): seq<Tree>
    requires 2 * j <= |content|
    decreases |content| - 2 * j
  {
    if 2 * j + 1 >= |content| then content[2 * j..]
    else KeptPart(content, keep, j) + KeepPairs(content, keep, j + 1)
  }

  lemma KeptOrCut(content: seq<Tree>, keep: set<string>, j: nat)
    requires 2 * j + 1 < |content|
    ensures KeepPairs(content, keep, j) == KeptPart(content, keep, j) + KeepPairs(content, keep, j + 1)
  {
  }

  function PruneMissing(d: Tree, s: Tree): Tree {
    if d.Node? && s.Node? && d.kind == Mapping && s.kind == Mapping
    then d.(content := KeepPairs(d.content, KeysKept(s), 0)) else d
  }

  // mergeNodePreserve.
  function MergeNode(d: Tree, s: Tree, path: Path): Tree
    decreases s, 2
  {
    if d.Nil? || s.Nil? then d
    else match s.kind
      case Mapping => MergeMapping(if d.kind != Mapping then CopyOnto(d, s) else d, s, path)
      case Sequence =>
        if d.kind == Scalar && d.tag == "!!null" && s.content == [] then d
        else
          var d1 := if d.kind != Sequence then d.(kind := Sequence, tag := "!!seq", content := []) else d;
          d1.(content := MergedItems(Reordered(d1.content, s.content), s, |s.content|, path))
      case Scalar => d.(kind := s.kind, tag := s.tag, value := s.value)
      case Unset => d
      case Document => CopyOnto(d, s)
  }

  // mergeMappingPreserve.
  function MergeMapping(d: Tree, s: Tree, path: Path): Tree
    decreases s, 1
  {
    if d.Nil? || s.Nil? then d
    else if d.kind != Mapping || s.kind != Mapping then CopyOnto(d, s)
    else d.(content := MergedPairs(d.content, s, |s.content| / 2, path))
  }

  function KeyOf(s: Tree, j: nat): string
    requires s.Node? && 2 * j + 1 < |s.content|
  {
    if s.content[2 * j].Nil? then "" else s.content[2 * j].value
  }

  // A mapping's content after the first n pairs of s went in.
  function MergedPairs(content: seq<Tree>, s: Tree, n: nat, path: Path): seq<Tree>
    requires s.Node? && 2 * n <= |s.content|
    decreases s, 0, n
  {
    if n == 0 then content else MergePair(MergedPairs(content, s, n - 1, path), s, n - 1, path)
  }

  function MergePair(content: seq<Tree>, s: Tree, j: nat, path: Path): seq<Tree>
    requires s.Node? && 2 * j + 1 < |s.content|
    decreases s, 0, j
  {
    var key, value := KeyOf(s, j), s.content[2 * j + 1];
    var at, child := Find(content, key), path + [key];
    if at != -1 then content[2 * at + 1 := MergeNode(content[2 * at + 1], value, child)]
    else
      var candidate := Prune(child, value);
      if IsKnownDefault(child, candidate) then content else content + [s.content[2 * j], candidate]
  }

  function MergeItem(d: Tree, s: Tree, path: Path): Tree
    decreases s, 3
  {
    if d.Nil? then s else PruneMissing(MergeNode(d, s, path), s)
  }

  // The first n elements of the merged sequence.
  function MergedItems(content: seq<Tree>, s: Tree, n: nat, path: Path): (r: seq<Tree>)
    requires s.Node? && n <= |s.content|
    ensures |r| == n
    decreases s, 0, n
  {
    if n == 0 then [] else
      MergedItems(content, s, n - 1, path)
      + [MergeItem(if n - 1 < |content| then content[n - 1] else Nil, s.content[n - 1], path)]
  }
}
