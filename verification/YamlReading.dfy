/** What the loader reads from a file: the value of every setting, whether its key is there or not. A
    save may leave a key out; this says exactly when the loader still reads what was saved. */
module YamlReading {
  import opened Text
  import opened YamlTree
  import opened YamlProofs

  // ----- Values -----

  datatype Value = Nothing | Null | Truth(on: bool) | Number(n: real) | Words(text: string)

  predicate Decimal(s: string) {
    s != [] && forall i :: 0 <= i < |s| ==> '0' <= s[i] <= '9'
  }

  function Whole(s: string): nat
    requires forall i :: 0 <= i < |s| ==> '0' <= s[i] <= '9'
  {
    if s == [] then 0 else 10 * Whole(s[..|s| - 1]) + (s[|s| - 1] as int - 48)
  }

  function Tenths(n: nat): real {
    if n == 0 then 1.0 else 10.0 * Tenths(n - 1)
  }

  lemma {:induction false} TenthsPositive(n: nat)
    ensures Tenths(n) >= 1.0
  {
    if n > 0 {
      TenthsPositive(n - 1);
    }
  }

  // Where the point stands, or the end.
  function Point(s: string): (i: nat)
    ensures i <= |s|
  {
    if s == [] || s[0] == '.' then 0 else 1 + Point(s[1..])
  }

  // A number without a sign, as it is printed; other spellings are words.
  function Unsigned(s: string): Option<real> {
    var p := Point(s);
    if p == |s| then (if Decimal(s) then Some(Whole(s) as real) else None)
    else if Decimal(s[..p]) && Decimal(s[p + 1..]) then
      TenthsPositive(|s| - p - 1);
      Some(Whole(s[..p]) as real + Whole(s[p + 1..]) as real / Tenths(|s| - p - 1))
    else None
  }

  function Signed(s: string): Value {
    var negative := s != [] && s[0] == '-';
    match Unsigned(if negative then s[1..] else s)
    case Some(x) => Number(if negative then -x else x)
    case None => Words(s)
  }

  predicate NumberTag(tag: string) {
    tag == "!!int" || tag == "!!float"
  }

  // What a scalar says by itself.
  function Said(tag: string, value: string): Value {
    if tag == "!!bool" then Truth(value in ["true", "True", "TRUE"])
    else if NumberTag(tag) then Signed(value)
    else if tag == "!!null" then Null
    else Words(value)
  }

  // ----- Settings that are not there -----

  // The parameters of a payload rule are free: one that is not there is not set.
  predicate Free(path: Path) {
    |path| >= 4 && path[0] == "payload" && path[2] == "params"
  }

  const PPROF := "127.0.0.1:8316"
  const PANEL := "https://github.com" + "/router-for-me" + "/Cli-Proxy-API-Management-Center"
  const ON_BY_DEFAULT := ["usage-statistics-enabled", "usage.enabled", "antigravity-signature-cache-enabled"]

  // The value the loader starts from, of the type the tag stands for: false, 0 and "" but for these.
  function Absent(path: Path, tag: string): Value {
    var full := Dotted(path);
    if Free(path) then Nothing
    else if tag == "!!bool" then Truth(full in ON_BY_DEFAULT)
    else if NumberTag(tag) then
      Number(if full == "error-logs-max-files" then 10.0
             else if full == "redis-usage-queue-retention-seconds" then 60.0 else 0.0)
    else if tag == "!!str" then
      Words(if full == "pprof.addr" then PPROF
            else if full == "remote-management.panel-github-repository"
            then PANEL else "")
    else Nothing
  }

  function OrDefault(text: string, default: string): string {
    if Trim(text) == "" then default else Trim(text)
  }

  // What the loader, and what it hands the value to, makes of it.
  function Settled(path: Path, v: Value): Value {
    var full := Dotted(path);
    match v
    case Words(text) =>
      if full == "pprof.addr" then Words(OrDefault(text, PPROF))
      else if full == "remote-management.panel-github-repository"
      then Words(OrDefault(text, PANEL))
      else if full == "routing.strategy"
      then Words(if ToLower(Trim(text)) in ["fill-first", "fillfirst", "ff"] then "fill-first" else "round-robin")
      else v
    case Number(n) =>
      if full == "error-logs-max-files" && n < 0.0 then Number(10.0)
      else if full == "redis-usage-queue-retention-seconds" then
        Number(if n <= 0.0 then 60.0 else if n > 3600.0 then 3600.0 else n)
      else if (full == "logs-max-total-size-mb" || full == "max-retry-credentials") && n < 0.0 then Number(0.0)
      else v
    case _ => v
  }

  // A key that is there: null leaves a setting as it is without the key.
  function Present(path: Path, t: Tree): Value
    requires t.Node?
  {
    if t.tag == "!!null" && !Free(path) then Settled(path, Absent(path, t.tag))
    else Settled(path, Said(t.tag, t.value))
  }

  function Missing(path: Path, tag: string): Value {
    Settled(path, Absent(path, tag))
  }

  // ----- Leaving a default out -----

  // The settings that are on, or not zero, when nobody says otherwise, and the free ones.
  predicate Overruled(path: Path, t: Tree)
    requires t.Node?
  {
    || Free(path)
    || (t.tag == "!!bool" && Dotted(path) in ON_BY_DEFAULT)
    || (NumberTag(t.tag) && Dotted(path) == "error-logs-max-files" && t.value != "10")
  }

  lemma ZeroNumbers()
    ensures Signed("0") == Number(0.0) && Signed("0.0") == Number(0.0)
  {
    OneDigit("0");
    assert Point("0.0") == 1 by { assert "0.0"[1..][0] == '.'; }
    assert "0.0"[..1] == "0" && "0.0"[2..] == "0";
    assert Unsigned("0.0") == Some(0.0);
  }

  lemma OneDigit(s: string)
    requires |s| == 1 && '0' <= s[0] <= '9'
    ensures Decimal(s) && Whole(s) == s[0] as int - 48 && Point(s) == 1 && Unsigned(s) == Some(Whole(s) as real)
  {
    assert s[..0] == [] && s[1..] == [];
  }

  lemma TenIsTen()
    ensures Signed("10") == Number(10.0)
  {
    OneDigit("1");
    assert "10"[..1] == "1" && "10"[1..] == "0";
    OneDigit("0");
    assert Whole("10") == 10;
    assert Point("10") == 2;
  }

  lemma AddressStays(text: string)
    requires text != "" && !IsSpace(text[0]) && !IsSpace(text[|text| - 1])
    ensures Trim(text) == text && OrDefault(text, text) == text && OrDefault("", text) == text
  {
  }

  // No free parameter has the path of a setting with a default of its own.
  lemma FreeIsOther(path: Path)
    requires Free(path)
    ensures |Dotted(path)| > 7 && Dotted(path)[0] == 'p' && Dotted(path)[1] == 'a'
  {
    assert Dotted(path) == "payload" + ("." + Dotted(path[1..]));
  }

  lemma FreeSettles(path: Path, v: Value)
    requires Free(path)
    ensures Settled(path, v) == v
  {
    FreeIsOther(path);
    var full := Dotted(path);
    assert "pprof.addr"[1] == 'p' && "remote-management.panel-github-repository"[0] == 'r'
           && "routing.strategy"[0] == 'r' && "error-logs-max-files"[0] == 'e'
           && "redis-usage-queue-retention-seconds"[0] == 'r' && "logs-max-total-size-mb"[0] == 'l'
           && "max-retry-credentials"[0] == 'm';
  }

  ghost predicate ReadsAsAbsent(path: Path, t: Tree)
    requires t.Node?
  {
    Present(path, t) == Missing(path, t.tag)
  }

  lemma FreeReads(path: Path, t: Tree)
    requires t.Node? && Free(path)
    ensures !ReadsAsAbsent(path, t)
  {
    FreeSettles(path, Said(t.tag, t.value));
    FreeSettles(path, Nothing);
  }

  lemma BoolReads(path: Path, t: Tree)
    requires t.Node? && t.tag == "!!bool" && t.value == "false" && !Free(path)
    ensures ReadsAsAbsent(path, t) <==> Dotted(path) !in ON_BY_DEFAULT
  {
  }

  lemma ZeroReads(path: Path, t: Tree)
    requires t.Node? && NumberTag(t.tag) && (t.value == "0" || t.value == "0.0") && !Free(path)
    ensures ReadsAsAbsent(path, t) <==> Dotted(path) != "error-logs-max-files"
  {
    ZeroNumbers();
    ZeroSettles(path, t.tag);
  }

  lemma ZeroSettles(path: Path, tag: string)
    requires NumberTag(tag) && !Free(path)
    ensures Settled(path, Number(0.0)) == Missing(path, tag) <==> Dotted(path) != "error-logs-max-files"
  {
  }

  lemma TenReads(path: Path, t: Tree)
    requires t.Node? && NumberTag(t.tag) && t.value == "10" && Dotted(path) == "error-logs-max-files" && !Free(path)
    ensures ReadsAsAbsent(path, t)
  {
    TenIsTen();
  }

  lemma WordsRead(path: Path, t: Tree)
    requires t.Node? && t.tag == "!!str" && !Free(path)
    requires t.value == "" || (Dotted(path) == "pprof.addr" && t.value == DEFAULT_PPROF_ADDR)
             || (Dotted(path) == "remote-management.panel-github-repository" && t.value == DEFAULT_PANEL_REPOSITORY)
             || (Dotted(path) == "routing.strategy" && t.value == "round-robin")
    ensures ReadsAsAbsent(path, t)
  {
    DefaultsStay();
    StrategyReads();
  }

  lemma DefaultsStay()
    ensures OrDefault(DEFAULT_PPROF_ADDR, PPROF) == OrDefault("", PPROF) == PPROF == DEFAULT_PPROF_ADDR
    ensures OrDefault(DEFAULT_PANEL_REPOSITORY, PANEL) == OrDefault("", PANEL) == PANEL == DEFAULT_PANEL_REPOSITORY
  {
    assert PPROF[0] == '1' && PPROF[|PPROF| - 1] == '6';
    AddressStays(PPROF);
    assert PANEL[0] == 'h' && PANEL[|PANEL| - 1] == 'r';
    AddressStays(PANEL);
  }

  lemma StrategyReads()
    ensures ToLower(Trim("round-robin")) !in ["fill-first", "fillfirst", "ff"]
    ensures ToLower(Trim("")) !in ["fill-first", "fillfirst", "ff"]
  {
    AddressStays("round-robin");
    StartsAs("round-robin");
    NoFiller(ToLower("round-robin"));
    NothingIsNoFiller(ToLower(""));
  }

  lemma StartsAs(text: string)
    requires text != "" && 'a' <= text[0] <= 'z'
    ensures ToLower(text)[0] == text[0]
  {
  }

  lemma NothingIsNoFiller(text: string)
    requires text == ""
    ensures text !in ["fill-first", "fillfirst", "ff"]
  {
  }

  lemma NoFiller(text: string)
    requires text != "" && text[0] == 'r'
    ensures text !in ["fill-first", "fillfirst", "ff"]
  {
  }

  lemma NullReads(path: Path, t: Tree)
    requires t.Node? && t.tag == "!!null" && !Free(path)
    ensures ReadsAsAbsent(path, t)
  {
  }

  // A value the merge leaves out as a known default is what the loader reads without the key, exactly if
  // the setting is none of those that are on, or not zero, by default, and no free parameter.
  lemma DefaultReadsAbsent(path: Path, t: Tree)
    requires t.Node? && t.kind == Scalar && IsKnownDefault(path, t)
    ensures ReadsAsAbsent(path, t) <==> !Overruled(path, t)
  {
    if Free(path) {
      FreeReads(path, t);
    } else if t.tag == "!!bool" {
      BoolReads(path, t);
    } else if NumberTag(t.tag) {
      if t.value == "0" || t.value == "0.0" {
        ZeroReads(path, t);
      } else {
        TenReads(path, t);
      }
    } else if t.tag == "!!null" {
      NullReads(path, t);
    } else {
      WordsRead(path, t);
    }
  }

  // ----- Places in a tree -----

  datatype Step = Field(key: string) | Item(i: nat)

  // The node a way through keys and elements leads to; Nil where there is none.
  ghost function At(t: Tree, steps: seq<Step>): Tree
    decreases |steps|
  {
    if steps == [] then t
    else if t.Nil? then Nil
    else
      match steps[0]
      case Field(key) =>
        if t.kind != Mapping then Nil
        else if ValueOf(t.content, key).None? then Nil
        else At(ValueOf(t.content, key).value, steps[1..])
      case Item(i) =>
        if t.kind != Sequence || i >= |t.content| then Nil else At(t.content[i], steps[1..])
  }

  // The keys on the way.
  function Keys(steps: seq<Step>): Path {
    if steps == [] then []
    else (match steps[0] case Field(key) => [key] case Item(_) => []) + Keys(steps[1..])
  }

  ghost predicate Leaf(t: Tree) {
    t.Node? && t.kind == Scalar
  }

  ghost predicate SaysSame(a: Tree, b: Tree) {
    Leaf(a) && Leaf(b) && a.tag == b.tag && a.value == b.value
  }

  lemma KeysStep(path: Path, steps: seq<Step>)
    requires steps != []
    ensures path + Keys(steps) ==
            (match steps[0] case Field(key) => path + [key] case Item(_) => path) + Keys(steps[1..])
  {
  }

  lemma ValueIsPair(t: Tree, key: string) returns (j: nat)
    requires Decoded(t) && t.kind == Mapping && ValueOf(t.content, key).Some?
    ensures 2 * j + 1 < |t.content| && KeyOf(t, j) == key && ValueOf(t.content, key).value == t.content[2 * j + 1]
  {
    ValueFinds(t.content, key);
    j := Find(t.content, key);
  }

  // ----- What becomes of every scalar of the source -----

  lemma {:induction false} ZeroLeaves(t: Tree, steps: seq<Step>)
    requires Decoded(t) && IsZero(t) && Leaf(At(t, steps))
    ensures IsZero(At(t, steps))
    decreases |steps|
  {
    if steps != [] {
      match steps[0]
      case Field(key) =>
        var j := ValueIsPair(t, key);
        ZeroLeaves(t.content[2 * j + 1], steps[1..]);
      case Item(i) => ZeroLeaves(t.content[i], steps[1..]);
    }
  }

  lemma ZeroChild(path: Path, t: Tree, j: nat)
    requires Decoded(t) && CleanKeys(t) && t.kind == Mapping && 2 * j + 1 < |t.content| && IsZero(Prune(path, t))
    requires StaysPair(path, t.content[2 * j], t.content[2 * j + 1])
    ensures IsZero(Prune(path + [KeyOf(t, j)], t.content[2 * j + 1]))
  {
    PairStays(path, t, 0, j);
    var at :| KeyAt(PrunePairs(path, t, 0), KeyOf(t, j), at);
    PrunedComesFrom(path, t, j, at);
    assert Prune(path, t).content[2 * at + 1] == Prune(path + [KeyOf(t, j)], t.content[2 * j + 1]);
  }

  // What is left out whole holds nothing but known defaults.
  lemma {:induction false} LeftOutLeaves(path: Path, v: Tree, steps: seq<Step>)
    requires Decoded(v) && CleanKeys(v) && Leaf(At(v, steps)) && IsKnownDefault(path, Prune(path, v))
    ensures IsKnownDefault(path + Keys(steps), At(v, steps))
    decreases |steps|, 0
  {
    if steps == [] {
      assert path + [] == path;
    } else {
      KeysStep(path, steps);
      match steps[0]
      case Field(key) =>
        var j := ValueIsPair(v, key);
        LeftOutChild(path, v, j, steps[1..]);
      case Item(i) =>
        PrunedItem(path, v, |v.content|, i);
        assert IsZero(Prune(path, v).content[i]);
        LeftOutLeaves(path, v.content[i], steps[1..]);
    }
  }

  lemma {:induction false} LeftOutChild(path: Path, v: Tree, j: nat, rest: seq<Step>)
    requires Decoded(v) && CleanKeys(v) && v.kind == Mapping && 2 * j + 1 < |v.content| && IsZero(Prune(path, v))
    requires Leaf(At(v.content[2 * j + 1], rest))
    ensures IsKnownDefault(path + [KeyOf(v, j)] + Keys(rest), At(v.content[2 * j + 1], rest))
    decreases |rest|, 1
  {
    var child, c := path + [KeyOf(v, j)], v.content[2 * j + 1];
    if StaysPair(path, v.content[2 * j], c) {
      ZeroChild(path, v, j);
    } else if IsKnownDefault(child, c) {
      PruneKeepsDefault(child, c);
    } else {
      EmptyIsZero(Prune(child, c));
    }
    LeftOutLeaves(child, c, rest);
  }

  // Where a file says what the source says, every scalar of the source, in lists too, is in the file with
  // the same tag and value, or it is a known default and its place is not there.
  lemma {:induction false} LeafKept(d: Tree, s: Tree, path: Path, steps: seq<Step>)
    requires Decoded(s) && CleanKeys(s) && Agrees(d, s, path) && Leaf(At(s, steps))
    ensures SaysSame(At(d, steps), At(s, steps))
            || (At(d, steps).Nil? && IsKnownDefault(path + Keys(steps), At(s, steps)))
    decreases |steps|
  {
    if steps != [] {
      KeysStep(path, steps);
      match steps[0]
      case Field(key) =>
        var j := ValueIsPair(s, key);
        assert ValueAgrees(d.content, KeyOf(s, j), s.content[2 * j + 1], path);
        if ValueOf(d.content, key).Some? {
          LeafKept(ValueOf(d.content, key).value, s.content[2 * j + 1], path + [key], steps[1..]);
        } else {
          LeftOutLeaves(path + [key], s.content[2 * j + 1], steps[1..]);
        }
      case Item(i) =>
        LeafKept(d.content[i], s.content[i], path, steps[1..]);
    }
  }

  // So after a save: nothing is lost but known defaults.
  lemma SavedLeafKept(d: Tree, s: Tree, steps: seq<Step>)
    requires Decoded(d) && Decoded(s) && CleanKeys(s) && Leaf(At(s, steps))
    ensures var m := MergeNode(d, s, []);
            SaysSame(At(m, steps), At(s, steps))
            || (At(m, steps).Nil? && IsKnownDefault(Keys(steps), At(s, steps)))
  {
    MergeAgrees(d, s, []);
    LeafKept(MergeNode(d, s, []), s, [], steps);
    assert [] + Keys(steps) == Keys(steps);
  }

  // ----- Settings -----

  function Steps(keys: Path): (steps: seq<Step>)
    ensures |steps| == |keys|
  {
    if keys == [] then [] else [Field(keys[0])] + Steps(keys[1..])
  }

  ghost function Under(t: Tree, keys: Path): Tree {
    At(t, Steps(keys))
  }

  lemma {:induction false} KeysOfSteps(keys: Path)
    ensures Keys(Steps(keys)) == keys
  {
    if keys != [] {
      KeysOfSteps(keys[1..]);
      assert Steps(keys)[1..] == Steps(keys[1..]);
      assert [keys[0]] + keys[1..] == keys;
    }
  }

  lemma UnderStep(t: Tree, keys: Path)
    requires keys != [] && t.Node? && t.kind == Mapping
    ensures Under(t, keys) ==
            if ValueOf(t.content, keys[0]).None? then Nil else Under(ValueOf(t.content, keys[0]).value, keys[1..])
  {
    assert Steps(keys)[1..] == Steps(keys[1..]);
  }

  lemma UnderOther(t: Tree, keys: Path)
    requires keys != [] && !(t.Node? && t.kind == Mapping)
    ensures Under(t, keys) == Nil
  {
  }

  // The file has mappings as far as they go on the way, and then lacks a key.
  ghost predicate Lacks(d: Tree, keys: Path)
    decreases |keys|
  {
    && keys != [] && d.Node? && d.kind == Mapping
    && (ValueOf(d.content, keys[0]).None? || Lacks(ValueOf(d.content, keys[0]).value, keys[1..]))
  }

  // What a setting reads as: by its scalar, or without it.
  ghost function Reads(t: Tree, keys: Path, tag: string): Value {
    if Under(t, keys).Node? then Present(keys, Under(t, keys)) else Missing(keys, tag)
  }

  lemma {:induction false} HasIsNotLacking(s: Tree, keys: Path)
    requires Under(s, keys).Node?
    ensures !Lacks(s, keys)
    decreases |keys|
  {
    if keys != [] && s.Node? && s.kind == Mapping {
      UnderStep(s, keys);
      if ValueOf(s.content, keys[0]).Some? {
        HasIsNotLacking(ValueOf(s.content, keys[0]).value, keys[1..]);
      }
    }
  }

  // What the merge leaves under a key of the source.
  lemma MergedValue(content: seq<Tree>, s: Tree, j: nat, path: Path)
    requires Decoded(s) && CleanKeys(s) && s.kind == Mapping && 2 * j + 1 < |s.content| && |content| % 2 == 0
    ensures var key, value, child := KeyOf(s, j), s.content[2 * j + 1], path + [KeyOf(s, j)];
            ValueOf(MergedPairs(content, s, |s.content| / 2, path), key) ==
            match ValueOf(content, key)
            case Some(v) => Some(MergeNode(v, value, child))
            case None => if IsKnownDefault(child, Prune(child, value)) then None else Some(Prune(child, value))
  {
    forall i | 0 <= i < j ensures KeyOf(s, i) != KeyOf(s, j) {
      KeysDistinct(s, i, j);
    }
    PairsKeepOthers(content, s, j, path, KeyOf(s, j));
    PairLands(MergedPairs(content, s, j, path), s, j, path);
    ValueStays(content, s, |s.content| / 2, j, path);
  }

  // A known default does not get through pruning.
  lemma {:induction false} PrunedLacksDefault(path: Path, v: Tree, keys: Path)
    requires Decoded(v) && CleanKeys(v) && keys != [] && Leaf(Under(v, keys))
    requires IsKnownDefault(path + keys, Under(v, keys))
    ensures Under(Prune(path, v), keys).Nil?
    decreases |keys|
  {
    if v.kind != Mapping {
      UnderOther(v, keys);
    }
    UnderStep(v, keys);
    UnderStep(Prune(path, v), keys);
    var j := ValueIsPair(v, keys[0]);
    PrunedLookup(path, v, j);
    var child, c := path + [keys[0]], v.content[2 * j + 1];
    assert path + keys == child + keys[1..];
    if keys[1..] == [] {
      assert child + [] == child;
    } else {
      PrunedLacksDefault(child, c, keys[1..]);
    }
  }

  lemma MergedMapping(d: Tree, s: Tree, path: Path)
    requires d.Node? && s.Node? && s.kind == Mapping
    ensures var m := MergeNode(d, s, path);
            && m.Node? && m.kind == Mapping
            && m.content == MergedPairs(if d.kind != Mapping then s.content else d.content, s, |s.content| / 2, path)
  {
  }

  // The first key on the way, where the file or, in place of something else, the source has a value for it.
  lemma UnderFound(d: Tree, s: Tree, path: Path, keys: Path, j: nat, v: Tree)
    requires Decoded(d) && Decoded(s) && CleanKeys(s) && s.kind == Mapping && 2 * j + 1 < |s.content|
    requires keys != [] && KeyOf(s, j) == keys[0]
    requires ValueOf(if d.kind != Mapping then s.content else d.content, keys[0]) == Some(v)
    ensures Under(MergeNode(d, s, path), keys)
            == Under(MergeNode(v, s.content[2 * j + 1], path + [keys[0]]), keys[1..])
  {
    MergedMapping(d, s, path);
    MergedValue(if d.kind != Mapping then s.content else d.content, s, j, path);
    UnderStep(MergeNode(d, s, path), keys);
  }

  lemma UnderNew(d: Tree, s: Tree, path: Path, keys: Path, j: nat)
    requires Decoded(d) && Decoded(s) && CleanKeys(s) && s.kind == Mapping && 2 * j + 1 < |s.content|
    requires keys != [] && KeyOf(s, j) == keys[0] && d.kind == Mapping && ValueOf(d.content, keys[0]).None?
    ensures var candidate, child := Prune(path + [keys[0]], s.content[2 * j + 1]), path + [keys[0]];
            Under(MergeNode(d, s, path), keys) ==
            if IsKnownDefault(child, candidate) then Nil else Under(candidate, keys[1..])
  {
    MergedMapping(d, s, path);
    MergedValue(d.content, s, j, path);
    UnderStep(MergeNode(d, s, path), keys);
  }

  lemma NewDefaultLeftOut(path: Path, v: Tree, rest: Path)
    requires Decoded(v) && CleanKeys(v) && Leaf(Under(v, rest)) && IsKnownDefault(path + rest, Under(v, rest))
    ensures IsKnownDefault(path, Prune(path, v)) || Under(Prune(path, v), rest).Nil?
  {
    if rest == [] {
      assert path + [] == path;
    } else {
      PrunedLacksDefault(path, v, rest);
    }
  }

  // A setting the file has, or has something else in place of, is there after the merge; one it lacks is
  // there exactly if it is no known default.
  lemma {:induction false} ThereUnlessLacking(d: Tree, s: Tree, path: Path, keys: Path)
    requires Decoded(d) && Decoded(s) && CleanKeys(s) && Leaf(Under(s, keys))
    ensures !Lacks(d, keys) ==> Under(MergeNode(d, s, path), keys).Node?
    ensures Lacks(d, keys) && IsKnownDefault(path + keys, Under(s, keys)) ==>
              Under(MergeNode(d, s, path), keys).Nil?
    decreases |keys|
  {
    if keys == [] {
      NoteKept(d, s, path);
    } else {
      if s.kind != Mapping {
        UnderOther(s, keys);
      }
      UnderStep(s, keys);
      var j := ValueIsPair(s, keys[0]);
      var base := if d.kind != Mapping then s.content else d.content;
      assert path + keys == path + [keys[0]] + keys[1..];
      if ValueOf(base, keys[0]).Some? {
        StillThere(d, s, path, keys, j, ValueOf(base, keys[0]).value);
      } else {
        UnderNew(d, s, path, keys, j);
        if IsKnownDefault(path + keys, Under(s, keys)) {
          NewDefaultLeftOut(path + [keys[0]], s.content[2 * j + 1], keys[1..]);
        }
      }
    }
  }

  lemma {:induction false} StillThere(d: Tree, s: Tree, path: Path, keys: Path, j: nat, v: Tree)
    requires Decoded(d) && Decoded(s) && CleanKeys(s) && s.kind == Mapping && 2 * j + 1 < |s.content|
    requires keys != [] && KeyOf(s, j) == keys[0] && Leaf(Under(s, keys))
    requires ValueOf(s.content, keys[0]) == Some(s.content[2 * j + 1])
    requires ValueOf(if d.kind != Mapping then s.content else d.content, keys[0]) == Some(v)
    ensures !Lacks(d, keys) ==> Under(MergeNode(d, s, path), keys).Node?
    ensures Lacks(d, keys) && IsKnownDefault(path + keys, Under(s, keys)) ==>
              Under(MergeNode(d, s, path), keys).Nil?
    decreases |keys|, 0
  {
    UnderFound(d, s, path, keys, j, v);
    UnderStep(s, keys);
    assert path + keys == path + [keys[0]] + keys[1..];
    LacksLater(d, s, keys, v);
    FoundIsDecoded(d, s, keys[0], v);
    ThereUnlessLacking(v, s.content[2 * j + 1], path + [keys[0]], keys[1..]);
  }

  lemma FoundIsDecoded(d: Tree, s: Tree, key: string, v: Tree)
    requires Decoded(d) && Decoded(s) && s.kind == Mapping
    requires ValueOf(if d.kind != Mapping then s.content else d.content, key) == Some(v)
    ensures Decoded(v)
  {
    ValueFinds(if d.kind != Mapping then s.content else d.content, key);
  }

  lemma LacksLater(d: Tree, s: Tree, keys: Path, v: Tree)
    requires d.Node? && s.Node? && s.kind == Mapping && keys != [] && Leaf(Under(s, keys))
    requires ValueOf(if d.kind != Mapping then s.content else d.content, keys[0]) == Some(v)
    ensures Lacks(d, keys) <==> Lacks(v, keys[1..])
  {
    UnderStep(s, keys);
    if d.kind != Mapping {
      HasIsNotLacking(v, keys[1..]);
    }
  }

  // ----- What the loader reads after a save -----

  // Off for a setting that is on by default, zero for the number of error logs, and any zero for a free
  // parameter.
  predicate Unsaid(keys: Path, t: Tree)
    requires t.Node?
  {
    || (t.tag == "!!bool" && t.value == "false" && Dotted(keys) in ON_BY_DEFAULT)
    || (NumberTag(t.tag) && t.value in ["0", "0.0"] && Dotted(keys) == "error-logs-max-files")
    || (Free(keys) && ZeroText(t))
  }

  predicate ZeroText(t: Tree)
    requires t.Node?
  {
    || (t.tag == "!!bool" && t.value == "false") || (NumberTag(t.tag) && t.value in ["0", "0.0"])
    || (t.tag == "!!str" && t.value == "") || t.tag == "!!null"
  }

  lemma ZeroIsText(t: Tree)
    requires Leaf(t)
    ensures IsZero(t) <==> ZeroText(t)
  {
  }

  lemma FreeDefaultIsZero(keys: Path, t: Tree)
    requires Leaf(t) && Free(keys) && IsKnownDefault(keys, t)
    ensures IsZero(t)
  {
    FreeIsOther(keys);
    assert "pprof.addr"[1] == 'p' && "remote-management.panel-github-repository"[0] == 'r'
           && "routing.strategy"[0] == 'r' && "error-logs-max-files"[0] == 'e';
  }

  lemma UnsaidIsOverruled(keys: Path, t: Tree)
    requires Leaf(t)
    ensures Unsaid(keys, t) <==> IsKnownDefault(keys, t) && Overruled(keys, t)
  {
    ZeroIsText(t);
    if Free(keys) && IsKnownDefault(keys, t) {
      FreeDefaultIsZero(keys, t);
    }
    if !Free(keys) {
      SettingUnsaid(keys, t);
    }
  }

  lemma SettingUnsaid(keys: Path, t: Tree)
    requires Leaf(t) && !Free(keys)
    ensures Unsaid(keys, t) <==> IsKnownDefault(keys, t) && Overruled(keys, t)
  {
  }

  // The loader reads back what was saved, for every setting, exactly unless the file lacks it and it is one
  // that an absent key means otherwise.
  lemma SettingReadsExactly(d: Tree, s: Tree, keys: Path)
    requires Decoded(d) && Decoded(s) && CleanKeys(s) && Leaf(Under(s, keys))
    ensures var m, leaf := MergeNode(d, s, []), Under(s, keys);
            Reads(m, keys, leaf.tag) == Reads(s, keys, leaf.tag) <==> !(Lacks(d, keys) && Unsaid(keys, leaf))
  {
    var m, leaf := MergeNode(d, s, []), Under(s, keys);
    assert [] + keys == keys;
    ThereUnlessLacking(d, s, [], keys);
    SavedLeafKept(d, s, Steps(keys));
    KeysOfSteps(keys);
    UnsaidIsOverruled(keys, leaf);
    if Under(m, keys).Nil? {
      DefaultReadsAbsent(keys, leaf);
    }
  }

  // Values that say something are in the file: true, a number other than zero, a text other than none, but
  // for the documented defaults.
  predicate SaysSomething(keys: Path, t: Tree)
    requires t.Node?
  {
    || (t.tag == "!!bool" && t.value == "true")
    || (NumberTag(t.tag) && Signed(t.value).Number? && Signed(t.value).n != 0.0
        && !(Dotted(keys) == "error-logs-max-files" && Signed(t.value).n == 10.0))
    || (t.tag == "!!str" && t.value != ""
        && !(Dotted(keys) == "pprof.addr" && t.value == PPROF)
        && !(Dotted(keys) == "remote-management.panel-github-repository" && t.value == PANEL)
        && !(Dotted(keys) == "routing.strategy" && t.value == "round-robin"))
  }

  lemma SomethingIsNoDefault(keys: Path, t: Tree)
    requires Leaf(t) && SaysSomething(keys, t)
    ensures !IsKnownDefault(keys, t)
  {
    if NumberTag(t.tag) {
      NumberIsNoDefault(keys, t);
    } else if t.tag == "!!bool" {
      assert "true"[0] != "false"[0];
    } else {
      TextIsNoDefault(keys, t);
    }
  }

  lemma NumberIsNoDefault(keys: Path, t: Tree)
    requires Leaf(t) && NumberTag(t.tag) && Signed(t.value).Number? && Signed(t.value).n != 0.0
    requires !(Dotted(keys) == "error-logs-max-files" && Signed(t.value).n == 10.0)
    ensures !IsKnownDefault(keys, t)
  {
    ZeroNumbers();
    TenIsTen();
  }

  lemma TextIsNoDefault(keys: Path, t: Tree)
    requires Leaf(t) && t.tag == "!!str" && SaysSomething(keys, t)
    ensures !IsKnownDefault(keys, t)
  {
  }

  lemma SettingSaved(d: Tree, s: Tree, keys: Path)
    requires Decoded(d) && Decoded(s) && CleanKeys(s) && Leaf(Under(s, keys)) && SaysSomething(keys, Under(s, keys))
    ensures SaysSame(Under(MergeNode(d, s, []), keys), Under(s, keys))
  {
    SavedLeafKept(d, s, Steps(keys));
    KeysOfSteps(keys);
    SomethingIsNoDefault(keys, Under(s, keys));
  }

  // And nothing is added that says no more than its absence: no false, no zero, no empty text, no null and
  // none of the documented defaults.
  lemma DefaultNotAdded(d: Tree, s: Tree, keys: Path)
    requires Decoded(d) && Decoded(s) && CleanKeys(s) && Leaf(Under(s, keys)) && Lacks(d, keys)
    requires ZeroText(Under(s, keys)) || DocumentedDefault(keys, Under(s, keys))
    ensures Under(MergeNode(d, s, []), keys).Nil?
  {
    assert [] + keys == keys;
    ZeroIsText(Under(s, keys));
    if !ZeroText(Under(s, keys)) {
      DocumentedIsKnown(keys, Under(s, keys));
    }
    ThereUnlessLacking(d, s, [], keys);
  }

  predicate DocumentedDefault(keys: Path, t: Tree)
    requires t.Node?
  {
    || (t.tag == "!!str" && keys == ["pprof", "addr"] && t.value == PPROF)
    || (t.tag == "!!str" && keys == ["remote-management", "panel-github-repository"] && t.value == PANEL)
    || (t.tag == "!!str" && keys == ["routing", "strategy"] && t.value == "round-robin")
    || (t.tag == "!!int" && keys == ["error-logs-max-files"] && t.value == "10")
  }

  lemma DocumentedIsKnown(keys: Path, t: Tree)
    requires Leaf(t) && DocumentedDefault(keys, t)
    ensures IsKnownDefault(keys, t)
  {
    if |keys| == 2 {
      DottedTwo(keys[0], keys[1]);
      assert keys == [keys[0], keys[1]];
      DefaultText(keys, t);
    }
  }

  lemma DefaultText(keys: Path, t: Tree)
    requires Leaf(t) && t.tag == "!!str" && |keys| == 2 && DocumentedDefault(keys, t)
    requires Dotted(keys) == keys[0] + "." + keys[1]
    ensures IsKnownDefault(keys, t)
  {
    JoinedKeys();
  }

  lemma JoinedKeys()
    ensures "pprof" + "." + "addr" == "pprof.addr" && "routing" + "." + "strategy" == "routing.strategy"
    ensures "remote-management" + "." + "panel-github-repository" == "remote-management.panel-github-repository"
  {
  }

  lemma DottedTwo(a: string, b: string)
    ensures Dotted([a, b]) == a + "." + b
  {
    assert [a, b][1..] == [b];
  }

  // A list is in the file with as many elements, null where it is empty and was null before; or it is not
  // there, and all it says are known defaults (LeafKept).
  lemma {:induction false} ListKept(d: Tree, s: Tree, path: Path, steps: seq<Step>)
    requires Decoded(s) && CleanKeys(s) && Agrees(d, s, path) && At(s, steps).Node? && At(s, steps).kind == Sequence
    ensures var was, now := At(s, steps), At(d, steps);
            || now.Nil?
            || (now.kind == Sequence && |now.content| == |was.content|)
            || (now.kind == Scalar && now.tag == "!!null" && was.content == [])
    decreases |steps|
  {
    if steps != [] {
      match steps[0]
      case Field(key) =>
        var j := ValueIsPair(s, key);
        assert ValueAgrees(d.content, KeyOf(s, j), s.content[2 * j + 1], path);
        if ValueOf(d.content, key).Some? {
          ListKept(ValueOf(d.content, key).value, s.content[2 * j + 1], path + [key], steps[1..]);
        }
      case Item(i) =>
        ListKept(d.content[i], s.content[i], path, steps[1..]);
    }
  }

  // ----- Inputs where something is lost -----

  function Plain(tag: string, value: string): Tree {
    Node(Scalar, tag, value, "", [])
  }

  // A file with nothing in it, and one with a single setting.
  const EMPTY := Node(Mapping, "!!map", "", "", [])

  function One(key: string, value: Tree): Tree {
    Node(Mapping, "!!map", "", "", [Plain("!!str", key), value])
  }

  lemma OneIs(key: string, value: Tree)
    requires Decoded(value) && CleanKeys(value)
    ensures Decoded(One(key, value)) && CleanKeys(One(key, value)) && Under(One(key, value), [key]) == value
    ensures Decoded(EMPTY) && Lacks(EMPTY, [key])
  {
    assert KeyAt(One(key, value).content, key, 0);
    UnderStep(One(key, value), [key]);
    assert [key][1..] == [];
  }

  // Usage statistics are switched off and saved into a file that does not mention them: they are on again
  // when it is loaded.
  lemma OffIsLost()
    ensures var s, keys := One("usage-statistics-enabled", Plain("!!bool", "false")), ["usage-statistics-enabled"];
            && Reads(s, keys, "!!bool") == Truth(false)
            && Reads(MergeNode(EMPTY, s, []), keys, "!!bool") == Truth(true)
  {
    var keys := ["usage-statistics-enabled"];
    var leaf := Plain("!!bool", "false");
    OneIs(keys[0], leaf);
    assert keys == [keys[0]];
    DefaultNotAdded(EMPTY, One(keys[0], leaf), keys);
    OnByDefault(keys);
  }

  lemma OnByDefault(keys: Path)
    requires keys == ["usage-statistics-enabled"]
    ensures Missing(keys, "!!bool") == Truth(true) && Present(keys, Plain("!!bool", "false")) == Truth(false)
  {
    assert Dotted(keys) == keys[0] == ON_BY_DEFAULT[0];
  }

  // A list of one empty text is saved into a file without it: it is gone.
  lemma BlankListIsLost(key: string)
    ensures var s := One(key, Node(Sequence, "!!seq", "", "", [Plain("!!str", "")]));
            var list := Under(s, [key]);
            list.Node? && list.content != [] && Under(MergeNode(EMPTY, s, []), [key]).Nil?
  {
    var list := Node(Sequence, "!!seq", "", "", [Plain("!!str", "")]);
    var s := One(key, list);
    OneIs(key, list);
    BlankListIsZero([key], list);
    assert KeyOf(s, 0) == key && [] + [key] == [key] && ValueOf(EMPTY.content, key).None?;
    UnderNew(EMPTY, s, [], [key], 0);
  }

  lemma BlankListIsZero(path: Path, list: Tree)
    requires list == Node(Sequence, "!!seq", "", "", [Plain("!!str", "")])
    ensures IsKnownDefault(path, Prune(path, list)) && Decoded(list) && CleanKeys(list)
  {
    assert IsZero(list.content[0]) && IsZero(list);
    PruneKeepsZero(path, list);
  }
}
