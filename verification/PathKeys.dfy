/** Object keys in JSON paths: escaping, joining, splitting and unescaping, and exactly which lists
    of keys survive the round trip. */
module PathKeys {

  predicate Special(c: char) {
    c == '.' || c == '*' || c == '?'
  }

  // escapeGJSONPathKey.
  function Escape(key: string): string {
    if key == [] then [] else (if Special(key[0]) then ['\\', key[0]] else [key[0]]) + Escape(key[1..])
  }

  // joinPath.
  function JoinPath(base: string, suffix: string): string {
    if base == "" then suffix else base + "." + suffix
  }

  // The path a walk builds, key by key.
  function PathOf(keys: seq<string>): string {
    if keys == [] then "" else JoinPath(PathOf(keys[..|keys| - 1]), Escape(keys[|keys| - 1]))
  }

  function Unescaped(key: string): string {
    if key == [] then []
    else if key[0] == '\\' && |key| > 1 then [key[1]] + Unescaped(key[2..])
    else [key[0]] + Unescaped(key[1..])
  }

  // Text put in front of the first piece.
  function Glue(head: string, pieces: seq<string>): (r: seq<string>)
    requires pieces != []
    ensures |r| == |pieces|
  {
    [head + pieces[0]] + pieces[1..]
  }

  // The pieces between separating dots; a backslash takes the next letter with it.
  function Pieces(path: string): (r: seq<string>)
    ensures r != []
  {
    if path == [] then [[]]
    else if path[0] == '\\' && |path| > 1 then Glue(path[..2], Pieces(path[2..]))
    else if path[0] == '.' then [[]] + Pieces(path[1..])
    else Glue(path[..1], Pieces(path[1..]))
  }

  function SplitPath(path: string): seq<string> {
    if path == "" then [] else Pieces(path)
  }

  // ----- The loops -----

  lemma {:induction false} UnescapedPlain(key: string)
    requires '\\' !in key
    ensures Unescaped(key) == key
  {
    if key != [] {
      UnescapedPlain(key[1..]);
    }
  }

  lemma UnescapedAt(key: string, i: nat)
    requires i < |key|
    ensures Unescaped(key[i..]) ==
            if key[i] == '\\' && i + 1 < |key| then [key[i + 1]] + Unescaped(key[i + 2..])
            else [key[i]] + Unescaped(key[i + 1..])
  {
    assert key[i..][1..] == key[i + 1..];
    if i + 1 < |key| {
      assert key[i..][2..] == key[i + 2..];
    }
  }

  // unescapeGJSONPathKey.
  method Unescape(key: string) returns (out: string)
    ensures out == Unescaped(key)
  {
    if '\\' !in key {
      UnescapedPlain(key);
      return key;
    }
    out := "";
    var i := 0;
    assert key[0..] == key;
    while i < |key|
      invariant 0 <= i <= |key|
      invariant out + Unescaped(key[i..]) == Unescaped(key)
    {
      i, out := UnescapeStep(key, i, out);
    }
    assert key[i..] == [] && out + [] == out;
  }

  // One round of the loop.
  method UnescapeStep(key: string, i: nat, out: string) returns (i': nat, out': string)
    requires i < |key|
    ensures i < i' <= |key|
    ensures out' + Unescaped(key[i'..]) == out + Unescaped(key[i..])
  {
    UnescapedAt(key, i);
    i' := i;
    if key[i'] == '\\' && i' + 1 < |key| {
      i' := i' + 1;
    }
    Joint(out, [key[i']], Unescaped(key[i' + 1..]));
    out' := out + [key[i']];
    i' := i' + 1;
  }

  lemma Joint(a: string, b: string, c: string)
    ensures (a + b) + c == a + (b + c)
  {
  }

  lemma PiecesAt(path: string, i: nat)
    requires i < |path|
    ensures Pieces(path[i..]) ==
            if path[i] == '\\' && i + 1 < |path| then Glue(path[i..i + 2], Pieces(path[i + 2..]))
            else if path[i] == '.' then [[]] + Pieces(path[i + 1..])
            else Glue([path[i]], Pieces(path[i + 1..]))
  {
    var rest := path[i..];
    assert rest[1..] == path[i + 1..] && rest[..1] == [path[i]];
    if i + 1 < |path| {
      assert rest[2..] == path[i + 2..] && rest[..2] == path[i..i + 2];
    }
  }

  lemma GlueGlue(a: string, b: string, pieces: seq<string>)
    requires pieces != []
    ensures Glue(a, Glue(b, pieces)) == Glue(a + b, pieces)
    ensures Glue("", pieces) == pieces
    ensures Glue(a, [[]] + pieces) == [a] + pieces
  {
    assert a + (b + pieces[0]) == (a + b) + pieces[0];
    assert "" + pieces[0] == pieces[0];
    assert a + [] == a;
  }

  lemma PairTaken(path: string, i: nat, b: string)
    requires i + 1 < |path| && path[i] == '\\'
    ensures Glue(b + ['\\'] + [path[i + 1]], Pieces(path[i + 2..])) == Glue(b, Pieces(path[i..]))
  {
    PiecesAt(path, i);
    assert b + ['\\'] + [path[i + 1]] == b + path[i..i + 2];
    GlueGlue(b, path[i..i + 2], Pieces(path[i + 2..]));
  }

  lemma LetterTaken(path: string, i: nat, b: string)
    requires i < |path| && path[i] != '.' && (path[i] == '\\' ==> i + 1 == |path|)
    ensures Glue(b + [path[i]], Pieces(path[i + 1..])) == Glue(b, Pieces(path[i..]))
  {
    PiecesAt(path, i);
    GlueGlue(b, [path[i]], Pieces(path[i + 1..]));
  }

  lemma DotTaken(path: string, i: nat, parts: seq<string>, b: string)
    requires i < |path| && path[i] == '.'
    ensures (parts + [b]) + Glue("", Pieces(path[i + 1..])) == parts + Glue(b, Pieces(path[i..]))
  {
    PiecesAt(path, i);
    GlueGlue(b, "", Pieces(path[i + 1..]));
  }

  // splitGJSONPath.
  method Split(path: string) returns (parts: seq<string>)
    ensures parts == SplitPath(path)
  {
    if path == "" {
      return [];
    }
    parts := [];
    var b := "";
    var i := 0;
    GlueGlue("", "", Pieces(path));
    assert path[0..] == path;
    while i < |path|
      invariant 0 <= i <= |path|
      invariant parts + Glue(b, Pieces(path[i..])) == Pieces(path)
    {
      i, parts, b := SplitStep(path, i, parts, b);
    }
    assert path[i..] == [] && b + [] == b;
    parts := parts + [b];
  }

  // One round of the loop.
  method SplitStep(path: string, i: nat, parts: seq<string>, b: string)
    returns (i': nat, parts': seq<string>, b': string)
    requires i < |path|
    ensures i < i' <= |path|
    ensures parts' + Glue(b', Pieces(path[i'..])) == parts + Glue(b, Pieces(path[i..]))
  {
    i', parts', b' := i, parts, b;
    var c := path[i];
    if c == '\\' && i + 1 < |path| {
      PairTaken(path, i, b);
      b' := b' + ['\\'];
      i' := i' + 1;
      b' := b' + [path[i']];
    } else if c == '.' {
      DotTaken(path, i, parts, b);
      parts' := parts' + [b'];
      b' := "";
    } else {
      LetterTaken(path, i, b);
      b' := b' + [c];
    }
    i' := i' + 1;
  }

  // ----- Keys whose backslashes do no harm -----

  // A letter that is no backslash, or a backslash before '*' or '?', or one closing the last key.
  ghost predicate Harmless(key: string, last: bool, j: int)
    requires 0 <= j < |key|
  {
    key[j] == '\\' ==> if j + 1 < |key| then key[j + 1] == '*' || key[j + 1] == '?' else last
  }

  ghost predicate Readable(key: string, last: bool) {
    forall j :: 0 <= j < |key| ==> Harmless(key, last, j)
  }

  // Unescaping undoes escaping.
  ghost predicate Restored(key: string) {
    Unescaped(Escape(key)) == key
  }

  function EscapeAll(keys: seq<string>): (r: seq<string>)
    ensures |r| == |keys| && forall i :: 0 <= i < |keys| ==> r[i] == Escape(keys[i])
  {
    seq(|keys|, i requires 0 <= i < |keys| => Escape(keys[i]))
  }

  ghost predicate RoundTrips(keys: seq<string>) {
    SplitPath(PathOf(keys)) == EscapeAll(keys) && forall i :: 0 <= i < |keys| ==> Restored(keys[i])
  }

  // The same path, read from the front.
  function Joined(keys: seq<string>): string
    requires keys != []
  {
    if |keys| == 1 then Escape(keys[0]) else Escape(keys[0]) + "." + Joined(keys[1..])
  }

  lemma {:induction false} JoinedSnoc(keys: seq<string>, key: string)
    requires keys != []
    ensures Joined(keys + [key]) == Joined(keys) + "." + Escape(key)
  {
    assert (keys + [key])[1..] == keys[1..] + [key];
    if |keys| > 1 {
      JoinedSnoc(keys[1..], key);
    }
  }

  lemma {:induction false} PathIsJoined(keys: seq<string>)
    requires keys != [] && keys[0] != ""
    ensures PathOf(keys) == Joined(keys) && PathOf(keys) != ""
  {
    var n := |keys|;
    if n > 1 {
      PathIsJoined(keys[..n - 1]);
      JoinedSnoc(keys[..n - 1], keys[n - 1]);
      assert keys[..n - 1] + [keys[n - 1]] == keys;
    } else {
      assert keys[..0] == [];
    }
  }

  lemma ReadableTail(key: string, last: bool, k: nat)
    requires Readable(key, last) && k <= |key|
    ensures Readable(key[k..], last)
  {
    var tail := key[k..];
    forall j | 0 <= j < |tail| ensures Harmless(tail, last, j) {
      assert Harmless(key, last, k + j);
    }
  }

  lemma PiecesPair(c: char, rest: string)
    ensures Pieces(['\\', c] + rest) == Glue(['\\', c], Pieces(rest))
  {
    var path := ['\\', c] + rest;
    assert path[..2] == ['\\', c] && path[2..] == rest;
  }

  lemma PiecesOne(c: char, rest: string)
    requires c != '.' && c != '\\'
    ensures Pieces([c] + rest) == Glue([c], Pieces(rest))
  {
    var path := [c] + rest;
    assert path[..1] == [c] && path[1..] == rest;
  }

  lemma PiecesEnd(c: char)
    requires c != '.'
    ensures Pieces([c]) == [[c]]
  {
    assert [c][1..] == [] && [c][..1] == [c];
    assert [c] + [] == [c];
  }

  // head passes through the splitter whole, whatever follows.
  ghost predicate Through(head: string, rest: string) {
    Pieces(head + rest) == Glue(head, Pieces(rest))
  }

  lemma ThroughPair(c: char, tail: string, rest: string)
    requires Through(tail, rest)
    ensures Through(['\\', c] + tail, rest)
  {
    PiecesPair(c, tail + rest);
    GlueGlue(['\\', c], tail, Pieces(rest));
    assert (['\\', c] + tail) + rest == ['\\', c] + (tail + rest);
  }

  lemma ThroughOne(c: char, tail: string, rest: string)
    requires Through(tail, rest) && c != '.' && c != '\\'
    ensures Through([c] + tail, rest)
  {
    PiecesOne(c, tail + rest);
    GlueGlue([c], tail, Pieces(rest));
    assert ([c] + tail) + rest == [c] + (tail + rest);
  }

  lemma EscapeFirst(key: string)
    requires key != []
    ensures Escape(key) == (if Special(key[0]) then ['\\', key[0]] else [key[0]]) + Escape(key[1..])
  {
  }

  lemma EscapeSlashPlain(key: string)
    requires |key| > 1 && key[0] == '\\' && !Special(key[1])
    ensures Escape(key) == ['\\', key[1]] + Escape(key[2..])
  {
    EscapeFirst(key[1..]);
    assert key[1..][1..] == key[2..];
  }

  lemma EscapeSlashSpecial(key: string)
    requires |key| > 1 && key[0] == '\\' && Special(key[1])
    ensures Escape(key) == ['\\', '\\'] + ([key[1]] + Escape(key[2..]))
  {
    EscapeFirst(key[1..]);
    assert key[1..][1..] == key[2..];
  }

  // Escaped text passes through the splitter whole.
  lemma {:induction false} EscapedStays(key: string, rest: string)
    requires Readable(key, false)
    ensures Through(Escape(key), rest)
  {
    if key == [] {
      assert Escape(key) + rest == rest;
      GlueGlue("", "", Pieces(rest));
    } else if key[0] == '\\' {
      assert Harmless(key, false, 0);
      ReadableTail(key, false, 2);
      EscapedStays(key[2..], rest);
      EscapeSlashSpecial(key);
      ThroughOne(key[1], Escape(key[2..]), rest);
      ThroughPair('\\', [key[1]] + Escape(key[2..]), rest);
    } else {
      ReadableTail(key, false, 1);
      EscapedStays(key[1..], rest);
      if Special(key[0]) {
        ThroughPair(key[0], Escape(key[1..]), rest);
      } else {
        ThroughOne(key[0], Escape(key[1..]), rest);
      }
    }
  }

  lemma {:induction false} ReadableRestored(key: string)
    requires Readable(key, true)
    ensures Restored(key)
  {
    if key != [] {
      if key[0] == '\\' && |key| > 1 {
        assert Harmless(key, true, 0);
        ReadableTail(key, true, 2);
        ReadableRestored(key[2..]);
        EscapeSlashSpecial(key);
        assert Unescaped(Escape(key)) == ['\\'] + Unescaped([key[1]] + Escape(key[2..]));
      } else {
        ReadableTail(key, true, 1);
        ReadableRestored(key[1..]);
        EscapeFirst(key);
      }
    }
  }

  // A last key may end in a backslash: nothing follows for it to take along.
  lemma LastStays(key: string)
    requires Readable(key, true)
    ensures Pieces(Escape(key)) == [Escape(key)]
  {
    if key != [] && key[|key| - 1] == '\\' {
      var body := key[..|key| - 1];
      forall j | 0 <= j < |body| ensures Harmless(body, false, j) {
        assert Harmless(key, true, j);
        assert j + 1 == |body| ==> key[j + 1] == '\\';
      }
      EscapeSnoc(body, '\\');
      assert key == body + ['\\'];
      EscapedStays(body, ['\\']);
      PiecesEnd('\\');
      GlueGlue(Escape(body), "", [['\\']]);
    } else {
      forall j | 0 <= j < |key| ensures Harmless(key, false, j) {
        assert Harmless(key, true, j);
      }
      EscapedStays(key, []);
      assert Escape(key) + [] == Escape(key);
    }
  }

  lemma {:induction false} EscapeSnoc(key: string, c: char)
    ensures Escape(key + [c]) == Escape(key) + (if Special(c) then ['\\', c] else [c])
  {
    if key != [] {
      EscapeSnoc(key[1..], c);
      assert (key + [c])[1..] == key[1..] + [c];
    }
  }

  ghost predicate AllReadable(keys: seq<string>) {
    forall i :: 0 <= i < |keys| ==> Readable(keys[i], i == |keys| - 1)
  }

  lemma AllReadableTail(keys: seq<string>)
    requires |keys| > 1
    ensures AllReadable(keys) <==> Readable(keys[0], false) && AllReadable(keys[1..])
  {
    if Readable(keys[0], false) && AllReadable(keys[1..]) {
      forall i | 0 <= i < |keys| ensures Readable(keys[i], i == |keys| - 1) {
        if i > 0 {
          assert keys[1..][i - 1] == keys[i];
        }
      }
    }
    if AllReadable(keys) {
      forall i | 0 <= i < |keys[1..]| ensures Readable(keys[1..][i], i == |keys[1..]| - 1) {
        assert keys[1..][i] == keys[i + 1];
      }
    }
  }

  lemma PastFirst(keys: seq<string>)
    requires |keys| > 1 && Readable(keys[0], false)
    ensures Pieces(Joined(keys)) == [Escape(keys[0])] + Pieces(Joined(keys[1..]))
  {
    var more := Joined(keys[1..]);
    JoinedFirst(keys);
    EscapedStays(keys[0], "." + more);
    PiecesAfterDot(more);
    GlueGlue(Escape(keys[0]), "", Pieces(more));
  }

  lemma JoinedFirst(keys: seq<string>)
    requires |keys| > 1
    ensures Joined(keys) == Escape(keys[0]) + ("." + Joined(keys[1..]))
  {
  }

  lemma PiecesAfterDot(path: string)
    ensures Pieces("." + path) == [[]] + Pieces(path)
  {
    assert ("." + path)[1..] == path;
  }

  lemma {:induction false} ReadableSplits(keys: seq<string>)
    requires keys != [] && AllReadable(keys)
    ensures Pieces(Joined(keys)) == EscapeAll(keys)
  {
    if |keys| == 1 {
      LastStays(keys[0]);
    } else {
      AllReadableTail(keys);
      ReadableSplits(keys[1..]);
      PastFirst(keys);
      assert EscapeAll(keys) == [Escape(keys[0])] + EscapeAll(keys[1..]);
    }
  }

  // ----- The condition is necessary -----

  lemma {:induction false} NeverLonger(key: string)
    ensures |Unescaped(Escape(key))| <= |key|
  {
    if key != [] {
      EscapeFirst(key);
      if Special(key[0]) {
        NeverLonger(key[1..]);
      } else if key[0] == '\\' && |key| > 1 {
        NeverLonger(key[2..]);
        if Special(key[1]) {
          EscapeSlashSpecial(key);
        } else {
          EscapeSlashPlain(key);
        }
      } else {
        NeverLonger(key[1..]);
      }
    }
  }

  // Only a backslash before a letter that escaping touches, or at the end, is restored.
  ghost predicate Kept(key: string, j: int)
    requires 0 <= j < |key|
  {
    key[j] == '\\' && j + 1 < |key| ==> Special(key[j + 1])
  }

  lemma LostSlash(key: string)
    requires |key| > 1 && key[0] == '\\' && !Special(key[1])
    ensures !Restored(key)
  {
    EscapeSlashPlain(key);
    NeverLonger(key[2..]);
    assert Unescaped(Escape(key)) == [key[1]] + Unescaped(Escape(key[2..]));
  }

  lemma {:induction false} RestoredKeeps(key: string, j: nat)
    requires Restored(key) && j < |key|
    ensures Kept(key, j)
  {
    EscapeFirst(key);
    if Special(key[0]) {
      assert Restored(key[1..]);
      if j > 0 {
        RestoredKeeps(key[1..], j - 1);
      }
    } else if key[0] == '\\' && |key| > 1 {
      if Special(key[1]) {
        EscapeSlashSpecial(key);
        assert Unescaped(Escape(key)) == ['\\'] + Unescaped([key[1]] + Escape(key[2..]));
        assert Unescaped([key[1]] + Escape(key[2..])) == [key[1]] + Unescaped(Escape(key[2..]));
        assert Restored(key[2..]) by {
          assert key == ['\\', key[1]] + key[2..];
        }
        if j > 1 {
          RestoredKeeps(key[2..], j - 2);
        }
      } else {
        LostSlash(key);
      }
    } else if |key| > 1 {
      assert Restored(key[1..]);
      if j > 0 {
        RestoredKeeps(key[1..], j - 1);
      }
    }
  }

  lemma TailOfJoint(a: string, b: string)
    requires a != []
    ensures (a + b)[1..] == a[1..] + b && (a + b)[0] == a[0]
  {
  }

  lemma EscapeOne(key: string)
    requires key != []
    ensures Escape(key[..1]) == if Special(key[0]) then ['\\', key[0]] else [key[0]]
  {
    EscapeFirst(key[..1]);
    assert key[..1][1..] == [];
  }

  lemma {:induction false} EscapeConcat(a: string, b: string)
    ensures Escape(a + b) == Escape(a) + Escape(b)
  {
    if a == [] {
      assert a + b == b;
    } else {
      EscapeConcat(a[1..], b);
      TailOfJoint(a, b);
      EscapeFirst(a + b);
      EscapeFirst(a);
      Joint(Escape(a[..1]), Escape(a[1..]), Escape(b));
      EscapeOne(a);
    }
  }

  lemma StartsWithDot(path: string)
    requires path != [] && path[0] == '.'
    ensures Pieces(path)[0] == []
  {
  }

  lemma PairThenDot(c: char, path: string)
    requires path != [] && path[0] == '.'
    ensures |Pieces(['\\', c] + path)[0]| == 2
  {
    PiecesPair(c, path);
    StartsWithDot(path);
  }

  // A backslash before a dot tears its key apart.
  lemma TornApart(key: string, rest: string)
    requires |key| > 1 && key[0] == '\\' && key[1] == '.'
    ensures |Pieces(Escape(key) + rest)[0]| != |Escape(key)|
  {
    EscapeSlashSpecial(key);
    var after := [key[1]] + Escape(key[2..]);
    Joint(['\\', '\\'], after, rest);
    PairThenDot('\\', after + rest);
  }

  lemma PairIsLonger(c: char, path: string)
    ensures |Pieces(['\\', c] + path)[0]| >= 2
  {
    PiecesPair(c, path);
  }

  // A closing backslash takes the dot after its key along.
  lemma TiedOn(rest: string)
    requires rest != [] && rest[0] == '.'
    ensures |Pieces(['\\'] + rest)[0]| >= 2
  {
    assert ['\\'] + rest == ['\\', rest[0]] + rest[1..];
    PairIsLonger(rest[0], rest[1..]);
  }

  lemma EscapeLetter(c: char)
    requires !Special(c)
    ensures Escape([c]) == [c]
  {
    EscapeFirst([c]);
    assert [c][1..] == [];
  }

  lemma HarmfulHead(key: string, rest: string)
    requires key != [] && key[0] == '\\'
    requires if |key| > 1 then key[1] == '.' else rest != [] && rest[0] == '.'
    ensures |Pieces(Escape(key) + rest)[0]| != |Escape(key)|
  {
    if |key| > 1 {
      TornApart(key, rest);
    } else {
      assert key == ['\\'];
      EscapeLetter('\\');
      TiedOn(rest);
    }
  }

  lemma FirstPieceLength(key: string, j: nat, rest: string)
    requires j < |key| && Readable(key[..j], false) && key[j] == '\\'
    requires if j + 1 < |key| then key[j + 1] == '.' else rest != [] && rest[0] == '.'
    ensures |Pieces(Escape(key) + rest)[0]| != |Escape(key)|
  {
    var body, tail := key[..j], key[j..];
    HarmfulHead(tail, rest);
    EscapedStays(body, Escape(tail) + rest);
    EscapeConcat(body, tail);
    assert key == body + tail;
    Joint(Escape(body), Escape(tail), rest);
  }

  // The first backslash that does harm.
  lemma FirstHarm(key: string, last: bool) returns (j: nat)
    requires !Readable(key, last)
    ensures j < |key| && !Harmless(key, last, j) && Readable(key[..j], false)
  {
    j := 0;
    while Harmless(key, last, j)
      invariant j < |key| && forall i :: 0 <= i < j ==> Harmless(key, last, i)
      decreases |key| - j
    {
      j := j + 1;
    }
    forall i | 0 <= i < j ensures Harmless(key[..j], false, i) {
      assert Harmless(key, last, i);
    }
  }

  // If the pieces are the escaped keys, every backslash was harmless.
  lemma {:induction false} SplitsReadable(keys: seq<string>)
    requires keys != [] && Pieces(Joined(keys)) == EscapeAll(keys)
    requires forall i :: 0 <= i < |keys| ==> Restored(keys[i])
    ensures AllReadable(keys)
  {
    var key, last := keys[0], |keys| == 1;
    if !Readable(key, last) {
      var j := FirstHarm(key, last);
      RestoredKeeps(key, j);
      var rest := if last then "" else "." + Joined(keys[1..]);
      assert Joined(keys) == Escape(key) + rest;
      FirstPieceLength(key, j, rest);
      assert false;
    }
    if !last {
      PastFirst(keys);
      assert EscapeAll(keys) == [Escape(key)] + EscapeAll(keys[1..]);
      assert Pieces(Joined(keys))[1..] == Pieces(Joined(keys[1..])) && EscapeAll(keys)[1..] == EscapeAll(keys[1..]);
      SplitsReadable(keys[1..]);
      AllReadableTail(keys);
    }
  }

  // A leading empty key leaves no trace in the path.
  lemma EmptyFirst(keys: seq<string>)
    requires keys != [] && keys[0] == ""
    ensures SplitPath(PathOf(keys)) != EscapeAll(keys)
    ensures PathOf(keys) == "" || (PathOf(keys)[0] != '.')
  {
    NoLeadingDot(keys);
    var path := PathOf(keys);
    if path != "" {
      assert Pieces(path)[0] != "";
    }
  }

  lemma {:induction false} NoLeadingDot(keys: seq<string>)
    ensures PathOf(keys) == "" || PathOf(keys)[0] != '.'
  {
    if keys != [] {
      NoLeadingDot(keys[..|keys| - 1]);
      var key := keys[|keys| - 1];
      if key != "" {
        EscapeFirst(key);
      }
    }
  }

  // Escape, join, split, unescape: a list of keys comes back exactly when it is empty or its first
  // key is not and every backslash stands before '*' or '?' or closes the last key.
  lemma RoundTrip(keys: seq<string>)
    ensures RoundTrips(keys) <==> keys == [] || (keys[0] != "" && AllReadable(keys))
  {
    if keys == [] {
      assert EscapeAll(keys) == [];
    } else if keys[0] == "" {
      EmptyFirst(keys);
    } else {
      PathIsJoined(keys);
      if AllReadable(keys) {
        ReadableSplits(keys);
        forall i | 0 <= i < |keys| ensures Restored(keys[i]) {
          forall j | 0 <= j < |keys[i]| ensures Harmless(keys[i], true, j) {
            assert Harmless(keys[i], i == |keys| - 1, j);
          }
          ReadableRestored(keys[i]);
        }
      }
      if RoundTrips(keys) {
        SplitsReadable(keys);
      }
    }
  }

  // Keys without backslashes, as schemas have them, always come back.
  lemma PlainKeysRoundTrip(keys: seq<string>)
    requires keys != [] && keys[0] != "" && forall i :: 0 <= i < |keys| ==> '\\' !in keys[i]
    ensures RoundTrips(keys)
  {
    forall i | 0 <= i < |keys| ensures Readable(keys[i], i == |keys| - 1) {
      assert forall j :: 0 <= j < |keys[i]| ==> keys[i][j] in keys[i];
    }
    RoundTrip(keys);
  }
}
