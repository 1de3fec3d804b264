/** String helpers shared by the components: Option, white-space trimming and ASCII case folding. */
module Text {

  datatype Option<+T> = None | Some(value: T)

  // The Unicode White_Space property, which strings.TrimSpace trims.
  predicate IsSpace(c: char) {
    var u := c as int;
    (9 <= u <= 13) || u == 32 || u == 0x85 || u == 0xA0 || u == 0x1680 || (0x2000 <= u <= 0x200A)
    || u == 0x2028 || u == 0x2029 || u == 0x202F || u == 0x205F || u == 0x3000
  }

  function TrimLeft(s: string): (t: string)
    ensures |t| <= |s|
    ensures t != [] ==> !IsSpace(t[0])
  {
    if s != [] && IsSpace(s[0]) then TrimLeft(s[1..]) else s
  }

  function TrimRight(s: string): (t: string)
    ensures t <= s
    ensures t != [] ==> !IsSpace(t[|t| - 1])
  {
    if s != [] && IsSpace(s[|s| - 1]) then TrimRight(s[..|s| - 1]) else s
  }

  function Trim(s: string): (t: string)
    ensures |t| <= |s|
    ensures t != [] ==> !IsSpace(t[0]) && !IsSpace(t[|t| - 1])
  {
    TrimRight(TrimLeft(s))
  }

  // Trimming takes white space off both ends, and nothing else.
  ghost predicate SpaceAround(s: string, i: nat, j: nat) {
    i <= j <= |s| && (forall k :: 0 <= k < i ==> IsSpace(s[k])) && (forall k :: j <= k < |s| ==> IsSpace(s[k]))
  }

  lemma {:induction false} TrimLeftTakesSpace(s: string) returns (i: nat)
    ensures i <= |s| && TrimLeft(s) == s[i..] && forall k :: 0 <= k < i ==> IsSpace(s[k])
  {
    if s != [] && IsSpace(s[0]) {
      var rest := TrimLeftTakesSpace(s[1..]);
      i := rest + 1;
      assert forall k :: 1 <= k < i ==> s[k] == s[1..][k - 1];
    } else {
      i := 0;
    }
  }

  lemma {:induction false} TrimRightTakesSpace(s: string)
    ensures TrimRight(s) == s[..|TrimRight(s)|] && forall k :: |TrimRight(s)| <= k < |s| ==> IsSpace(s[k])
  {
    if s != [] && IsSpace(s[|s| - 1]) {
      TrimRightTakesSpace(s[..|s| - 1]);
    }
  }

  lemma TrimTakesSpace(s: string) returns (i: nat, j: nat)
    ensures SpaceAround(s, i, j) && Trim(s) == s[i..j]
  {
    i := TrimLeftTakesSpace(s);
    var rest := TrimLeft(s);
    TrimRightTakesSpace(rest);
    j := i + |TrimRight(rest)|;
    assert forall k :: j <= k < |s| ==> s[k] == rest[k - i];
  }

  lemma TrimIdempotent(s: string)
    ensures Trim(Trim(s)) == Trim(s)
  {
  }

  function LowerChar(c: char): char {
    if 'A' <= c <= 'Z' then (c as int + 32) as char else c
  }

  function ToLower(s: string): (t: string)
    ensures |t| == |s|
    ensures forall i :: 0 <= i < |s| ==> t[i] == LowerChar(s[i])
  {
    if s == [] then [] else [LowerChar(s[0])] + ToLower(s[1..])
  }

  predicate EqualFold(a: string, b: string) {
    ToLower(a) == ToLower(b)
  }

  // The same letter, once as a capital.
  predicate Cases(c: char, d: char) {
    'A' <= c <= 'Z' && d as int - 'a' as int == c as int - 'A' as int
  }

  predicate Folds(c: char, d: char) {
    c == d || Cases(c, d) || Cases(d, c)
  }

  lemma CharFolds(c: char, d: char)
    ensures LowerChar(c) == LowerChar(d) <==> Folds(c, d)
  {
  }

  // Strings are equal but for the case of letters exactly if they are so character by character.
  lemma FoldExactly(a: string, b: string)
    ensures EqualFold(a, b) <==> |a| == |b| && forall i :: 0 <= i < |a| ==> Folds(a[i], b[i])
  {
    forall i | 0 <= i < |a| && i < |b| ensures ToLower(a)[i] == ToLower(b)[i] <==> Folds(a[i], b[i]) {
      CharFolds(a[i], b[i]);
    }
    if |a| == |b| && forall i :: 0 <= i < |a| ==> Folds(a[i], b[i]) {
      assert forall i :: 0 <= i < |a| ==> ToLower(a)[i] == ToLower(b)[i];
    }
  }

  lemma NoCapitalsLeft(s: string)
    ensures EqualFold(s, ToLower(s)) && forall i :: 0 <= i < |s| ==> !('A' <= ToLower(s)[i] <= 'Z')
  {
    FoldExactly(s, ToLower(s));
  }
}
