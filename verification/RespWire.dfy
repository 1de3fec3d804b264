/** The wire format as the protocol states it, byte for byte: what a number, a line and a string look
    like, and that the reader and the writer keep to it. */
module RespWire {
  import opened Text
  import opened UsageQueue
  import opened Resp

  // ----- Numbers -----

  function Pow10(n: nat): nat {
    if n == 0 then 1 else 10 * Pow10(n - 1)
  }

  ghost predicate DecimalDigits(b: Bytes) {
    forall i :: 0 <= i < |b| ==> '0' as int <= b[i] as int <= '9' as int
  }

  // The number the digits stand for, the first one counting most.
  ghost function Positional(b: Bytes): nat
    requires DecimalDigits(b)
  {
    if b == [] then 0 else (b[0] as int - '0' as int) * Pow10(|b| - 1) + Positional(b[1..])
  }

  lemma DigitsAreDecimal(b: Bytes)
    ensures AllDigits(b) <==> DecimalDigits(b)
  {
    assert '0' as int == 48 && '9' as int == 57;
  }

  lemma {:induction false} PositionalSnoc(b: Bytes, d: byte)
    requires DecimalDigits(b + [d])
    ensures DecimalDigits(b) && Positional(b + [d]) == 10 * Positional(b) + (d as int - '0' as int)
  {
    assert forall i :: 0 <= i < |b| ==> b[i] == (b + [d])[i];
    assert (b + [d])[|b|] == d;
    if b == [] {
      assert (b + [d])[1..] == [];
      assert Pow10(0) == 1;
    } else {
      assert (b + [d])[1..] == b[1..] + [d];
      assert DecimalDigits(b[1..] + [d]) by {
        assert forall i :: 0 <= i < |b[1..] + [d]| ==> (b[1..] + [d])[i] == (b + [d])[i + 1];
      }
      PositionalSnoc(b[1..], d);
      TimesTen(b[0] as int - '0' as int, Pow10(|b| - 1));
    }
  }

  lemma TimesTen(x: int, y: int)
    ensures x * (10 * y) == 10 * (x * y)
  {
  }

  lemma {:induction false} ValueIsPositional(b: Bytes)
    requires DecimalDigits(b)
    ensures AllDigits(b) && DigitsValue(b) == Positional(b)
  {
    DigitsAreDecimal(b);
    if b != [] {
      var front, last := b[..|b| - 1], b[|b| - 1];
      assert b == front + [last];
      PositionalSnoc(front, last);
      ValueIsPositional(front);
    }
  }

  // The text of a number: a sign or none, decimal digits, and within 64 bits.
  ghost predicate Spells(b: Bytes, v: int) {
    var signed := b != [] && (b[0] as int == '+' as int || b[0] as int == '-' as int);
    var digits := if signed then b[1..] else b;
    && digits != [] && DecimalDigits(digits)
    && (if signed && b[0] as int == '-' as int then -v == Positional(digits) else v == Positional(digits))
    && -0x8000_0000_0000_0000 <= v < 0x8000_0000_0000_0000
  }

  lemma NumberExactly(b: Bytes, v: int)
    ensures Atoi(b) == Some(v) <==> Spells(b, v)
  {
    var signed := b != [] && (b[0] == PLUS || b[0] == MINUS);
    var digits := if signed then b[1..] else b;
    assert '+' as int == 43 && '-' as int == 45;
    DigitsAreDecimal(digits);
    if DecimalDigits(digits) {
      ValueIsPositional(digits);
    }
  }

  lemma {:induction false} DigitsAreShort(n: nat)
    ensures |Digits(n)| > 1 ==> Digits(n)[0] as int != '0' as int
  {
    if n >= 10 {
      DigitsAreShort(n / 10);
      if n < 100 {
        assert Digits(n / 10) == [(48 + n / 10) as byte];
      }
    }
  }

  // A number is written with a sign exactly if it is negative, and without leading zeros; it reads back.
  lemma WrittenNumber(n: int)
    requires -0x8000_0000_0000_0000 < n < 0x8000_0000_0000_0000
    ensures Spells(Itoa(n), n) && (Itoa(n)[0] as int == '-' as int <==> n < 0)
    ensures n >= 0 && |Itoa(n)| > 1 ==> Itoa(n)[0] as int != '0' as int
    ensures n < 0 && |Itoa(n)| > 2 ==> Itoa(n)[1] as int != '0' as int
  {
    var size := if n < 0 then -n else n;
    DigitsAreShort(size);
    DigitsRoundTrip(size);
    assert IsDigit(Digits(size)[0]);
    if n < 0 {
      assert Itoa(n)[1..] == Digits(size);
    }
    NumberExactly(Itoa(n), n);
  }

  // ----- Lines -----

  // Where the first line feed stands, or the end.
  function Feed(input: Bytes): (k: nat)
    ensures k <= |input| && (k < |input| ==> input[k] as int == 10)
    ensures forall i :: 0 <= i < k ==> input[i] as int != 10
  {
    if input == [] || input[0] as int == 10 then 0 else 1 + Feed(input[1..])
  }

  // Without one carriage return at the end.
  function Stripped(line: Bytes): Bytes {
    if line != [] && line[|line| - 1] as int == 13 then line[..|line| - 1] else line
  }

  lemma {:induction false} LineAfterIs(before: Bytes, input: Bytes)
    ensures LineAfter(before, input) ==
            if Feed(input) == |input| then Failed(EndOfInput)
            else Done(Stripped(before + input[..Feed(input)]), input[Feed(input) + 1..])
    decreases |input|
  {
    if input != [] {
      if input[0] == LF {
        assert before + input[..0] == before;
      } else {
        LineAfterIs(before + [input[0]], input[1..]);
        OneFurther(before, input, Feed(input[1..]));
      }
    }
  }

  lemma OneFurther(before: Bytes, input: Bytes, k: nat)
    requires input != [] && k <= |input[1..]|
    ensures (before + [input[0]]) + input[1..][..k] == before + input[..k + 1]
    ensures k < |input[1..]| ==> input[1..][k + 1..] == input[k + 2..]
  {
  }

  // A line is what comes before the first line feed, without one carriage return at its end.
  lemma LineExactly(input: Bytes)
    ensures ReadLine(input) ==
            if Feed(input) == |input| then Failed(EndOfInput)
            else Done(Stripped(input[..Feed(input)]), input[Feed(input) + 1..])
  {
    LineAfterIs([], input);
    assert [] + input[..Feed(input)] == input[..Feed(input)];
  }

  // ----- Strings and arrays -----

  // The input starts with a line that spells the number, and this comes after it.
  ghost predicate NumberAt(input: Bytes, n: int, after: Bytes) {
    Feed(input) < |input| && Spells(Stripped(input[..Feed(input)]), n) && after == input[Feed(input) + 1..]
  }

  lemma NumberIsRead(input: Bytes, n: int, after: Bytes)
    requires NumberAt(input, n, after)
    ensures ReadLine(input).Done? && ReadLine(input).rest == after && Atoi(ReadLine(input).value) == Some(n)
  {
    LineExactly(input);
    NumberExactly(Stripped(input[..Feed(input)]), n);
  }

  // '$' and a length are followed by as many bytes and a line end; a negative length stands for nothing.
  lemma BulkExactly(input: Bytes, n: int, after: Bytes)
    requires input != [] && input[0] as int == '$' as int && NumberAt(input[1..], n, after)
    ensures ReadString(input) ==
            if n < 0 then Done([], after)
            else if after == [] then Failed(EndOfInput)
            else if |after| < n + 2 then Failed(UnexpectedEnd)
            else if after[n] as int == 13 && after[n + 1] as int == 10 then Done(after[..n], after[n + 2..])
            else Failed(ProtocolError)
  {
    assert '$' as int == 36;
    NumberIsRead(input[1..], n, after);
  }

  // '+' and ':' are followed by a line; nothing else starts a string.
  lemma StringExactly(input: Bytes)
    requires input != [] && input[0] as int != '$' as int
    ensures ReadString(input) ==
            if input[0] as int == '+' as int || input[0] as int == ':' as int then ReadLine(input[1..])
            else Failed(ProtocolError)
  {
    assert '$' as int == 36 && '+' as int == 43 && ':' as int == 58;
  }

  // A '*' and a count are followed by as many strings; a negative count is an error, as is another start.
  lemma ArrayExactly(input: Bytes, n: int, after: Bytes)
    requires input != [] && NumberAt(input[1..], n, after)
    ensures ReadArray(input) ==
            if input[0] as int != '*' as int || n < 0 then Failed(ProtocolError) else ReadStrings(after, n)
  {
    assert '*' as int == 42;
    NumberIsRead(input[1..], n, after);
  }

  // Where no number stands, reading fails for the end of the input or for the protocol.
  lemma NoNumberFails(input: Bytes)
    requires input != [] && (input[0] as int == '$' as int || input[0] as int == '*' as int)
    requires forall n, after :: !NumberAt(input[1..], n, after)
    ensures (if input[0] as int == '$' as int then ReadString(input).Failed? else ReadArray(input).Failed?)
    ensures input[0] as int == '$' as int ==>
              ReadString(input) == Failed(if Feed(input[1..]) == |input[1..]| then EndOfInput else ProtocolError)
    ensures input[0] as int == '*' as int ==>
              ReadArray(input) == Failed(if Feed(input[1..]) == |input[1..]| then EndOfInput else ProtocolError)
  {
    var rest := input[1..];
    assert '$' as int == 36 && '*' as int == 42;
    LineExactly(rest);
    if Feed(rest) < |rest| && Atoi(Stripped(rest[..Feed(rest)])).Some? {
      NumberExactly(Stripped(rest[..Feed(rest)]), Atoi(Stripped(rest[..Feed(rest)])).value);
      assert NumberAt(rest, Atoi(Stripped(rest[..Feed(rest)])).value, rest[Feed(rest) + 1..]);
    }
  }

  // What is written: the mark, the number, a line end, and for strings the bytes and another one.
  lemma WrittenAs(b: Bytes, items: seq<Option<Bytes>>)
    ensures BulkString(Some(b)) == ['$' as int as byte] + Itoa(|b|) + [13, 10] + b + [13, 10]
    ensures BulkString(None) == ['$' as int as byte, '-' as int as byte, '1' as int as byte, 13, 10]
    ensures ArrayOfBulkStrings(items) == ['*' as int as byte] + Itoa(|items|) + [13, 10] + BulkStrings(items)
  {
    assert '$' as int == 36 && '*' as int == 42 && '-' as int == 45 && '1' as int == 49;
    assert Itoa(-1) == [45, 49];
  }
}
