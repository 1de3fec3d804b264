/** The wire format of the usage port: arrays of bulk strings of the Redis serialization protocol
    (RESP2), written and read back byte for byte. */
module Resp {
  import opened Text
  import opened UsageQueue

  const CR: byte := 13
  const LF: byte := 10
  const CRLF: Bytes := [13, 10]
  const STAR: byte := 42
  const DOLLAR: byte := 36
  const PLUS: byte := 43
  const MINUS: byte := 45
  const COLON: byte := 58

  // Go's int on a 64-bit machine.
  const MAX_INT := 0x7FFF_FFFF_FFFF_FFFF

  // ----- Decimal numbers -----

  predicate IsDigit(b: byte) {
    48 <= b <= 57
  }

  // strconv.Itoa.
  function Digits(n: nat): (r: Bytes)
    ensures r != [] && forall i :: 0 <= i < |r| ==> IsDigit(r[i])
  {
    if n < 10 then [(48 + n) as byte] else Digits(n / 10) + [(48 + n % 10) as byte]
  }

  function Itoa(n: int): Bytes {
    if n < 0 then [MINUS] + Digits(-n) else Digits(n)
  }

  predicate AllDigits(b: Bytes) {
    forall i :: 0 <= i < |b| ==> IsDigit(b[i])
  }

  function DigitsValue(b: Bytes): nat
    requires AllDigits(b)
  {
    if b == [] then 0 else 10 * DigitsValue(b[..|b| - 1]) + (b[|b| - 1] as int - 48)
  }

  // strconv.Atoi: an optional sign and at least one digit, in the range of int.
  function Atoi(b: Bytes): Option<int> {
    var signed := b != [] && (b[0] == PLUS || b[0] == MINUS);
    var digits := if signed then b[1..] else b;
    if digits == [] || !AllDigits(digits) then None
    else
      var size: int := DigitsValue(digits);
      var v := if signed && b[0] == MINUS then -size else size;
      if -MAX_INT - 1 <= v <= MAX_INT then Some(v) else None
  }

  lemma {:induction false} DigitsRoundTrip(n: nat)
    ensures DigitsValue(Digits(n)) == n
  {
    if n >= 10 {
      DigitsRoundTrip(n / 10);
      assert Digits(n)[..|Digits(n)| - 1] == Digits(n / 10);
    }
  }

  lemma AtoiItoa(n: nat)
    requires n <= MAX_INT
    ensures Atoi(Itoa(n)) == Some(n)
  {
    DigitsRoundTrip(n);
    assert IsDigit(Digits(n)[0]);
  }

  // ----- Writing -----

  // A payload of None is a nil slice.
  function BulkString(payload: Option<Bytes>): Bytes {
    match payload
    case None => [DOLLAR] + Itoa(-1) + CRLF
    case Some(b) => [DOLLAR] + Itoa(|b|) + CRLF + b + CRLF
  }

  function BulkStrings(items: seq<Option<Bytes>>): Bytes {
    if items == [] then [] else BulkString(items[0]) + BulkStrings(items[1..])
  }

  function ArrayOfBulkStrings(items: seq<Option<Bytes>>): Bytes {
    [STAR] + Itoa(|items|) + CRLF + BulkStrings(items)
  }

  // ----- Reading -----

  datatype ReadError = EndOfInput | UnexpectedEnd | ProtocolError

  datatype Read<T> = Done(value: T, rest: Bytes) | Failed(error: ReadError)

  // Up to the first line feed, without it and without one carriage return before it.
  function LineAfter(line: Bytes, input: Bytes): (r: Read<Bytes>)
    ensures r.Done? ==> |r.rest| < |input|
    decreases |input|
  {
    if input == [] then Failed(EndOfInput)
    else if input[0] == LF then
      Done(if line != [] && line[|line| - 1] == CR then line[..|line| - 1] else line, input[1..])
    else LineAfter(line + [input[0]], input[1..])
  }

  function ReadLine(input: Bytes): Read<Bytes> {
    LineAfter([], input)
  }

  function ReadBulk(input: Bytes): Read<Bytes> {
    match ReadLine(input)
    case Failed(e) => Failed(e)
    case Done(line, rest) =>
      match Atoi(line)
      case None => Failed(ProtocolError)
      case Some(length) =>
        if length < 0 then Done([], rest)
        else if rest == [] then Failed(EndOfInput)
        else if |rest| < length + 2 then Failed(UnexpectedEnd)
        else if rest[length] != CR || rest[length + 1] != LF then Failed(ProtocolError)
        else Done(rest[..length], rest[length + 2..])
  }

  function ReadString(input: Bytes): Read<Bytes> {
    if input == [] then Failed(EndOfInput)
    else if input[0] == DOLLAR then ReadBulk(input[1..])
    else if input[0] == PLUS || input[0] == COLON then ReadLine(input[1..])
    else Failed(ProtocolError)
  }

  function ReadStrings(input: Bytes, n: nat): (r: Read<seq<Bytes>>)
    ensures r.Done? ==> |r.rest| <= |input| && |r.value| == n
    decreases n
  {
    if n == 0 then Done([], input)
    else
      match ReadString(input)
      case Failed(e) => Failed(e)
      case Done(value, rest) =>
        match ReadStrings(rest, n - 1)
        case Failed(e) => Failed(e)
        case Done(values, rest') => Done([value] + values, rest')
  }

  // readRESPArray.
  function ReadArray(input: Bytes): (r: Read<seq<Bytes>>)
    ensures r.Done? ==> |r.rest| < |input|
  {
    if input == [] then Failed(EndOfInput)
    else if input[0] != STAR then Failed(ProtocolError)
    else
      match ReadLine(input[1..])
      case Failed(e) => Failed(e)
      case Done(line, rest) =>
        match Atoi(line)
        case None => Failed(ProtocolError)
        case Some(count) => if count < 0 then Failed(ProtocolError) else ReadStrings(rest, count)
  }

  // ----- The round trip -----

  lemma {:induction false} LineStops(line: Bytes, text: Bytes, rest: Bytes)
    requires LF !in text && CR !in text && (line != [] ==> line[|line| - 1] != CR)
    ensures LineAfter(line, text + CRLF + rest) == Done(line + text, rest)
    decreases |text|
  {
    var input := text + CRLF + rest;
    if text == [] {
      assert input[0] == CR && input[1..] == [LF] + rest;
      assert LineAfter(line + [CR], [LF] + rest) == Done((line + [CR])[..|line|], rest) by {
        assert ([LF] + rest)[1..] == rest;
      }
      assert (line + [CR])[..|line|] == line == line + text;
    } else {
      assert input[0] == text[0] && input[1..] == text[1..] + CRLF + rest;
      LineStops(line + [text[0]], text[1..], rest);
      assert line + [text[0]] + text[1..] == line + text;
    }
  }

  lemma NumberLine(n: int, rest: Bytes)
    requires -1 <= n <= MAX_INT
    ensures ReadLine(Itoa(n) + CRLF + rest) == Done(Itoa(n), rest) && Atoi(Itoa(n)) == Some(n)
  {
    if n >= 0 {
      AtoiItoa(n);
    } else {
      assert Digits(1) == [49];
      assert Itoa(-1) == [MINUS, 49];
      assert DigitsValue([49]) == 1 by { assert [49][..0] == []; }
      assert Itoa(-1)[1..] == [49];
    }
    assert LF !in Itoa(n) && CR !in Itoa(n);
    LineStops([], Itoa(n), rest);
    assert [] + Itoa(n) == Itoa(n);
  }

  // What a written item reads back as: nil and empty are the same.
  function ReadBack(item: Option<Bytes>): Bytes {
    if item.Some? then item.value else []
  }

  lemma AfterMark(mark: byte, number: Bytes, more: Bytes, rest: Bytes)
    ensures ([mark] + number + CRLF + more) + rest == [mark] + (number + CRLF + (more + rest))
    ensures ([mark] + (number + CRLF + (more + rest)))[1..] == number + CRLF + (more + rest)
  {
  }

  lemma BulkOf(b: Bytes, rest: Bytes)
    requires |b| <= MAX_INT
    ensures ReadBulk(Itoa(|b|) + CRLF + (b + CRLF + rest)) == Done(b, rest)
  {
    var after := b + CRLF + rest;
    NumberLine(|b|, after);
    assert after[..|b|] == b && after[|b| + 2..] == rest;
    assert after[|b|] == CR && after[|b| + 1] == LF;
  }

  lemma BulkRoundTrip(item: Option<Bytes>, rest: Bytes)
    requires item.Some? ==> |item.value| <= MAX_INT
    ensures ReadString(BulkString(item) + rest) == Done(ReadBack(item), rest)
  {
    match item
    case None =>
      NumberLine(-1, rest);
      AfterMark(DOLLAR, Itoa(-1), [], rest);
      assert [] + rest == rest && BulkString(item) == [DOLLAR] + Itoa(-1) + CRLF + [];
    case Some(b) =>
      BulkOf(b, rest);
      AfterMark(DOLLAR, Itoa(|b|), b + CRLF, rest);
      assert BulkString(item) == [DOLLAR] + Itoa(|b|) + CRLF + (b + CRLF);
      assert (b + CRLF) + rest == b + CRLF + rest;
  }

  function ReadBacks(items: seq<Option<Bytes>>): seq<Bytes> {
    if items == [] then [] else [ReadBack(items[0])] + ReadBacks(items[1..])
  }

  lemma BulksFirst(items: seq<Option<Bytes>>, rest: Bytes)
    requires items != []
    ensures BulkStrings(items) + rest == BulkString(items[0]) + (BulkStrings(items[1..]) + rest)
  {
  }

  lemma {:induction false} BulksRoundTrip(items: seq<Option<Bytes>>, rest: Bytes)
    requires forall i :: 0 <= i < |items| && items[i].Some? ==> |items[i].value| <= MAX_INT
    ensures ReadStrings(BulkStrings(items) + rest, |items|) == Done(ReadBacks(items), rest)
  {
    if items == [] {
      assert BulkStrings(items) + rest == rest;
    } else {
      BulkRoundTrip(items[0], BulkStrings(items[1..]) + rest);
      BulksRoundTrip(items[1..], rest);
      BulksFirst(items, rest);
    }
  }

  // Reading what was written gives the items back and leaves exactly what came after, whatever
  // bytes the payloads hold.
  lemma ArrayRoundTrip(items: seq<Option<Bytes>>, rest: Bytes)
    requires |items| <= MAX_INT
    requires forall i :: 0 <= i < |items| && items[i].Some? ==> |items[i].value| <= MAX_INT
    ensures ReadArray(ArrayOfBulkStrings(items) + rest) == Done(ReadBacks(items), rest)
  {
    NumberLine(|items|, BulkStrings(items) + rest);
    BulksRoundTrip(items, rest);
    AfterMark(STAR, Itoa(|items|), BulkStrings(items), rest);
  }

  // ----- The readers, consuming a buffered connection -----

  datatype Outcome<T> = Ok(value: T) | Err(error: ReadError)

  // r is what the function says, and what is left to read is what it leaves.
  ghost predicate Took<T>(spec: Read<T>, r: Outcome<T>, left: Bytes) {
    match spec
    case Done(value, rest) => r == Ok(value) && left == rest
    case Failed(error) => r == Err(error)
  }

  class Reader {
    var data: Bytes

    constructor (data: Bytes)
      ensures this.data == data
    {
      this.data := data;
    }

    method ReadByte() returns (b: Option<byte>)
      modifies this
      ensures old(data) == [] ==> b == None && data == []
      ensures old(data) != [] ==> b == Some(old(data)[0]) && data == old(data)[1..]
    {
      if |data| == 0 {
        return None;
      }
      b, data := Some(data[0]), data[1..];
    }

    method ReadRESPLine() returns (r: Outcome<Bytes>)
      modifies this
      ensures Took(ReadLine(old(data)), r, data)
    {
      var line: Bytes := [];
      while true
        invariant LineAfter(line, data) == ReadLine(old(data))
        decreases |data|
      {
        var b := ReadByte();
        if b.None? {
          return Err(EndOfInput);
        }
        if b.value == LF {
          if |line| > 0 && line[|line| - 1] == CR {
            line := line[..|line| - 1];
          }
          return Ok(line);
        }
        line := line + [b.value];
      }
    }

    method ReadRESPBulkString() returns (r: Outcome<Bytes>)
      modifies this
      ensures Took(ReadBulk(old(data)), r, data)
    {
      var line := ReadRESPLine();
      if line.Err? {
        return line;
      }
      var length := Atoi(line.value);
      if length.None? {
        return Err(ProtocolError);
      }
      if length.value < 0 {
        return Ok([]);
      }
      if |data| == 0 {
        return Err(EndOfInput);
      }
      if |data| < length.value + 2 {
        return Err(UnexpectedEnd);
      }
      var buf := data[..length.value + 2];
      data := data[length.value + 2..];
      if buf[length.value] != CR || buf[length.value + 1] != LF {
        return Err(ProtocolError);
      }
      ghost var rest := ReadLine(old(data)).rest;
      assert buf[..length.value] == rest[..length.value];
      return Ok(buf[..length.value]);
    }

    method ReadRESPString() returns (r: Outcome<Bytes>)
      modifies this
      ensures Took(ReadString(old(data)), r, data)
    {
      var prefix := ReadByte();
      if prefix.None? {
        return Err(EndOfInput);
      }
      if prefix.value == DOLLAR {
        r := ReadRESPBulkString();
      } else if prefix.value == PLUS || prefix.value == COLON {
        r := ReadRESPLine();
      } else {
        return Err(ProtocolError);
      }
    }

    method ReadRESPStrings(count: nat) returns (r: Outcome<seq<Bytes>>)
      modifies this
      ensures Took(ReadStrings(old(data), count), r, data)
    {
      var args: seq<Bytes> := [];
      PrefixedNone(ReadStrings(data, count));
      for i := 0 to count
        invariant |args| == i
        invariant Prefixed(args, ReadStrings(data, count - i)) == ReadStrings(old(data), count)
      {
        PrefixedStep(args, data, count - i);
        var value := ReadRESPString();
        if value.Err? {
          return Err(value.error);
        }
        args := args + [value.value];
      }
      assert args + [] == args;
      return Ok(args);
    }

    method ReadRESPArray() returns (r: Outcome<seq<Bytes>>)
      modifies this
      ensures Took(ReadArray(old(data)), r, data)
    {
      var prefix := ReadByte();
      if prefix.None? {
        return Err(EndOfInput);
      }
      if prefix.value != STAR {
        return Err(ProtocolError);
      }
      var line := ReadRESPLine();
      if line.Err? {
        return Err(line.error);
      }
      var count := Atoi(line.value);
      if count.None? || count.value < 0 {
        return Err(ProtocolError);
      }
      r := ReadRESPStrings(count.value);
    }
  }

  ghost function Prefixed(args: seq<Bytes>, more: Read<seq<Bytes>>): Read<seq<Bytes>> {
    match more
    case Done(values, rest) => Done(args + values, rest)
    case Failed(e) => Failed(e)
  }

  lemma PrefixedNone(more: Read<seq<Bytes>>)
    ensures Prefixed([], more) == more
  {
    if more.Done? {
      assert [] + more.value == more.value;
    }
  }

  lemma PrefixedStep(args: seq<Bytes>, input: Bytes, n: nat)
    requires n > 0
    ensures match ReadString(input)
            case Failed(e) => Prefixed(args, ReadStrings(input, n)) == Failed(e)
            case Done(value, rest) =>
              Prefixed(args, ReadStrings(input, n)) == Prefixed(args + [value], ReadStrings(rest, n - 1))
  {
    if ReadString(input).Done? {
      var value, rest := ReadString(input).value, ReadString(input).rest;
      var more := ReadStrings(rest, n - 1);
      if more.Done? {
        assert args + ([value] + more.value) == (args + [value]) + more.value;
      }
    }
  }
}
