/**
 The primitive readers and writers of amqp/readers_writers.go. A reader is the
 sequence of bytes it has left; a read either fails or gives a value and the rest.
 */
module Bytes {
  import opened Words

  type Byte = x: int | 0 <= x < 256 witness 0

  datatype Read<+T> = Err | Ok(value: T, rest: seq<Byte>)

  function Pow(base: nat, n: nat): nat {
    if n == 0 then 1 else base * Pow(base, n - 1)
  }

  /** n bytes, most significant first; what does not fit is cut off, as by a Go conversion. */
  function Be(v: nat, n: nat): (s: seq<Byte>)
    ensures |s| == n
  {
    if n == 0 then [] else Be(v / 256, n - 1) + [v % 256]
  }

  function FromBe(s: seq<Byte>): nat {
    if s == [] then 0 else 256 * FromBe(s[..|s| - 1]) + s[|s| - 1]
  }

  lemma {:induction false} BeRoundTrip(v: nat, n: nat)
    requires v < Pow(256, n)
    ensures FromBe(Be(v, n)) == v
  {
    if n > 0 {
      BeRoundTrip(v / 256, n - 1);
      var s := Be(v, n);
      assert s[..n - 1] == Be(v / 256, n - 1);
    }
  }

  lemma {:induction false} FromBeBounded(s: seq<Byte>)
    ensures FromBe(s) < Pow(256, |s|)
  {
    if s != [] { FromBeBounded(s[..|s| - 1]); }
  }

  function ReadUint(b: seq<Byte>, n: nat): (r: Read<nat>)
    ensures r.Ok? ==> |b| == |r.rest| + n && r.value < Pow(256, n)
  {
    if |b| < n then Err else
    FromBeBounded(b[..n]);
    Ok(FromBe(b[..n]), b[n..])
  }

  lemma ReadUintOfBe(v: nat, n: nat, rest: seq<Byte>)
    requires v < Pow(256, n)
    ensures ReadUint(Be(v, n) + rest, n) == Ok(v, rest)
  {
    BeRoundTrip(v, n);
    assert (Be(v, n) + rest)[..n] == Be(v, n) && (Be(v, n) + rest)[n..] == rest;
  }

  type U16 = x: int | 0 <= x < WORD16
  type U32 = x: int | 0 <= x < WORD32
  type U64 = x: int | 0 <= x < WORD64
  type I8 = x: int | -0x80 <= x < 0x80
  type I16 = x: int | -0x8000 <= x < 0x8000
  type I32 = x: int | -0x8000_0000 <= x < 0x8000_0000
  type I64 = x: int | -0x8000_0000_0000_0000 <= x < 0x8000_0000_0000_0000

  lemma Powers()
    ensures Pow(256, 1) == WORD8 && Pow(256, 2) == WORD16 && Pow(256, 4) == WORD32 && Pow(256, 8) == WORD64
  {
    assert Pow(256, 1) == 256 * Pow(256, 0);
    assert Pow(256, 2) == 256 * Pow(256, 1);
    assert Pow(256, 3) == 256 * Pow(256, 2);
    assert Pow(256, 4) == 256 * Pow(256, 3);
    assert Pow(256, 5) == 256 * Pow(256, 4);
    assert Pow(256, 6) == 256 * Pow(256, 5);
    assert Pow(256, 7) == 256 * Pow(256, 6);
    assert Pow(256, 8) == 256 * Pow(256, 7);
  }

  /** Reading n bytes as they are. */
  function ReadBytes(b: seq<Byte>, n: nat): Read<seq<Byte>> {
    if |b| < n then Err else Ok(b[..n], b[n..])
  }

  lemma ReadBytesOf(s: seq<Byte>, rest: seq<Byte>)
    ensures ReadBytes(s + rest, |s|) == Ok(s, rest)
  {
    assert (s + rest)[..|s|] == s && (s + rest)[|s|..] == rest;
  }

  // ---------------------------------------------------------------- strings

  /** The length octet is byte(len(data)). */
  function WriteShortstr(s: seq<Byte>): seq<Byte> {
    [|s| % WORD8] + s
  }

  function ReadShortstr(b: seq<Byte>): (r: Read<seq<Byte>>)
    ensures r.Ok? ==> |r.rest| < |b|
  {
    if b == [] then Err else ReadBytes(b[1..], b[0])
  }

  function WriteLongstr(s: seq<Byte>): seq<Byte> {
    Be(|s|, 4) + s
  }

  function ReadLongstr(b: seq<Byte>): (r: Read<seq<Byte>>)
    ensures r.Ok? ==> |r.value| + |r.rest| + 4 == |b|
  {
    var n := ReadUint(b, 4);
    if n.Err? then Err else ReadBytes(n.rest, n.value)
  }

  /** A short string survives exactly when its length fits the octet. */
  lemma ShortstrRoundTripIff(s: seq<Byte>, rest: seq<Byte>)
    ensures ReadShortstr(WriteShortstr(s) + rest) == Ok(s, rest) <==> |s| < WORD8
  {
    var b := WriteShortstr(s) + rest;
    assert b[1..] == s + rest && b[0] == |s| % WORD8;
    if |s| < WORD8 {
      ReadBytesOf(s, rest);
    } else {
      assert |(s + rest)[..|s| % WORD8]| == |s| % WORD8;
    }
  }

  lemma LongstrRoundTrip(s: seq<Byte>, rest: seq<Byte>)
    requires |s| < WORD32
    ensures ReadLongstr(WriteLongstr(s) + rest) == Ok(s, rest)
  {
    Powers();
    ReadUintOfBe(|s|, 4, s + rest);
    assert WriteLongstr(s) + rest == Be(|s|, 4) + (s + rest);
    ReadBytesOf(s, rest);
  }

  // ---------------------------------------------------------------- signed integers

  /** Two's complement bits of a signed or unsigned value of a given range. */
  function ToBits(x: int, modulus: nat): nat
    requires -(modulus as int) <= x
  {
    if x < 0 then x + modulus else x
  }

  /** Two's complement reading of an unsigned value. */
  function ToSigned(u: nat, modulus: nat): int {
    if 2 * u < modulus then u else u - modulus
  }

  // ---------------------------------------------------------------- single bits

  predicate BitAt(b: nat, i: nat) {
    if i == 0 then b % 2 == 1 else BitAt(b / 2, i - 1)
  }

  /** b | (1 << i) */
  function SetBit(b: nat, i: nat): nat {
    if i == 0 then (if b % 2 == 1 then b else b + 1) else 2 * SetBit(b / 2, i - 1) + b % 2
  }

  lemma {:induction false} SetBitSets(b: nat, i: nat, j: nat)
    ensures BitAt(SetBit(b, i), j) <==> i == j || BitAt(b, j)
  {
    if i > 0 && j > 0 {
      SetBitSets(b / 2, i - 1, j - 1);
      assert SetBit(b, i) / 2 == SetBit(b / 2, i - 1);
    } else if i == 0 && j > 0 {
      assert SetBit(b, i) / 2 == b / 2;
    }
  }

  lemma {:induction false} SetBitBounded(b: nat, i: nat, n: nat)
    requires b < Pow(2, n) && i < n
    ensures SetBit(b, i) < Pow(2, n)
  {
    assert Pow(2, n) == 2 * Pow(2, n - 1);
    if i > 0 {
      assert b / 2 < Pow(2, n - 1);
      SetBitBounded(b / 2, i - 1, n - 1);
    }
  }

  lemma {:induction false} NoBits(i: nat)
    ensures !BitAt(0, i)
  {
    if i > 0 { NoBits(i - 1); }
  }
}
