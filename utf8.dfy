/** UTF-8 as Go's `unicode/utf8` package handles it (RFC 3629): the encoder
    used by `bytes.Buffer.WriteRune` and the rune counter
    `utf8.RuneCountInString`, which counts every byte that does not start a
    well-formed sequence as one rune of its own. */
module Utf8 {

  /** One byte of a Go string. */
  type Byte = b: int | 0 <= b < 256

  const RuneError: nat := 0xFFFD
  const MaxRune: nat := 0x10FFFF

  predicate IsSurrogate(r: int) { 0xD800 <= r <= 0xDFFF }

  /** `utf8.EncodeRune`: values above U+10FFFF and surrogate halves are
      written as U+FFFD. */
  function EncodeRune(r: nat): (b: seq<Byte>)
    ensures 1 <= |b| <= 4
    ensures r <= 0x7F ==> b == [r]
    ensures (r > MaxRune || IsSurrogate(r)) ==> b == [0xEF, 0xBF, 0xBD]
  {
    if r <= 0x7F then [r]
    else if r <= 0x7FF then [0xC0 + r / 64, 0x80 + r % 64]
    else if r > MaxRune || IsSurrogate(r) then [0xEF, 0xBF, 0xBD]
    else if r <= 0xFFFF then [0xE0 + r / 4096, 0x80 + (r / 64) % 64, 0x80 + r % 64]
    else [0xF0 + r / 262144, 0x80 + (r / 4096) % 64, 0x80 + (r / 64) % 64, 0x80 + r % 64]
  }

  /** The UTF-8 bytes of a Dafny string (every `char` is a Unicode scalar value). */
  function Encode(s: string): (b: seq<Byte>)
    ensures |b| >= |s|
  {
    if |s| == 0 then [] else EncodeRune(s[0] as int) + Encode(s[1..])
  }

  predicate InRange(c: Byte, lo: int, hi: int) { lo <= c <= hi }

  /** How many bytes `utf8.RuneCountInString` consumes for the rune that
      starts `s`: the length of a well-formed sequence there, else 1. */
  function RuneWidth(s: seq<Byte>): (w: nat)
    requires |s| > 0
    ensures 1 <= w <= |s| && w <= 4
  {
    var c := s[0];
    if c < 0x80 || c < 0xC2 || c > 0xF4 then 1
    else
      var size := if c < 0xE0 then 2 else if c < 0xF0 then 3 else 4;
      var lo := if c == 0xE0 then 0xA0 else if c == 0xF0 then 0x90 else 0x80;
      var hi := if c == 0xED then 0x9F else if c == 0xF4 then 0x8F else 0xBF;
      if |s| < size then 1
      else if !InRange(s[1], lo, hi) then 1
      else if size == 2 then 2
      else if !InRange(s[2], 0x80, 0xBF) then 1
      else if size == 3 then 3
      else if !InRange(s[3], 0x80, 0xBF) then 1
      else 4
  }

  /** `utf8.RuneCountInString`. */
  function RuneCount(s: seq<Byte>): (n: nat)
    ensures n <= |s|
    ensures |s| > 0 ==> n > 0
    decreases |s|
  {
    if |s| == 0 then 0 else 1 + RuneCount(s[RuneWidth(s)..])
  }

  /** The counter reads an encoded rune back as exactly one rune of its
      encoded length, whatever follows it. */
  lemma EncodedRuneWidth(r: nat, rest: seq<Byte>)
    ensures RuneWidth(EncodeRune(r) + rest) == |EncodeRune(r)|
  {
    if r <= 0x7F {
    } else if r <= 0x7FF {
      assert 2 <= r / 64 < 32;
    } else if r > MaxRune || IsSurrogate(r) {
    } else if r <= 0xFFFF {
      ThreeByteWidth(r, rest);
    } else {
      FourByteWidth(r, rest);
    }
  }

  lemma ThreeByteWidth(r: nat, rest: seq<Byte>)
    requires 0x800 <= r <= 0xFFFF && !IsSurrogate(r)
    ensures RuneWidth(EncodeRune(r) + rest) == 3
  {
    var b := EncodeRune(r) + rest;
    assert b[..3] == [0xE0 + r / 4096, 0x80 + (r / 64) % 64, 0x80 + r % 64];
    assert r < 0x1000 ==> (r / 64) % 64 >= 32;
    assert 0xD000 <= r < 0xE000 ==> (r / 64) % 64 < 32;
  }

  lemma FourByteWidth(r: nat, rest: seq<Byte>)
    requires 0x10000 <= r <= MaxRune
    ensures RuneWidth(EncodeRune(r) + rest) == 4
  {
    var b := EncodeRune(r) + rest;
    assert b[..4] == [0xF0 + r / 262144, 0x80 + (r / 4096) % 64, 0x80 + (r / 64) % 64, 0x80 + r % 64];
    assert 0 <= r / 262144 <= 4;
    assert r < 0x40000 ==> (r / 4096) % 64 >= 16;
    assert r >= 0x100000 ==> (r / 4096) % 64 < 16;
  }

  /** Counting the runes of an encoded string gives its number of
      characters, not its number of bytes. */
  lemma {:induction false} RuneCountOfEncode(s: string)
    ensures RuneCount(Encode(s)) == |s|
  {
    if |s| > 0 {
      var e := EncodeRune(s[0] as int);
      EncodedRuneWidth(s[0] as int, Encode(s[1..]));
      assert (e + Encode(s[1..]))[|e|..] == Encode(s[1..]);
      RuneCountOfEncode(s[1..]);
    }
  }

  /** ASCII text is encoded byte for byte. */
  lemma {:induction false} EncodeAscii(s: string)
    requires forall k :: 0 <= k < |s| ==> s[k] as int <= 0x7F
    ensures |Encode(s)| == |s| && forall k :: 0 <= k < |s| ==> Encode(s)[k] == s[k] as int
  {
    if |s| > 0 {
      EncodeAscii(s[1..]);
    }
  }

  /** Encoding distributes over concatenation. */
  lemma {:induction false} EncodeAppend(a: string, b: string)
    ensures Encode(a + b) == Encode(a) + Encode(b)
  {
    if |a| > 0 {
      assert (a + b)[1..] == a[1..] + b;
      EncodeAppend(a[1..], b);
    } else {
      assert a + b == b;
    }
  }
}
