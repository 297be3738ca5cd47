/** Go string helpers used by the core (`strings.TrimSpace`, `strings.ToLower`,
    `strings.ToUpper`, `strings.Split`, `strings.Join`, `strings.Index`,
    `strconv` decimal formatting and parsing). A Dafny `string` stands for a
    Go string holding valid UTF-8: one `char` per code point. */
module Text {
  import opened Wrappers

  // ---------------------------------------------------------------- spaces

  /** `unicode.IsSpace`: the six ASCII spaces, U+0085, U+00A0 and the
      Unicode space separators (category Z with the White_Space property). */
  predicate IsSpace(c: char)
  {
    var x := c as int;
    (0x09 <= x <= 0x0D) || x == 0x20 || x == 0x85 || x == 0xA0 || x == 0x1680
    || (0x2000 <= x <= 0x200A) || x == 0x2028 || x == 0x2029 || x == 0x202F
    || x == 0x205F || x == 0x3000
  }

  /** Drops the leading white space. */
  function TrimLeft(s: string): (r: string)
    ensures |r| <= |s|
  {
    if |s| > 0 && IsSpace(s[0]) then TrimLeft(s[1..]) else s
  }

  /** `TrimLeft` keeps a suffix that does not start with white space, and
      what it drops is white space. */
  lemma {:induction false} TrimLeftDropsSpaces(s: string)
    ensures var r := TrimLeft(s); r == s[|s| - |r|..] && (r == [] || !IsSpace(r[0]))
    ensures forall k :: 0 <= k < |s| - |TrimLeft(s)| ==> IsSpace(s[k])
    decreases |s|
  {
    if |s| > 0 && IsSpace(s[0]) {
      TrimLeftDropsSpaces(s[1..]);
      forall k | 1 <= k < |s| - |TrimLeft(s)| ensures IsSpace(s[k]) {
        assert s[k] == s[1..][k - 1];
      }
    }
  }

  /** Drops the trailing white space. */
  function TrimRight(s: string): (r: string)
    ensures |r| <= |s|
  {
    if |s| > 0 && IsSpace(s[|s| - 1]) then TrimRight(s[..|s| - 1]) else s
  }

  /** `TrimRight` keeps a prefix that does not end with white space, and
      what it drops is white space. */
  lemma {:induction false} TrimRightDropsSpaces(s: string)
    ensures var r := TrimRight(s); r == s[..|r|] && (r == [] || !IsSpace(r[|r| - 1]))
    ensures forall k :: |TrimRight(s)| <= k < |s| ==> IsSpace(s[k])
    decreases |s|
  {
    if |s| > 0 && IsSpace(s[|s| - 1]) {
      TrimRightDropsSpaces(s[..|s| - 1]);
      forall k | |TrimRight(s)| <= k < |s| - 1 ensures IsSpace(s[k]) {
        assert s[k] == s[..|s| - 1][k];
      }
    }
  }

  /** `strings.TrimSpace` (and `bytes.TrimSpace` on valid UTF-8). */
  function TrimSpace(s: string): (r: string)
    ensures |r| <= |s|
  {
    TrimRight(TrimLeft(s))
  }

  /** Trimming removes only white space, keeps the text between the
      first and the last non-space character in place, and leaves no
      white space at either end. */
  lemma TrimSpaceIsInfix(s: string)
    ensures var r, i := TrimSpace(s), |s| - |TrimLeft(s)|;
      i + |r| <= |s| && s[i..i + |r|] == r
      && (forall k :: 0 <= k < i ==> IsSpace(s[k]))
      && (forall k :: i + |r| <= k < |s| ==> IsSpace(s[k]))
      && (r == [] || (!IsSpace(r[0]) && !IsSpace(r[|r| - 1])))
  {
    var l := TrimLeft(s);
    var r := TrimRight(l);
    var i := |s| - |l|;
    TrimLeftDropsSpaces(s);
    TrimRightDropsSpaces(l);
    assert s[i..i + |r|] == l[..|r|];
    if r != [] {
      assert r[0] == l[0];
    }
    forall k | i + |r| <= k < |s| ensures IsSpace(s[k]) {
      assert s[k] == l[k - i];
    }
  }

  /** Text without white space at either end is left as it is; in
      particular trimming twice is trimming once. */
  lemma TrimSpaceFixed(s: string)
    requires s == [] || (!IsSpace(s[0]) && !IsSpace(s[|s| - 1]))
    ensures TrimSpace(s) == s
  {
  }

  /** Trimming twice is trimming once. */
  lemma TrimSpaceIdempotent(s: string)
    ensures TrimSpace(TrimSpace(s)) == TrimSpace(s)
  {
    TrimSpaceIsInfix(s);
    TrimSpaceFixed(TrimSpace(s));
  }

  // ---------------------------------------------------------------- case

  /** `unicode.ToLower` on the characters whose lower case is ASCII:
      A-Z, U+0130 (capital I with dot) and U+212A (Kelvin sign). Every other
      character is kept, which cannot change a comparison with ASCII text. */
  function LowerChar(c: char): char
  {
    if 'A' <= c <= 'Z' then (c as int + 32) as char
    else if c == '\U{0130}' then 'i'
    else if c == '\U{212A}' then 'k'
    else c
  }

  /** `unicode.ToUpper` on the characters whose upper case is ASCII:
      a-z, U+0131 (dotless i) and U+017F (long s). */
  function UpperChar(c: char): char
  {
    if 'a' <= c <= 'z' then (c as int - 32) as char
    else if c == '\U{0131}' then 'I'
    else if c == '\U{017F}' then 'S'
    else c
  }

  /** `strings.ToLower`: rune by rune. */
  function ToLower(s: string): (r: string)
    ensures |r| == |s| && forall k :: 0 <= k < |s| ==> r[k] == LowerChar(s[k])
  {
    seq(|s|, k requires 0 <= k < |s| => LowerChar(s[k]))
  }

  /** `strings.ToUpper`: rune by rune. */
  function ToUpper(s: string): (r: string)
    ensures |r| == |s| && forall k :: 0 <= k < |s| ==> r[k] == UpperChar(s[k])
  {
    seq(|s|, k requires 0 <= k < |s| => UpperChar(s[k]))
  }

  // ---------------------------------------------------------------- search

  /** `strings.IndexByte`/`strings.IndexRune`: the first position of `c`, or -1. */
  function IndexOf(s: string, c: char): (r: int)
    ensures -1 <= r < |s|
    ensures r == -1 <==> c !in s
    ensures r >= 0 ==> s[r] == c && c !in s[..r]
  {
    if |s| == 0 then -1
    else if s[0] == c then 0
    else var i := IndexOf(s[1..], c); if i == -1 then -1 else i + 1
  }

  /** `sub` occurs in `s` at position `k`. */
  predicate OccursAt(s: string, sub: string, k: int)
  {
    0 <= k && k + |sub| <= |s| && s[k..k + |sub|] == sub
  }

  /** `strings.Index`: the first position at which `sub` occurs, or -1. */
  function IndexOfSeq(s: string, sub: string): (r: int)
    ensures r == -1 || OccursAt(s, sub, r)
    ensures forall k :: 0 <= k && (r == -1 || k < r) ==> !OccursAt(s, sub, k)
    decreases |s|
  {
    if |s| < |sub| then -1
    else if s[..|sub|] == sub then 0
    else
      var i := IndexOfSeq(s[1..], sub);
      assert forall k :: 1 <= k ==> (OccursAt(s, sub, k) <==> OccursAt(s[1..], sub, k - 1));
      if i == -1 then -1 else i + 1
  }

  // ---------------------------------------------------------------- split, join

  /** `strings.Split` with a one-character separator: never empty, and
      `Split("", c) == [""]`. */
  function Split(s: string, c: char): (r: seq<string>)
    ensures |r| >= 1
    ensures forall k :: 0 <= k < |r| ==> c !in r[k]
    decreases |s|
  {
    var i := IndexOf(s, c);
    if i == -1 then [s] else [s[..i]] + Split(s[i + 1..], c)
  }

  /** `strings.Join` with a one-character separator. */
  function Join(parts: seq<string>, c: char): (r: string)
  {
    if |parts| == 0 then ""
    else if |parts| == 1 then parts[0]
    else parts[0] + [c] + Join(parts[1..], c)
  }

  /** Splitting and joining again on the same separator is the identity. */
  lemma {:induction false} JoinSplit(s: string, c: char)
    ensures Join(Split(s, c), c) == s
    decreases |s|
  {
    var i := IndexOf(s, c);
    if i != -1 {
      var rest := s[i + 1..];
      SplitAround(s, i);
      JoinSplit(rest, c);
      var tail := Split(rest, c);
      var parts := [s[..i]] + tail;
      assert Split(s, c) == parts;
      assert parts[0] == s[..i] && parts[1..] == tail;
      assert Join(parts, c) == s[..i] + [s[i]] + Join(tail, c);
    }
  }

  /** A string is the part before position `i`, the character there and
      the part after. */
  lemma SplitAround(s: string, i: nat)
    requires i < |s|
    ensures s == s[..i] + [s[i]] + s[i + 1..]
  {
  }

  /** Joining pieces free of the separator and splitting again gives the pieces back. */
  lemma {:induction false} SplitJoin(parts: seq<string>, c: char)
    requires |parts| >= 1
    requires forall k :: 0 <= k < |parts| ==> c !in parts[k]
    ensures Split(Join(parts, c), c) == parts
  {
    if |parts| > 1 {
      var p := parts[0];
      var rest := Join(parts[1..], c);
      var s := p + [c] + rest;
      assert s[..|p|] == p;
      assert c !in s[..|p|];
      assert s[|p|] == c;
      assert IndexOf(s, c) == |p| by { IndexOfFirst(s, c, |p|); }
      assert s[|p| + 1..] == rest;
      SplitJoin(parts[1..], c);
    }
  }

  lemma IndexOfFirst(s: string, c: char, i: nat)
    requires i < |s| && s[i] == c && c !in s[..i]
    ensures IndexOf(s, c) == i
  {
  }

  // ---------------------------------------------------------------- numbers

  function DigitChar(d: nat): char
    requires d < 10
  {
    ('0' as int + d) as char
  }

  predicate IsDigit(c: char) { '0' <= c <= '9' }

  /** `strconv.FormatInt(n, 10)` / `fmt.Sprintf("%v", n)` for a non-negative n. */
  function NatToString(n: nat): (r: string)
    ensures |r| >= 1
    ensures forall k :: 0 <= k < |r| ==> IsDigit(r[k])
    ensures n > 0 ==> r[0] != '0'
  {
    if n < 10 then [DigitChar(n)] else NatToString(n / 10) + [DigitChar(n % 10)]
  }

  /** The value of a string of decimal digits. */
  function DecimalValue(s: string): (r: nat)
    requires forall k :: 0 <= k < |s| ==> IsDigit(s[k])
  {
    if |s| == 0 then 0
    else
      assert IsDigit(s[|s| - 1]);
      10 * DecimalValue(s[..|s| - 1]) + (s[|s| - 1] as int - '0' as int)
  }

  /** Formatting a number and reading it back gives the number. */
  lemma {:induction false} DecimalRoundTrip(n: nat)
    ensures DecimalValue(NatToString(n)) == n
  {
    if n >= 10 {
      DecimalRoundTrip(n / 10);
      var s := NatToString(n);
      assert s[..|s| - 1] == NatToString(n / 10);
    }
  }

  const MinInt32: int := -0x8000_0000
  const MaxInt32: int := 0x7FFF_FFFF

  predicate AllDigits(s: string) { |s| > 0 && forall k :: 0 <= k < |s| ==> IsDigit(s[k]) }

  /** `strconv.ParseInt(s, 10, 32)`: an optional sign and at least one decimal
      digit; a syntax error otherwise, and a range error outside 32 bits. */
  function ParseInt32(s: string): (r: Result<int>)
    ensures r.Ok? ==> MinInt32 <= r.value <= MaxInt32
    ensures r.Ok? <==>
      (AllDigits(s) && DecimalValue(s) <= MaxInt32)
      || (|s| > 0 && s[0] == '+' && AllDigits(s[1..]) && DecimalValue(s[1..]) <= MaxInt32)
      || (|s| > 0 && s[0] == '-' && AllDigits(s[1..]) && DecimalValue(s[1..]) <= -MinInt32)
    ensures r.Ok? && AllDigits(s) ==> r.value == DecimalValue(s)
    ensures r.Ok? && |s| > 0 && s[0] == '+' ==> AllDigits(s[1..]) && r.value == DecimalValue(s[1..])
    ensures r.Ok? && |s| > 0 && s[0] == '-' ==> AllDigits(s[1..]) && r.value == -(DecimalValue(s[1..]) as int)
  {
    if |s| == 0 then Err(Error("strconv.ParseInt: parsing \"\": invalid syntax"))
    else
      var neg := s[0] == '-';
      var digits := if s[0] == '+' || s[0] == '-' then s[1..] else s;
      if !AllDigits(digits) then Err(Error("strconv.ParseInt: invalid syntax"))
      else
        var u := DecimalValue(digits);
        if !neg && u > MaxInt32 then Err(Error("strconv.ParseInt: value out of range"))
        else if neg && u > -MinInt32 then Err(Error("strconv.ParseInt: value out of range"))
        else Ok(if neg then -(u as int) else u as int)
  }

  /** Every 32-bit value that `fmt` prints without a sign parses back. */
  lemma ParseInt32Formatted(n: nat)
    requires n <= MaxInt32
    ensures ParseInt32(NatToString(n)) == Ok(n)
  {
    DecimalRoundTrip(n);
  }

  /** A formatted magnitude down to -2^31, behind a minus sign, reads back
      as its negation. */
  lemma ParseInt32FormattedNegative(n: nat)
    requires n <= -MinInt32
    ensures ParseInt32("-" + NatToString(n)) == Ok(-(n as int))
  {
    assert ("-" + NatToString(n))[1..] == NatToString(n);
    DecimalRoundTrip(n);
  }

  // ---------------------------------------------------------------- order

  /** Go's string order (`<=` on strings, used by `sort.Strings`): lexicographic
      on bytes, which for UTF-8 agrees with code-point order. */
  predicate Below(a: string, b: string)
  {
    |a| == 0 || (|b| != 0 && (a[0] < b[0] || (a[0] == b[0] && Below(a[1..], b[1..]))))
  }

  lemma {:induction false} BelowAntisymmetric(a: string, b: string)
    requires Below(a, b) && Below(b, a)
    ensures a == b
  {
    if |a| != 0 && |b| != 0 {
      BelowAntisymmetric(a[1..], b[1..]);
      assert a == [a[0]] + a[1..] && b == [b[0]] + b[1..];
    }
  }

  lemma {:induction false} BelowTransitive(a: string, b: string, c: string)
    requires Below(a, b) && Below(b, c)
    ensures Below(a, c)
  {
    if |a| != 0 && |b| != 0 && |c| != 0 && a[0] == b[0] == c[0] {
      BelowTransitive(a[1..], b[1..], c[1..]);
    }
  }

  lemma {:induction false} BelowTotal(a: string, b: string)
    ensures Below(a, b) || Below(b, a)
  {
    if |a| != 0 && |b| != 0 && a[0] == b[0] {
      BelowTotal(a[1..], b[1..]);
    }
  }

  /** `m` is the least element of `s`. */
  predicate IsLeast(m: string, s: set<string>)
  {
    m in s && forall k :: k in s ==> Below(m, k)
  }

  /** Every non-empty finite set of strings has a least element. */
  lemma {:induction false} HasLeast(s: set<string>) returns (m: string)
    requires s != {}
    ensures IsLeast(m, s)
    decreases |s|
  {
    var x :| x in s;
    if s == {x} {
      BelowTotal(x, x);
      return x;
    }
    var rest := s - {x};
    var r := HasLeast(rest);
    BelowTotal(r, x);
    if Below(r, x) {
      forall k | k in s ensures Below(r, k) {
        if k != x { assert k in rest; }
      }
      return r;
    }
    forall k | k in s ensures Below(x, k) {
      if k != x { BelowTransitive(x, r, k); } else { BelowTotal(x, x); }
    }
    return x;
  }

  lemma LeastExists(s: set<string>)
    requires s != {}
    ensures exists m :: IsLeast(m, s)
  {
    var m := HasLeast(s);
  }

  predicate SortedStrictly(r: seq<string>)
  {
    forall i, j :: 0 <= i < j < |r| ==> Below(r[i], r[j]) && r[i] != r[j]
  }

  /** The least string of a non-empty set. */
  function Least(s: set<string>): (m: string)
    requires s != {}
    ensures m in s && forall k :: k in s ==> Below(m, k)
  {
    LeastExists(s);
    LeastUnique(s);
    var m :| IsLeast(m, s);
    m
  }

  lemma LeastUnique(s: set<string>)
    ensures forall m, m' :: IsLeast(m, s) && IsLeast(m', s) ==> m == m'
  {
    forall m, m' | IsLeast(m, s) && IsLeast(m', s)
      ensures m == m'
    {
      BelowAntisymmetric(m, m');
    }
  }

  /** Putting the least element of a set in front of the sorted rest of
      it keeps the order strict. */
  lemma LeastFirst(s: set<string>, m: string, rest: seq<string>)
    requires m in s && forall k :: k in s ==> Below(m, k)
    requires forall i :: 0 <= i < |rest| ==> rest[i] in s - {m}
    requires SortedStrictly(rest)
    ensures SortedStrictly([m] + rest)
  {
    var r := [m] + rest;
    forall i, j | 0 <= i < j < |r| ensures Below(r[i], r[j]) && r[i] != r[j] {
      if i > 0 {
        assert r[i] == rest[i - 1] && r[j] == rest[j - 1];
      } else {
        assert r[j] == rest[j - 1];
      }
    }
  }

  /** The keys of a set in Go's sorted order (`sort.Strings`). */
  function SortedKeys(s: set<string>): (r: seq<string>)
    ensures |r| == |s|
    ensures forall i :: 0 <= i < |r| ==> r[i] in s
    ensures forall k :: k in s ==> k in r
    ensures SortedStrictly(r)
    decreases |s|
  {
    if s == {} then []
    else
      var m := Least(s);
      var rest := SortedKeys(s - {m});
      LeastFirst(s, m, rest);
      [m] + rest
  }
}
