/** The string, path and map helpers of utils/utils.go that the moderation
    core and the OAuth 2.0 client rely on. */
module Utils {
  import opened Wrappers
  import opened Text
  import opened Utf8
  import Maps

  // ------------------------------------------------------------ StringUtils

  /** The 0x1E ("record separator") byte that marks a cleared StringUtils. */
  const Sentinel: string := [0x1E as char]

  /** `type StringUtils string`: a string with an "absent" state encoded by
      the sentinel. Set and Clear have pointer receivers and overwrite it. */
  class StringUtils {
    var value: string

    constructor (s: string)
      ensures value == s
    {
      value := s;
    }

    /** `Exist`: anything but the sentinel, the empty string included. */
    function Exist(): (b: bool)
      reads this
      ensures b <==> value != Sentinel
    {
      value != Sentinel
    }

    /** `String`: the stored text, or "" once cleared. */
    function String(): (r: string)
      reads this
      ensures r == "" || r == value
      ensures r != value <==> value == Sentinel
    {
      if Exist() then value else ""
    }

    /** `Clear`: stores the sentinel. */
    method Clear()
      modifies this
      ensures !Exist() && String() == ""
      ensures value == Sentinel
    {
      value := Sentinel;
    }

    /** `Set`: the empty string clears; anything else is stored as given, so
        only the sentinel itself does not read back. */
    method Set(v: string)
      modifies this
      ensures v == "" ==> value == Sentinel
      ensures v != "" ==> value == v
      ensures Exist() <==> v != "" && v != Sentinel
      ensures String() == if v == Sentinel then "" else v
    {
      if v != "" {
        value := v;
      } else {
        Clear();
      }
    }
  }

  // ------------------------------------------------------- \uXXXX unescaper

  const Backslash: Byte := 0x5C
  const LowerU: Byte := 0x75

  /** The value of one hex digit as `strconv.ParseUint(_, 16, _)` reads it. */
  function HexDigit(b: Byte): Option<nat>
  {
    if 0x30 <= b <= 0x39 then Some(b - 0x30)
    else if 0x61 <= b <= 0x66 then Some(b - 0x61 + 10)
    else if 0x41 <= b <= 0x46 then Some(b - 0x41 + 10)
    else None
  }

  /** `strconv.ParseUint(h, 16, 64)` on exactly four bytes: no sign, no
      prefix, no underscore. */
  function Hex4(h: seq<Byte>): (r: Option<nat>)
    requires |h| == 4
    ensures r.Some? ==> r.value < 0x10000
  {
    match (HexDigit(h[0]), HexDigit(h[1]), HexDigit(h[2]), HexDigit(h[3]))
    case (Some(a), Some(b), Some(c), Some(d)) =>
      if a < 16 && b < 16 && c < 16 && d < 16 then Some(((a * 16 + b) * 16 + c) * 16 + d) else None
    case _ => None
  }

  /** Four bytes parse exactly when each is a hex digit, to the base-16
      number they spell, most significant digit first. */
  lemma Hex4Digits(h: seq<Byte>)
    requires |h| == 4
    ensures Hex4(h).None? <==> exists j :: 0 <= j < 4 && HexDigit(h[j]).None?
    ensures Hex4(h).Some? ==>
      Hex4(h).value == ((HexDigit(h[0]).value * 16 + HexDigit(h[1]).value) * 16 + HexDigit(h[2]).value) * 16 + HexDigit(h[3]).value
  {
  }

  /** What an escape `\uXXXX` (six bytes) becomes: the UTF-8 encoding of
      the code point (U+FFFD for a surrogate half) when the four bytes are
      hex digits, else the six bytes themselves. */
  function EscapePiece(e: seq<Byte>): seq<Byte>
    requires |e| == 6
  {
    match Hex4(e[2..6])
    case Some(v) => EncodeRune(v)
    case None => e
  }

  /** What `HTMLUnicodeToHTMLString` produces from `s`: at each position,
      fewer than six bytes left are copied as they are; a backslash and a
      `u` start an escape of six bytes; any other byte is copied. */
  function Unescaped(s: seq<Byte>): (r: seq<Byte>)
    decreases |s|
  {
    if |s| < 6 then s
    else if s[0] == Backslash && s[1] == LowerU then EscapePiece(s[..6]) + Unescaped(s[6..])
    else [s[0]] + Unescaped(s[1..])
  }

  /** The scan at position `i` meets an escape: it is replaced and the scan
      goes on six bytes later. */
  lemma EscapeStep(s: seq<Byte>, i: nat, buf: seq<Byte>, piece: seq<Byte>)
    requires i + 6 <= |s| && s[i] == Backslash && s[i + 1] == LowerU
    requires var r := Hex4(s[i + 2..i + 6]); piece == if r.Some? then EncodeRune(r.value) else s[i..i + 6]
    ensures buf + Unescaped(s[i..]) == (buf + piece) + Unescaped(s[i + 6..])
  {
    assert s[i..][6..] == s[i + 6..] && s[i..][..6] == s[i..i + 6];
    assert s[i..i + 6][2..6] == s[i + 2..i + 6];
  }

  /** The scan at position `i`, six or more bytes before the end, meets
      no escape: the byte is copied and the scan goes on at the next one. */
  lemma CopyStep(s: seq<Byte>, i: nat, buf: seq<Byte>)
    requires i + 6 <= |s| && !(s[i] == Backslash && s[i + 1] == LowerU)
    ensures buf + Unescaped(s[i..]) == (buf + [s[i]]) + Unescaped(s[i + 1..])
  {
    assert s[i..][1..] == s[i + 1..];
  }

  /** `HTMLUnicodeToHTMLString`: the index loop over the bytes into a buffer. */
  method HTMLUnicodeToHTMLString(s: seq<Byte>) returns (out: seq<Byte>)
    ensures out == Unescaped(s)
  {
    var buf: seq<Byte> := [];
    var i, j := 0, |s|;
    while i < j
      invariant 0 <= i <= j == |s|
      invariant buf + Unescaped(s[i..]) == Unescaped(s)
      decreases j - i
    {
      var x := i + 6;
      if x > j {
        buf := buf + s[i..];
        i := j;
        break;
      }
      if s[i] == Backslash && s[i + 1] == LowerU {
        var r := Hex4(s[i + 2..x]);
        var piece := if r.Some? then EncodeRune(r.value) else s[i..x];
        EscapeStep(s, i, buf, piece);
        buf := buf + piece;
        i := x;
      } else {
        CopyStep(s, i, buf);
        buf := buf + [s[i]];
        i := i + 1;
      }
    }
    assert s[j..] == [];
    out := buf;
  }

  /** Text without a backslash comes back unchanged. */
  lemma {:induction false} UnescapedNoBackslash(s: seq<Byte>)
    requires Backslash !in s
    ensures Unescaped(s) == s
    decreases |s|
  {
    if |s| >= 6 {
      assert s[0] in s;
      assert forall b :: b in s[1..] ==> b in s;
      UnescapedNoBackslash(s[1..]);
    }
  }

  /** The ASCII bytes of a hex digit (upper-case letters) for a value below 16. */
  function HexByte(d: nat): Byte
    requires d < 16
  {
    if d < 10 then 0x30 + d else 0x41 + d - 10
  }

  /** `\uXXXX` for a code point of the Basic Multilingual Plane, most
      significant digit first. */
  function EscapeRune(v: nat): (r: seq<Byte>)
    requires v < 0x10000
    ensures |r| == 6
  {
    var q1 := v / 16;
    var q2 := q1 / 16;
    [Backslash, LowerU, HexByte(q2 / 16), HexByte(q2 % 16), HexByte(q1 % 16), HexByte(v % 16)]
  }

  /** Every BMP character of a string written as `\uXXXX`. */
  function EscapeAll(s: string): (r: seq<Byte>)
    requires forall k :: 0 <= k < |s| ==> s[k] as int < 0x10000
  {
    if |s| == 0 then [] else EscapeRune(s[0] as int) + EscapeAll(s[1..])
  }

  lemma HexDigitOfHexByte(d: nat)
    requires d < 16
    ensures HexDigit(HexByte(d)) == Some(d)
  {
  }

  lemma HexRoundTrip(v: nat)
    requires v < 0x10000
    ensures Hex4(EscapeRune(v)[2..6]) == Some(v)
  {
    var q1 := v / 16;
    var q2 := q1 / 16;
    HexDigitOfHexByte(q2 / 16);
    HexDigitOfHexByte(q2 % 16);
    HexDigitOfHexByte(q1 % 16);
    HexDigitOfHexByte(v % 16);
    assert v == q1 * 16 + v % 16;
    assert q1 == q2 * 16 + q1 % 16;
    assert q2 == (q2 / 16) * 16 + q2 % 16;
  }

  /** Unescaping text written entirely as `\uXXXX` escapes gives the UTF-8
      encoding of the characters escaped. */
  lemma {:induction false} UnescapeEscapeAll(s: string)
    requires forall k :: 0 <= k < |s| ==> s[k] as int < 0x10000
    ensures Unescaped(EscapeAll(s)) == Encode(s)
  {
    if |s| > 0 {
      var e := EscapeRune(s[0] as int);
      var rest := EscapeAll(s[1..]);
      HexRoundTrip(s[0] as int);
      assert (e + rest)[..6] == e && (e + rest)[6..] == rest;
      UnescapeEscapeAll(s[1..]);
    }
  }

  // ------------------------------------------------------------ project dir

  /** Drops every trailing `c` (`strings.TrimRight` with a one-byte cutset). */
  function TrimRightChar(s: string, c: char): (r: string)
    ensures |r| <= |s| && r == s[..|r|]
    ensures r == [] || r[|r| - 1] != c
    ensures forall k :: |r| <= k < |s| ==> s[k] == c
  {
    if |s| > 0 && s[|s| - 1] == c then TrimRightChar(s[..|s| - 1], c) else s
  }

  /** `GetProjectDir` from the binary's directory: split and re-join on the
      path separator, cut at the first `sep + "src"`, drop trailing
      separators. The result is the longest prefix of the part before the
      cut that does not end in a separator. */
  function ProjectDir(binDir: string, sep: char): (r: string)
    ensures |r| <= |binDir| && r == binDir[..|r|]
    ensures r == [] || r[|r| - 1] != sep
    ensures forall k :: 0 <= k < |r| ==> !OccursAt(binDir, [sep] + "src", k)
    ensures var i := IndexOfSeq(binDir, [sep] + "src");
      var cutAt := if i == -1 then |binDir| else i;
      |r| <= cutAt <= |binDir| && forall k :: |r| <= k < cutAt ==> binDir[k] == sep
  {
    var dirs := Split(binDir, sep);
    JoinSplit(binDir, sep);
    var pjtPath := Join(dirs, sep);
    var srcIndex := IndexOfSeq(pjtPath, [sep] + "src");
    var cutAt := if srcIndex != -1 then srcIndex else |pjtPath|;
    TrimmedPrefix(pjtPath, sep, cutAt);
    TrimRightChar(pjtPath[..cutAt], sep)
  }

  /** Trimming a prefix of `s` keeps a prefix of `s`; what it drops are
      separators of `s`. */
  lemma TrimmedPrefix(s: string, c: char, n: nat)
    requires n <= |s|
    ensures var r := TrimRightChar(s[..n], c);
      |r| <= n && r == s[..|r|] && forall k :: |r| <= k < n ==> s[k] == c
  {
    var r := TrimRightChar(s[..n], c);
    assert forall k :: |r| <= k < n ==> s[..n][k] == c;
  }

  /** `ArrayPath`: path elements joined with the separator. */
  function ArrayPath(parts: seq<string>, sep: char): string
  {
    Join(parts, sep)
  }

  // ----------------------------------------------------------- cache buster

  const MaxInt64: int := 0x7FFF_FFFF_FFFF_FFFF
  const MinInt64: int := -0x8000_0000_0000_0000

  /** `RandURL`: the trimmed path, `&` when it already has a query (`?`
      otherwise), then `_=` and the decimal form of `n`, a value of
      `RandInt64` (a non-negative 63-bit number). */
  function RandURL(path: string, n: nat): (r: string)
    requires n <= MaxInt64
  {
    var p := TrimSpace(path);
    p + [if '?' in p then '&' else '?'] + "_=" + NatToString(n)
  }

  /** The URL is the trimmed path, the separator, `_=`, and a number that
      reads back as the random value. */
  lemma RandURLParts(path: string, n: nat)
    requires n <= MaxInt64
    ensures var p, r := TrimSpace(path), RandURL(path, n);
      |r| > |p| + 3 && r[..|p|] == p
      && r[|p|] == (if '?' in p then '&' else '?')
      && r[|p| + 1..|p| + 3] == "_="
      && AllDigits(r[|p| + 3..]) && DecimalValue(r[|p| + 3..]) == n
  {
    var p, r := TrimSpace(path), RandURL(path, n);
    assert r[|p| + 3..] == NatToString(n);
    DecimalRoundTrip(n);
  }

  // ----------------------------------------------------------------- RandInt

  /** Two's-complement wrap-around of a Go int64 result. */
  function Wrap64(x: int): (r: int)
    ensures MinInt64 <= r <= MaxInt64
  {
    (x - MinInt64) % 0x1_0000_0000_0000_0000 + MinInt64
  }

  /** `RandInt` as written: `end - start` is computed in int64 and handed to
      `Int63n`, which panics on a non-positive bound; `draw` is the value
      `Int63n` returns, below its bound. */
  function RandIntAsWritten(start: int, end: int, draw: nat): (r: Result<int>)
    requires MinInt64 <= start <= MaxInt64 && MinInt64 <= end <= MaxInt64
    requires start < end && Wrap64(end - start) > 0 ==> draw < Wrap64(end - start)
  {
    if start >= end then Ok(end)
    else
      var n := Wrap64(end - start);
      if n <= 0 then Err(Error("invalid argument to Int63n"))
      else Ok(Wrap64(draw + start))
  }

  /** The widest range makes the int64 difference wrap to -1, so the call panics. */
  lemma RandIntWideRangePanics()
    ensures RandIntAsWritten(MinInt64, MaxInt64, 0).Err?
  {
    assert Wrap64(MaxInt64 - MinInt64) == -1;
  }

  /** `RandInt` as intended: `end` for an empty range, otherwise the value of
      the half-open range [start, end) that `draw`, a value of `Int63n(end -
      start)`, picks, with no overflow. */
  function RandInt(start: int, end: int, draw: nat): (r: int)
    requires MinInt64 <= start <= MaxInt64 && MinInt64 <= end <= MaxInt64
    requires start < end ==> draw < end - start
    ensures start >= end ==> r == end
    ensures start < end ==> start <= r < end
  {
    if start >= end then end else start + draw
  }

  /** Where the int64 difference does not overflow, the code as written and
      the intended function agree. */
  lemma RandIntAgrees(start: int, end: int, draw: nat)
    requires MinInt64 <= start < end <= MaxInt64 && end - start <= MaxInt64
    requires draw < end - start
    ensures RandIntAsWritten(start, end, draw) == Ok(RandInt(start, end, draw))
  {
    assert Wrap64(end - start) == end - start;
    assert Wrap64(draw + start) == draw + start;
  }

  // -------------------------------------------------------------- map helpers

  /** `ArrayToStringMap`: pairs `values[2k] -> values[2k+1]`, later pairs
      overriding earlier ones. An odd-length list reads past its end in Go
      (a panic), so callers must pass an even number of strings. */
  method ArrayToStringMap(values: seq<string>) returns (m: map<string, string>)
    requires |values| % 2 == 0
    ensures m == Maps.PairsToMap(values)
  {
    m := map[];
    var i := 0;
    while i < |values|
      invariant 0 <= i <= |values| && i % 2 == 0
      invariant m == Maps.PairsToMap(values[..i])
    {
      assert values[..i + 2][..i] == values[..i];
      m := m[values[i] := values[i + 1]];
      i := i + 2;
    }
    assert values[..i] == values;
  }

  /** `MergeStringMap`: copies every map in order; inside one map the keys are
      visited in an unspecified order (Go's map iteration). */
  method MergeStringMap(maps: seq<map<string, string>>) returns (m: map<string, string>)
    ensures m == Maps.MergeAll(maps)
  {
    m := map[];
    for i := 0 to |maps|
      invariant m == Maps.MergeAll(maps[..i])
    {
      assert maps[..i + 1][..i] == maps[..i];
      m := CopyInto(m, maps[i]);
    }
    assert maps[..|maps|] == maps;
  }

  /** The inner loop of `MergeStringMap`: every entry of `cur`, in any
      order, is stored into `m`. */
  method CopyInto(m: map<string, string>, cur: map<string, string>) returns (acc: map<string, string>)
    ensures acc == m + cur
  {
    var todo := cur.Keys;
    acc := m;
    while todo != {}
      invariant todo <= cur.Keys
      invariant acc == m + Copied(cur, cur.Keys - todo)
      decreases todo
    {
      var k :| k in todo;
      CopyOneMore(m, cur, cur.Keys - todo, k);
      assert cur.Keys - todo + {k} == cur.Keys - (todo - {k});
      acc := acc[k := cur[k]];
      todo := todo - {k};
    }
    assert Copied(cur, cur.Keys) == cur;
  }

  /** The entries of `cur` whose keys have been copied so far. */
  function Copied(cur: map<string, string>, done: set<string>): map<string, string>
    requires done <= cur.Keys
  {
    map k | k in done :: cur[k]
  }

  /** Copying one more entry of `cur` extends the copied part by it. */
  lemma CopyOneMore(m: map<string, string>, cur: map<string, string>, done: set<string>, k: string)
    requires done <= cur.Keys && k in cur
    ensures (m + Copied(cur, done))[k := cur[k]] == m + Copied(cur, done + {k})
  {
  }

  // ----------------------------------------------------------------- charsets

  datatype Endian = BigEndian | LittleEndian
  datatype Bom = UseBOM | IgnoreBOM

  /** The encodings `GetCharset` can hand out (golang.org/x/text values). */
  datatype Charset =
    | GB18030 | HZGB2312 | GBK | Big5 | EUCJP | ISO2022JP | ShiftJIS | EUCKR
    | Nop
    | UTF16(endian: Endian, bom: Bom)

  /** The upper-cased names the table knows. */
  const CharsetNames: set<string> := {
    "GB18030", "GB2312", "HZ-GB2312", "GBK", "BIG5", "EUC-JP", "ISO2022JP", "SHIFTJIS", "EUC-KR",
    "UTF8", "UTF-8", "UTF16-BOM", "UTF-16-BOM", "UTF16-BE-BOM", "UTF-16-BE-BOM",
    "UTF16-LE-BOM", "UTF-16-LE-BOM", "UTF16", "UTF-16", "UTF16-BE", "UTF-16-BE", "UTF16-LE", "UTF-16-LE"
  }

  /** The table of `GetCharset`, keyed by the upper-cased name. */
  function CharsetTable(upper: string): Option<Charset>
  {
    if upper == "GB18030" then Some(GB18030)
    else if upper == "GB2312" || upper == "HZ-GB2312" then Some(HZGB2312)
    else if upper == "GBK" then Some(GBK)
    else if upper == "BIG5" then Some(Big5)
    else if upper == "EUC-JP" then Some(EUCJP)
    else if upper == "ISO2022JP" then Some(ISO2022JP)
    else if upper == "SHIFTJIS" then Some(ShiftJIS)
    else if upper == "EUC-KR" then Some(EUCKR)
    else if upper == "UTF8" || upper == "UTF-8" then Some(Nop)
    else if upper == "UTF16-BOM" || upper == "UTF-16-BOM" then Some(UTF16(BigEndian, UseBOM))
    else if upper == "UTF16-BE-BOM" || upper == "UTF-16-BE-BOM" then Some(UTF16(BigEndian, UseBOM))
    else if upper == "UTF16-LE-BOM" || upper == "UTF-16-LE-BOM" then Some(UTF16(LittleEndian, UseBOM))
    else if upper == "UTF16" || upper == "UTF-16" then Some(UTF16(BigEndian, IgnoreBOM))
    else if upper == "UTF16-BE" || upper == "UTF-16-BE" then Some(UTF16(BigEndian, IgnoreBOM))
    else if upper == "UTF16-LE" || upper == "UTF-16-LE" then Some(UTF16(LittleEndian, IgnoreBOM))
    else None
  }

  /** `GetCharset`: the name is upper-cased before the lookup; nil for an
      unknown name. */
  function GetCharset(name: string): (r: Option<Charset>)
  {
    CharsetTable(ToUpper(name))
  }

  /** The lookup ignores case: upper-casing the name first changes nothing. */
  lemma GetCharsetIgnoresCase(name: string)
    ensures GetCharset(ToUpper(name)) == GetCharset(name)
  {
    assert ToUpper(ToUpper(name)) == ToUpper(name);
  }

  /** A few names as callers write them, among them the "GB2312" alias for
      HZ-GB2312 and the dotless-i spelling that Unicode upper-casing maps to BIG5. */
  lemma GetCharsetExamples()
    ensures GetCharset("utf-8") == Some(Nop)
    ensures GetCharset("gb2312") == Some(HZGB2312)
    ensures GetCharset("b\U{0131}g5") == Some(Big5)
  {
    assert ToUpper("utf-8") == "UTF-8";
    assert ToUpper("gb2312") == "GB2312";
    assert ToUpper("b\U{0131}g5") == "BIG5";
  }

  /** `GetCharset` gives nil exactly when the upper-cased name is not one
      of the table's names. */
  lemma GetCharsetNil(name: string)
    ensures GetCharset(name) == None <==> ToUpper(name) !in CharsetNames
  {
  }

  /** A name outside the table, such as "latin1", gives nil. */
  lemma GetCharsetUnknown()
    ensures GetCharset("latin1") == None
  {
    var u := ToUpper("latin1");
    assert u == "LATIN1";
    assert u[0] == 'L';
  }
}
