/** The dirty-word mask of middleware/context.go (`DrityWordFilter`), as
    functions over the segmenter's tokens. The segmenter and the MD5
    fingerprint are parameters: `fp` maps a token's bytes to its hex digest. */
module Masking {
  import opened Utf8

  /** The byte of `*`. */
  const Star: Byte := 0x2A

  /** `strings.Repeat("*", n)`. */
  function Stars(n: nat): (r: seq<Byte>)
    ensures |r| == n
    ensures forall i :: 0 <= i < n ==> r[i] == Star
  {
    seq(n, _ => Star)
  }

  /** What one token contributes: a run of stars, one per rune, when its
      fingerprint is a key of the dictionary, else the token itself. */
  function Piece(token: seq<Byte>, dict: map<string, string>, fp: seq<Byte> -> string): seq<Byte>
  {
    if fp(token) in dict then Stars(RuneCount(token)) else token
  }

  /** The tokens written one after another. */
  function Concat(tokens: seq<seq<Byte>>): seq<Byte>
  {
    if tokens == [] then [] else Concat(tokens[..|tokens| - 1]) + tokens[|tokens| - 1]
  }

  /** The masked text: the pieces of the tokens appended in order. */
  function MaskAll(tokens: seq<seq<Byte>>, dict: map<string, string>, fp: seq<Byte> -> string): seq<Byte>
  {
    if tokens == [] then []
    else MaskAll(tokens[..|tokens| - 1], dict, fp) + Piece(tokens[|tokens| - 1], dict, fp)
  }

  /** The piece of every token, in token order. */
  function Pieces(tokens: seq<seq<Byte>>, dict: map<string, string>, fp: seq<Byte> -> string): (ps: seq<seq<Byte>>)
    ensures |ps| == |tokens|
  {
    seq(|tokens|, i requires 0 <= i < |tokens| => Piece(tokens[i], dict, fp))
  }

  /** The output is exactly one piece per token, concatenated in order with
      nothing in between. */
  lemma {:induction false} MaskAllIsConcatOfPieces(tokens: seq<seq<Byte>>, dict: map<string, string>, fp: seq<Byte> -> string)
    ensures MaskAll(tokens, dict, fp) == Concat(Pieces(tokens, dict, fp))
    decreases |tokens|
  {
    if tokens != [] {
      var n := |tokens|;
      MaskAllIsConcatOfPieces(tokens[..n - 1], dict, fp);
      assert Pieces(tokens, dict, fp)[..n - 1] == Pieces(tokens[..n - 1], dict, fp);
    }
  }

  /** Masking distributes over a split of the token list. */
  lemma {:induction false} MaskAllAppend(a: seq<seq<Byte>>, b: seq<seq<Byte>>, dict: map<string, string>, fp: seq<Byte> -> string)
    ensures MaskAll(a + b, dict, fp) == MaskAll(a, dict, fp) + MaskAll(b, dict, fp)
    decreases |b|
  {
    if b != [] {
      var n := |b|;
      var ab, init := a + b, b[..n - 1];
      assert ab[..|ab| - 1] == a + init && ab[|ab| - 1] == b[n - 1];
      MaskAllAppend(a, init, dict, fp);
      var p := Piece(b[n - 1], dict, fp);
      assert MaskAll(ab, dict, fp) == MaskAll(a + init, dict, fp) + p;
      assert MaskAll(b, dict, fp) == MaskAll(init, dict, fp) + p;
    } else {
      assert a + b == a;
    }
  }

  /** When no token's fingerprint is a key, the tokens come out unchanged. */
  lemma {:induction false} MaskAllNoHits(tokens: seq<seq<Byte>>, dict: map<string, string>, fp: seq<Byte> -> string)
    requires forall i :: 0 <= i < |tokens| ==> fp(tokens[i]) !in dict
    ensures MaskAll(tokens, dict, fp) == Concat(tokens)
    decreases |tokens|
  {
    if tokens != [] {
      MaskAllNoHits(tokens[..|tokens| - 1], dict, fp);
    }
  }

  /** With an empty dictionary the output is the concatenated tokens. */
  lemma MaskAllEmptyDictionary(tokens: seq<seq<Byte>>, fp: seq<Byte> -> string)
    ensures MaskAll(tokens, map[], fp) == Concat(tokens)
  {
    MaskAllNoHits(tokens, map[], fp);
  }

  /** A listed word is replaced by one star per code point, not per byte;
      an unlisted one is kept byte for byte. */
  lemma PieceOfWord(w: string, dict: map<string, string>, fp: seq<Byte> -> string)
    ensures fp(Encode(w)) in dict ==> Piece(Encode(w), dict, fp) == Stars(|w|)
    ensures fp(Encode(w)) !in dict ==> Piece(Encode(w), dict, fp) == Encode(w)
  {
    RuneCountOfEncode(w);
  }

  /** A two-byte letter is masked by a single star. */
  lemma TwoByteLetterOneStar(dict: map<string, string>, fp: seq<Byte> -> string)
    requires fp([0xC3, 0xA9]) in dict
    ensures Piece([0xC3, 0xA9], dict, fp) == [Star]
  {
    assert Encode("\U{00E9}") == [0xC3, 0xA9];
    PieceOfWord("\U{00E9}", dict, fp);
  }

  /** Masking never makes the text longer. */
  lemma {:induction false} MaskAllNotLonger(tokens: seq<seq<Byte>>, dict: map<string, string>, fp: seq<Byte> -> string)
    ensures |MaskAll(tokens, dict, fp)| <= |Concat(tokens)|
    decreases |tokens|
  {
    if tokens != [] {
      MaskAllNotLonger(tokens[..|tokens| - 1], dict, fp);
    }
  }

  /** Only the key set matters: two dictionaries with the same keys mask alike. */
  lemma {:induction false} MaskAllDependsOnKeys(tokens: seq<seq<Byte>>, d1: map<string, string>, d2: map<string, string>, fp: seq<Byte> -> string)
    requires d1.Keys == d2.Keys
    ensures MaskAll(tokens, d1, fp) == MaskAll(tokens, d2, fp)
    decreases |tokens|
  {
    if tokens != [] {
      MaskAllDependsOnKeys(tokens[..|tokens| - 1], d1, d2, fp);
    }
  }
}
