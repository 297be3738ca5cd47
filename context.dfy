/** The request-context operations of middleware/context.go that use the
    dirty-word dictionary: the masking filter and the map replacement. The
    segmenter is a function of the path list it has loaded; `fp` is the MD5
    hex digest. */
module WebContext {
  import opened Wrappers
  import opened Text
  import opened Utf8
  import Masking
  import DrityWords

  /** `DrityWordFilter`: trim the text, segment its bytes, and append each
      token or its stars to a buffer, checking every token against the map
      as it stood when the loop began. */
  method DrityWordFilter(d: DrityWords.DrityWord, source: string,
                         segment: (Option<string>, seq<Byte>) -> seq<seq<Byte>>,
                         fp: seq<Byte> -> string)
    returns (out: seq<Byte>)
    ensures out == Masking.MaskAll(segment(d.loaded, Encode(TrimSpace(source))), d.drityWordMap, fp)
  {
    var text := TrimSpace(source);
    var buf: seq<Byte> := [];
    var segments := segment(d.loaded, Encode(text));
    var dwm := d.drityWordMap;
    for i := 0 to |segments|
      invariant buf == Masking.MaskAll(segments[..i], dwm, fp)
    {
      assert segments[..i + 1][..i] == segments[..i];
      var token := segments[i];
      if fp(token) in dwm {
        buf := buf + Masking.Stars(RuneCount(token));
      } else {
        buf := buf + token;
      }
    }
    assert segments[..|segments|] == segments;
    out := buf;
  }

  /** When the segmenter returns pieces of its input, an empty map gives
      back the trimmed text. */
  lemma FilterEmptyMapIsTrim(loaded: Option<string>, source: string,
                             segment: (Option<string>, seq<Byte>) -> seq<seq<Byte>>, fp: seq<Byte> -> string)
    requires Masking.Concat(segment(loaded, Encode(TrimSpace(source)))) == Encode(TrimSpace(source))
    ensures Masking.MaskAll(segment(loaded, Encode(TrimSpace(source))), map[], fp) == Encode(TrimSpace(source))
  {
    Masking.MaskAllEmptyDictionary(segment(loaded, Encode(TrimSpace(source))), fp);
  }

  /** `UpdateDrityWord`: install the given map, then rewrite the dictionary
      and return its error; the map stays installed when the write fails. */
  method UpdateDrityWord(d: DrityWords.DrityWord, drityWordMap: map<string, string>, io: DrityWords.IoEnv)
    returns (err: Option<Error>, ghost order: seq<string>)
    modifies d`drityWordMap, d`dictFile, d`loaded
    ensures d.drityWordMap == drityWordMap
    ensures d.defaultDictDir == old(d.defaultDictDir) && d.userDictPath == old(d.userDictPath)
    ensures d.cancelled == old(d.cancelled)
    ensures io.openErr.None? ==> DrityWords.IsEnumeration(order, drityWordMap.Keys)
    ensures DrityWords.WriteResult(err, d.State())
      == DrityWords.WriteOutcome(drityWordMap, order, io, d.defaultDictDir, d.userDictPath, old(d.State()))
  {
    d.drityWordMap := drityWordMap;
    err, order := d.WriteDrityWord(io);
  }
}
