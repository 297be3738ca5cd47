/** The dirty-word dictionary of middleware/drityword.go: building the
    `md5 -> value` map from the term table, rewriting the user dictionary
    file, reloading the segmenter, and the pub/sub handler that triggers a
    reload. The file system, the segmenter's `LoadDict` and the directory
    walk are given as an `IoEnv`; the redis connection as a `PubSub.Connection`. */
module DrityWords {
  import opened Wrappers
  import opened Text
  import opened Utf8
  import Utils
  import TermStore
  import PubSub

  const DefaultDictDir: string := "dict_data/dict"
  const UserDictPath: string := "/tmp/userdict.txt"
  const UpChannel: string := "drityword_up"

  /** The frequency written after each dictionary word. */
  const LineSuffix: string := " 100000\n"

  // ------------------------------------------------------------ map build

  /** The map built from term rows: each row's md5 to its value, a later
      row overwriting an earlier one with the same md5. */
  function TermsToMap(rows: seq<TermStore.Term>): map<string, string>
  {
    if rows == [] then map[]
    else TermsToMap(rows[..|rows| - 1])[rows[|rows| - 1].md5 := rows[|rows| - 1].value]
  }

  /** A key is present exactly when some row carries it as its md5. */
  lemma {:induction false} TermsToMapKeys(rows: seq<TermStore.Term>, k: string)
    ensures k in TermsToMap(rows) <==> exists i :: 0 <= i < |rows| && rows[i].md5 == k
    decreases |rows|
  {
    if rows != [] {
      var n := |rows|;
      TermsToMapKeys(rows[..n - 1], k);
      if k in TermsToMap(rows[..n - 1]) && k != rows[n - 1].md5 {
        var i :| 0 <= i < n - 1 && rows[..n - 1][i].md5 == k;
        assert rows[i].md5 == k;
      }
      if exists i :: 0 <= i < n && rows[i].md5 == k {
        var i :| 0 <= i < n && rows[i].md5 == k;
        if i < n - 1 { assert rows[..n - 1][i].md5 == k; }
      }
    }
  }

  /** The value stored under an md5 is that of the last row carrying it. */
  lemma {:induction false} TermsToMapLastWins(rows: seq<TermStore.Term>, i: nat)
    requires i < |rows|
    requires forall j :: i < j < |rows| ==> rows[j].md5 != rows[i].md5
    ensures rows[i].md5 in TermsToMap(rows) && TermsToMap(rows)[rows[i].md5] == rows[i].value
    decreases |rows|
  {
    var n := |rows|;
    if i < n - 1 {
      TermsToMapLastWins(rows[..n - 1], i);
    }
  }

  /** When every row's md5 is the fingerprint of its value, every key of the
      map is the fingerprint of the value stored under it. */
  lemma {:induction false} TermsToMapContentAddressed(rows: seq<TermStore.Term>, fp: string -> string)
    requires forall i :: 0 <= i < |rows| ==> rows[i].md5 == fp(rows[i].value)
    ensures forall k :: k in TermsToMap(rows) ==> fp(TermsToMap(rows)[k]) == k
    decreases |rows|
  {
    if rows != [] {
      TermsToMapContentAddressed(rows[..|rows| - 1], fp);
    }
  }

  /** The loop that fills a fresh map from the rows. */
  method BuildDrityWordMap(rows: seq<TermStore.Term>) returns (m: map<string, string>)
    ensures m == TermsToMap(rows)
  {
    m := map[];
    for i := 0 to |rows|
      invariant m == TermsToMap(rows[..i])
    {
      assert rows[..i + 1][..i] == rows[..i];
      m := m[rows[i].md5 := rows[i].value];
    }
    assert rows[..|rows|] == rows;
  }

  /** The query with no arguments followed by the map build, as both
      `NewDrityWord` and the reload handler do it: the map of every live
      row. */
  method LoadDrityWordMap(table: seq<TermStore.Term>) returns (m: map<string, string>)
    ensures m == TermsToMap(TermStore.Live(table))
  {
    var count, rows := TermStore.FindDrityWords(table, []);
    TermStore.NoArgumentsReturnsAllLive(table);
    m := BuildDrityWordMap(rows);
  }

  // ------------------------------------------------------ dictionary file

  /** Every key exactly once, in the order given. */
  ghost predicate IsEnumeration(order: seq<string>, keys: set<string>)
  {
    Distinct(order) && forall k :: k in order <==> k in keys
  }

  /** The dictionary lines for the keys visited in `order`: one line per
      non-empty value, nothing for an empty one (or a key not in the map). */
  function DictLines(m: map<string, string>, order: seq<string>): seq<string>
  {
    if order == [] then []
    else
      var k := order[|order| - 1];
      DictLines(m, order[..|order| - 1]) + (if k in m && |m[k]| > 0 then [m[k] + LineSuffix] else [])
  }

  /** The bytes of the lines written one after another: each Go string
      is written as its UTF-8 encoding. */
  function Flatten(lines: seq<string>): seq<Byte>
  {
    if lines == [] then [] else Flatten(lines[..|lines| - 1]) + Encode(lines[|lines| - 1])
  }

  /** Writing the bytes `data` from offset 0 into a file opened without
      truncation: what lay beyond the written bytes survives. */
  function Overwrite(file: seq<Byte>, data: seq<Byte>): (r: seq<Byte>)
    ensures |r| == if |data| < |file| then |file| else |data|
  {
    if |data| < |file| then data + file[|data|..] else data
  }

  lemma {:induction false} DictLinesAppend(m: map<string, string>, a: seq<string>, b: seq<string>)
    ensures DictLines(m, a + b) == DictLines(m, a) + DictLines(m, b)
    decreases |b|
  {
    if b == [] {
      assert a + b == a;
    } else {
      var n := |b|;
      assert (a + b)[..|a + b| - 1] == a + b[..n - 1];
      DictLinesAppend(m, a, b[..n - 1]);
    }
  }

  /** Every line is a non-empty value of a visited key followed by the
      frequency, and every visited key with a non-empty value has its line. */
  lemma {:induction false} DictLinesContent(m: map<string, string>, order: seq<string>)
    ensures forall line :: line in DictLines(m, order) ==>
      exists k :: k in order && k in m && |m[k]| > 0 && line == m[k] + LineSuffix
    ensures forall k :: k in order && k in m && |m[k]| > 0 ==> m[k] + LineSuffix in DictLines(m, order)
    decreases |order|
  {
    if order != [] {
      var n := |order|;
      var init := order[..n - 1];
      DictLinesContent(m, init);
      forall line | line in DictLines(m, order)
        ensures exists k :: k in order && k in m && |m[k]| > 0 && line == m[k] + LineSuffix
      {
        if line in DictLines(m, init) {
          var k :| k in init && k in m && |m[k]| > 0 && line == m[k] + LineSuffix;
          assert k in order;
        } else {
          assert order[n - 1] in order;
        }
      }
      forall k | k in order && k in m && |m[k]| > 0
        ensures m[k] + LineSuffix in DictLines(m, order)
      {
        if k != order[n - 1] {
          assert k in init;
        }
      }
    }
  }

  /** A map whose values are all empty writes no line. */
  lemma {:induction false} EmptyValuesWriteNothing(m: map<string, string>, order: seq<string>)
    requires forall k :: k in order && k in m ==> m[k] == ""
    ensures DictLines(m, order) == []
    decreases |order|
  {
    if order != [] {
      EmptyValuesWriteNothing(m, order[..|order| - 1]);
    }
  }

  /** A shorter rewrite leaves the old file's tail in place. */
  lemma OverwriteKeepsStaleTail(file: seq<Byte>, data: seq<Byte>)
    requires |data| < |file|
    ensures Overwrite(file, data)[..|data|] == data
    ensures Overwrite(file, data)[|data|..] == file[|data|..]
  {
  }

  /** A one-line file holds the bytes of the word, then of the suffix. */
  lemma OneLineBytes(word: string)
    ensures Flatten([word + LineSuffix]) == Encode(word) + Encode(LineSuffix)
  {
    assert [word + LineSuffix][..0] == [];
    EncodeAppend(word, LineSuffix);
  }

  /** The suffix is eight ASCII bytes ending in a newline. */
  lemma SuffixBytes()
    ensures |Encode(LineSuffix)| == 8 && Encode(LineSuffix)[7] == '\n' as int
  {
    EncodeAscii(LineSuffix);
  }

  /** A line whose word has `d` more bytes than the new word's, rewritten
      with the new line, leaves the last `d` bytes of its suffix behind. */
  lemma StaleSuffixBytes(word: string, newWord: string)
    requires |Encode(newWord)| < |Encode(word)| <= |Encode(newWord)| + |Encode(LineSuffix)|
    ensures var after, sfx := Flatten([newWord + LineSuffix]), Encode(LineSuffix);
      Overwrite(Flatten([word + LineSuffix]), after)
        == after + sfx[|sfx| - (|Encode(word)| - |Encode(newWord)|)..]
  {
    OneLineBytes(word);
    OneLineBytes(newWord);
    OverwriteSameEnding(Encode(word), Encode(newWord), Encode(LineSuffix));
  }

  /** Two contents with the same ending, the new one `d` bytes shorter:
      the rewrite keeps the last `d` bytes of that ending. */
  lemma OverwriteSameEnding(a: seq<Byte>, b: seq<Byte>, sfx: seq<Byte>)
    requires |b| < |a| <= |b| + |sfx|
    ensures Overwrite(a + sfx, b + sfx) == (b + sfx) + sfx[|sfx| - (|a| - |b|)..]
  {
    var before := a + sfx;
    assert forall j :: |a| <= j < |before| ==> before[j] == sfx[j - |a|];
    assert before[|b| + |sfx|..] == sfx[|sfx| - (|a| - |b|)..];
  }

  /** The file is counted in bytes, not characters: a one-line file whose
      word is the three-byte character U+574F, rewritten with the line of
      the two-letter word `ab`, keeps the old line's final newline. */
  lemma ShorterRewriteLeavesStaleNewline()
    ensures |Encode("\U{574F}")| == 3 && |Encode("ab")| == 2
    ensures Overwrite(Flatten(["\U{574F}" + LineSuffix]), Flatten(["ab" + LineSuffix]))
      == Flatten(["ab" + LineSuffix]) + ['\n' as int]
  {
    assert Encode("\U{574F}") == EncodeRune(0x574F) + Encode([]);
    EncodeAscii("ab");
    SuffixBytes();
    StaleSuffixBytes("\U{574F}", "ab");
    var sfx := Encode(LineSuffix);
    assert sfx[7..] == [sfx[7]];
  }

  /** Visiting one more key of `keys` adds its line, if any, at the end. */
  lemma VisitOneMore(m: map<string, string>, keys: seq<string>, i: nat)
    requires i < |keys| && keys[i] in m
    ensures var lines, next := DictLines(m, keys[..i]), DictLines(m, keys[..i + 1]);
      |next| == |lines| + (if |m[keys[i]]| > 0 then 1 else 0)
      && Flatten(next) == Flatten(lines) + (if |m[keys[i]]| > 0 then Encode(m[keys[i]] + LineSuffix) else [])
  {
    var order, k := keys[..i], keys[i];
    assert keys[..i + 1] == order + [k];
    var lines := DictLines(m, order);
    assert (order + [k])[..|order|] == order;
    if |m[k]| > 0 {
      assert (lines + [m[k] + LineSuffix])[..|lines|] == lines;
    } else {
      assert DictLines(m, order + [k]) == lines;
    }
  }

  predicate Distinct(s: seq<string>)
  {
    forall i, j :: 0 <= i < j < |s| ==> s[i] != s[j]
  }

  lemma DistinctConcat(a: seq<string>, b: seq<string>)
    requires Distinct(a) && Distinct(b)
    requires forall x :: x in a ==> x !in b
    ensures Distinct(a + b)
  {
    forall i, j | 0 <= i < j < |a + b| ensures (a + b)[i] != (a + b)[j] {
      if i < |a| && |a| <= j {
        assert (a + b)[i] in a && (a + b)[j] == b[j - |a|];
      }
    }
  }

  /** Part way through the visit: `done` lists, once each, exactly the
      keys not left in `todo`. */
  ghost predicate Visited(done: seq<string>, todo: set<string>, keys: set<string>)
  {
    todo <= keys && Distinct(done) && forall x :: x in done <==> x in keys && x !in todo
  }

  /** Visiting one more key keeps the visit consistent; with nothing left,
      the visit order is an enumeration of the keys. */
  lemma VisitStep(done: seq<string>, k: string, todo: set<string>, keys: set<string>)
    requires Visited(done, todo, keys) && k in todo
    ensures Visited(done + [k], todo - {k}, keys)
  {
    DistinctConcat(done, [k]);
  }

  /** The order in which Go's `range` visits a map's keys: any order that
      lists every key once, chosen here one key at a time. */
  method MapOrder(keys: set<string>) returns (order: seq<string>)
    ensures IsEnumeration(order, keys)
  {
    order := [];
    var todo := keys;
    while todo != {}
      invariant Visited(order, todo, keys)
      decreases |todo|
    {
      var k :| k in todo;
      VisitStep(order, k, todo, keys);
      order := order + [k];
      todo := todo - {k};
    }
  }

  /** Stopping before the line of key `k`: the lines already written are a
      proper prefix of the lines of any completion of the visit order. */
  lemma StopBeforeLine(m: map<string, string>, done: seq<string>, k: string, rest: seq<string>)
    requires k in m && |m[k]| > 0
    ensures var full := DictLines(m, done + [k] + rest);
      |DictLines(m, done)| < |full| && full[..|DictLines(m, done)|] == DictLines(m, done)
  {
    DictLinesAppend(m, done + [k], rest);
    assert (done + [k])[..|done|] == done;
  }

  // --------------------------------------------------------------- reload

  /** One failed `WriteString`: the index of the dictionary line it was
      writing, and the error. */
  datatype WriteFailure = WriteFailure(line: nat, error: Error)

  /** The outside world as the dictionary code sees it: opening the user
      dictionary, the write that fails (if any), the executable's
      directory and path separator, the directory walk and the segmenter's
      `LoadDict`. */
  datatype IoEnv = IoEnv(
    openErr: Option<Error>,
    writeFailure: Option<WriteFailure>,
    binDir: string,
    sep: char,
    walk: string -> Result<seq<string>>,
    loadDict: string -> Option<Error>)

  /** The user dictionary file's content and the path list the segmenter
      last loaded (None for a segmenter that never loaded one). */
  datatype DictState = DictState(file: seq<Byte>, loaded: Option<string>)

  datatype WriteResult = WriteResult(err: Option<Error>, state: DictState)

  /** The directory holding the default dictionaries. */
  function DefaultDictPath(io: IoEnv, defaultDictDir: string): string
  {
    Utils.ArrayPath([Utils.ProjectDir(io.binDir, io.sep), defaultDictDir], io.sep)
  }

  /** The path list given to the segmenter: the default dictionary files,
      then the user dictionary, comma-joined. */
  function PathList(paths: seq<string>, userDictPath: string): string
  {
    Join(paths + [userDictPath], ',')
  }

  /** When no path holds a comma, the list splits back into the default
      files followed by the user dictionary last. */
  lemma PathListSplits(paths: seq<string>, userDictPath: string)
    requires forall i :: 0 <= i < |paths| ==> ',' !in paths[i]
    requires ',' !in userDictPath
    ensures Split(PathList(paths, userDictPath), ',') == paths + [userDictPath]
    ensures var parts := Split(PathList(paths, userDictPath), ',');
      parts[|parts| - 1] == userDictPath
  {
    var all := paths + [userDictPath];
    assert forall i :: 0 <= i < |all| ==> ',' !in all[i] by {
      forall i | 0 <= i < |all| ensures ',' !in all[i] {
        if i < |paths| { assert all[i] == paths[i]; }
      }
    }
    SplitJoin(all, ',');
  }

  /** The outcome of `ReloadDict`: the walk's error, or `LoadDict`'s; a
      successful load records its path list. */
  function ReloadOutcome(io: IoEnv, defaultDictDir: string, userDictPath: string, loaded: Option<string>): WriteResult
  {
    match io.walk(DefaultDictPath(io, defaultDictDir))
    case Err(e) => WriteResult(Some(e), DictState([], loaded))
    case Ok(paths) =>
      var p := PathList(paths, userDictPath);
      var e := io.loadDict(p);
      WriteResult(e, DictState([], if e.None? then Some(p) else loaded))
  }

  /** The file after the dictionary lines were written, and the error of
      the write that failed, if any. */
  datatype Written = Written(file: seq<Byte>, failed: Option<Error>)

  /** Writing the lines for the keys visited in `order` over `file`: the
      first failing write stops with the lines before it written. */
  function WriteLinesOutcome(m: map<string, string>, order: seq<string>,
                             failure: Option<WriteFailure>, file: seq<Byte>): Written
  {
    var lines := DictLines(m, order);
    if failure.Some? && failure.value.line < |lines| then
      Written(Overwrite(file, Flatten(lines[..failure.value.line])), Some(failure.value.error))
    else
      Written(Overwrite(file, Flatten(lines)), None)
  }

  /** The outcome of `WriteDrityWord` for the keys visited in `order`: an
      open error changes nothing; a failing write is returned without a
      reload; otherwise all lines are written and the dictionaries
      reloaded. */
  function WriteOutcome(m: map<string, string>, order: seq<string>, io: IoEnv,
                        defaultDictDir: string, userDictPath: string, s: DictState): WriteResult
  {
    if io.openErr.Some? then WriteResult(io.openErr, s)
    else
      var w := WriteLinesOutcome(m, order, io.writeFailure, s.file);
      if w.failed.Some? then WriteResult(w.failed, DictState(w.file, s.loaded))
      else
        var r := ReloadOutcome(io, defaultDictDir, userDictPath, s.loaded);
        WriteResult(r.err, DictState(w.file, r.state.loaded))
  }

  /** The outcome when the write of the line of `keys[i]` fails: the lines
      of the keys before it are in the file. */
  lemma FailedWriteOutcome(m: map<string, string>, keys: seq<string>, i: nat,
                           failure: WriteFailure, file: seq<Byte>)
    requires i < |keys| && keys[i] in m && |m[keys[i]]| > 0
    requires failure.line == |DictLines(m, keys[..i])|
    ensures WriteLinesOutcome(m, keys, Some(failure), file)
      == Written(Overwrite(file, Flatten(DictLines(m, keys[..i]))), Some(failure.error))
  {
    assert keys == keys[..i] + [keys[i]] + keys[i + 1..];
    StopBeforeLine(m, keys[..i], keys[i], keys[i + 1..]);
  }

  /** A failed write is returned, and the segmenter is left as it was. */
  lemma WriteFailureSkipsReload(m: map<string, string>, order: seq<string>, io: IoEnv,
                                defaultDictDir: string, userDictPath: string, s: DictState)
    requires io.openErr.None? && io.writeFailure.Some?
    requires io.writeFailure.value.line < |DictLines(m, order)|
    ensures WriteOutcome(m, order, io, defaultDictDir, userDictPath, s).err == Some(io.writeFailure.value.error)
    ensures WriteOutcome(m, order, io, defaultDictDir, userDictPath, s).state.loaded == s.loaded
  {
  }

  /** A full write followed by a successful load leaves the segmenter on
      the default dictionaries plus the user dictionary, and the file
      starting with every line. */
  lemma WriteSuccessReloads(m: map<string, string>, order: seq<string>, io: IoEnv,
                            defaultDictDir: string, userDictPath: string, s: DictState, paths: seq<string>)
    requires io.openErr.None?
    requires io.writeFailure.None? || io.writeFailure.value.line >= |DictLines(m, order)|
    requires io.walk(DefaultDictPath(io, defaultDictDir)) == Ok(paths)
    requires io.loadDict(PathList(paths, userDictPath)).None?
    ensures var r := WriteOutcome(m, order, io, defaultDictDir, userDictPath, s);
      r.err.None? && r.state.loaded == Some(PathList(paths, userDictPath))
      && |Flatten(DictLines(m, order))| <= |r.state.file|
      && r.state.file[..|Flatten(DictLines(m, order))|] == Flatten(DictLines(m, order))
  {
  }

  // ---------------------------------------------------------------- class

  /** Whether a pub/sub message asks for a reload: the trimmed, lower-cased
      payload is `up` and the trimmed channel is `drityword_up`. */
  predicate IsUpSignal(channel: string, message: string)
  {
    ToLower(TrimSpace(message)) == "up" && TrimSpace(channel) == UpChannel
  }

  /** A message event that asks for a reload. */
  predicate IsUpEvent(e: PubSub.Event)
  {
    e.Message? && IsUpSignal(e.channel, e.data)
  }

  /** The callbacks `Subscription` passes to the listener when no message
      asks for a reload: every callback returns nil. */
  function QuietHandlers(): PubSub.Handlers
  {
    PubSub.Handlers(() => None, Some((c: string, m: string) => None), None)
  }

  class DrityWord {
    var defaultDictDir: string
    var userDictPath: string
    var drityWordMap: map<string, string>
    /** The path list the segmenter last loaded. */
    var loaded: Option<string>
    /** The bytes of the file at `userDictPath`. */
    var dictFile: seq<Byte>
    /** Whether the subscription's context has been cancelled. */
    var cancelled: bool

    function State(): DictState
      reads this
    {
      DictState(dictFile, loaded)
    }

    /** The composite literal of `NewDrityWord`, with a fresh segmenter. */
    constructor (userDictPath: string, defaultDictDir: string, file: seq<Byte>)
      ensures this.userDictPath == userDictPath && this.defaultDictDir == defaultDictDir
      ensures drityWordMap == map[] && loaded.None? && dictFile == file && !cancelled
    {
      this.userDictPath := userDictPath;
      this.defaultDictDir := defaultDictDir;
      drityWordMap := map[];
      loaded := None;
      dictFile := file;
      cancelled := false;
    }

    /** `ReloadDict`. */
    method ReloadDict(io: IoEnv) returns (err: Option<Error>)
      modifies this`loaded
      ensures err == ReloadOutcome(io, defaultDictDir, userDictPath, old(loaded)).err
      ensures loaded == ReloadOutcome(io, defaultDictDir, userDictPath, old(loaded)).state.loaded
    {
      var dir := Utils.ArrayPath([Utils.ProjectDir(io.binDir, io.sep), defaultDictDir], io.sep);
      var walked := io.walk(dir);
      if walked.Err? {
        return Some(walked.error);
      }
      var paths := walked.value + [userDictPath];
      var pathsStr := Join(paths, ',');
      err := io.loadDict(pathsStr);
      if err.None? {
        loaded := Some(pathsStr);
      }
    }

    /** `WriteDrityWord`: one line per non-empty value, in the map's
        iteration order (reported in `order`), then a reload. */
    method WriteDrityWord(io: IoEnv) returns (err: Option<Error>, ghost order: seq<string>)
      modifies this`dictFile, this`loaded
      ensures io.openErr.None? ==> IsEnumeration(order, drityWordMap.Keys)
      ensures WriteResult(err, State())
        == WriteOutcome(drityWordMap, order, io, defaultDictDir, userDictPath, old(State()))
    {
      order := [];
      if io.openErr.Some? {
        return io.openErr, order;
      }
      err, order := WriteLines(io.writeFailure);
      if err.None? {
        err := ReloadDict(io);
      }
    }

    /** The write loop of `WriteDrityWord`: one line per non-empty value,
        in the map's iteration order (reported in `order`), each written
        from the start of the file without truncating it. */
    method WriteLines(failure: Option<WriteFailure>) returns (failed: Option<Error>, ghost order: seq<string>)
      modifies this`dictFile
      ensures IsEnumeration(order, drityWordMap.Keys)
      ensures Written(dictFile, failed) == WriteLinesOutcome(drityWordMap, order, failure, old(dictFile))
    {
      var file0 := dictFile;
      var m := drityWordMap;
      var keys := MapOrder(m.Keys);
      order := keys;
      var content: seq<Byte> := [];
      var written := 0;
      for i := 0 to |keys|
        invariant written == |DictLines(m, keys[..i])|
        invariant content == Flatten(DictLines(m, keys[..i]))
        invariant dictFile == Overwrite(file0, content)
        invariant failure.Some? ==> written <= failure.value.line
      {
        var k := keys[i];
        var v := m[k];
        VisitOneMore(m, keys, i);
        if |v| > 0 {
          if failure.Some? && failure.value.line == written {
            FailedWriteOutcome(m, keys, i, failure.value, file0);
            return Some(failure.value.error), order;
          }
          content := content + Encode(v + LineSuffix);
          dictFile := Overwrite(file0, content);
          written := written + 1;
        }
      }
      assert keys[..|keys|] == keys;
      failed := None;
    }

    /** The handler `Subscription` registers for messages: an up signal on
        the reload channel rebuilds the map from all live rows, installs
        it, rewrites the dictionary and cancels the subscription, whether
        the rewrite failed or not; anything else returns nil and changes
        nothing. */
    method OnMessage(channel: string, message: string, table: seq<TermStore.Term>, io: IoEnv)
      returns (err: Option<Error>, ghost order: seq<string>)
      modifies this`drityWordMap, this`dictFile, this`loaded, this`cancelled
      ensures !IsUpSignal(channel, message) ==>
        err.None? && unchanged(this)
      ensures IsUpSignal(channel, message) ==>
        drityWordMap == TermsToMap(TermStore.Live(table))
        && cancelled
        && (io.openErr.None? ==> IsEnumeration(order, drityWordMap.Keys))
        && WriteResult(err, State())
           == WriteOutcome(drityWordMap, order, io, defaultDictDir, userDictPath, old(State()))
    {
      order := [];
      var msgStr := ToLower(TrimSpace(message));
      var ch := TrimSpace(channel);
      if |msgStr| > 0 && msgStr == "up" {
        if UpChannel == ch {
          var m := LoadDrityWordMap(table);
          drityWordMap := m;
          err, order := WriteDrityWord(io);
          cancelled := true;
          return err, order;
        }
      }
      return None, order;
    }

    /** One event of `Subscription`'s receive loop: a message goes to
        `OnMessage`, whose error ends the loop; a receive error or the
        final confirmation ends it; anything else is passed over. Without
        an up signal this is the listener's step with callbacks that
        return nil. */
    method HandleEvent(e: PubSub.Event, table: seq<TermStore.Term>, io: IoEnv)
      returns (stop: Option<Option<Error>>)
      modifies this`drityWordMap, this`dictFile, this`loaded, this`cancelled
      ensures !IsUpEvent(e) ==> unchanged(this) && stop == PubSub.Outcome(e, 1, QuietHandlers())
      ensures drityWordMap == old(drityWordMap) || drityWordMap == TermsToMap(TermStore.Live(table))
      ensures cancelled ==> old(cancelled) || IsUpEvent(e)
    {
      match PubSub.Classify(e, 1, true, false) {
        case Deliver(c, data) =>
          var err, _ := OnMessage(c, data, table, io);
          stop := if err.Some? then Some(err) else None;
        case Finish(res) =>
          stop := Some(res);
        case _ =>
          stop := None;
      }
    }

    /** The receive loop of `Subscription`: `OnMessage` runs for every
        message until a callback error, a receive error or the final
        confirmation ends it. */
    method ReceiveUpdates(events: seq<PubSub.Event>, table: seq<TermStore.Term>, io: IoEnv)
      returns (d: PubSub.Dispatch)
      modifies this`drityWordMap, this`dictFile, this`loaded, this`cancelled
      ensures Quiet(events) ==> unchanged(this) && d == PubSub.DispatchFrom(events, 0, 1, QuietHandlers())
      ensures drityWordMap == old(drityWordMap) || drityWordMap == TermsToMap(TermStore.Live(table))
      ensures cancelled ==> old(cancelled) || exists k :: 0 <= k < |events| && IsUpEvent(events[k])
      ensures defaultDictDir == old(defaultDictDir) && userDictPath == old(userDictPath)
    {
      d := PubSub.Waiting;
      var i := 0;
      while i < |events| && d.Waiting?
        invariant 0 <= i <= |events|
        invariant Quiet(events) ==> unchanged(this)
        invariant Quiet(events) ==>
          PubSub.DispatchFrom(events, 0, 1, QuietHandlers())
          == if d.Waiting? then PubSub.DispatchFrom(events, i, 1, QuietHandlers()) else d
        invariant drityWordMap == old(drityWordMap) || drityWordMap == TermsToMap(TermStore.Live(table))
        invariant cancelled ==> old(cancelled) || exists k :: 0 <= k < i && IsUpEvent(events[k])
        invariant defaultDictDir == old(defaultDictDir) && userDictPath == old(userDictPath)
        decreases |events| - i
      {
        var stop := HandleEvent(events[i], table, io);
        if stop.Some? {
          d := PubSub.Ended(stop.value, i + 1);
        }
        i := i + 1;
      }
    }

    /** `Subscription`: listen on the reload channel with `OnMessage` as the
        message callback, a start callback returning nil and no pattern
        callback. Only the message callback cancels the context, so Go never
        reaches `Interrupted(Cancelled, _)` without an up signal among the
        events; the model admits that case as well, which only widens what
        the contract covers. */
    method Subscription(conn: PubSub.Connection, first: PubSub.FirstReady, events: seq<PubSub.Event>,
                        table: seq<TermStore.Term>, io: IoEnv)
      returns (r: PubSub.ListenResult)
      modifies this`drityWordMap, this`dictFile, this`loaded, this`cancelled
      ensures (conn.connErr.Some? || conn.subscribeErr.Some? || conn.psubscribeErr.Some?) ==>
        unchanged(this) && r == PubSub.ListenSpec(conn, first, events, [UpChannel], QuietHandlers())
      ensures Quiet(events) ==>
        unchanged(this) && r == PubSub.ListenSpec(conn, first, events, [UpChannel], QuietHandlers())
      ensures drityWordMap == old(drityWordMap) || drityWordMap == TermsToMap(TermStore.Live(table))
      ensures cancelled ==> old(cancelled) || exists k :: 0 <= k < |events| && IsUpEvent(events[k])
      ensures defaultDictDir == old(defaultDictDir) && userDictPath == old(userDictPath)
    {
      if conn.connErr.Some? { return PubSub.Returned(conn.connErr, false); }
      if conn.subscribeErr.Some? { return PubSub.Returned(conn.subscribeErr, false); }
      if conn.psubscribeErr.Some? { return PubSub.Returned(conn.psubscribeErr, false); }
      var d := ReceiveUpdates(events, table, io);
      r := PubSub.Shutdown(first, conn, d);
    }
  }

  /** No message asks for a reload. */
  predicate Quiet(events: seq<PubSub.Event>)
  {
    forall k :: 0 <= k < |events| ==> !IsUpEvent(events[k])
  }

  /** The user dictionary path `NewDrityWord` uses: the first one given,
      trimmed, or `/tmp/userdict.txt`. */
  function UserDictOf(userDictPaths: seq<string>): string
  {
    if |userDictPaths| > 0 then TrimSpace(userDictPaths[0]) else UserDictPath
  }

  /** Both paths `NewDrityWord` stores survive its second trimming. */
  lemma PathsTrimmed(userDictPaths: seq<string>)
    ensures TrimSpace(UserDictOf(userDictPaths)) == UserDictOf(userDictPaths)
    ensures TrimSpace(DefaultDictDir) == DefaultDictDir
  {
    TrimSpaceFixed(DefaultDictDir);
    if |userDictPaths| > 0 {
      TrimSpaceIdempotent(userDictPaths[0]);
    } else {
      TrimSpaceFixed(UserDictPath);
    }
  }

  /** `NewDrityWord`: a failed migration returns no object; otherwise the
      object is built with the user dictionary path (default
      `/tmp/userdict.txt`, a given one trimmed), its map filled from every
      live row and the dictionary written, and is returned together with
      the write's error. */
  method NewDrityWord(migrateErr: Option<Error>, table: seq<TermStore.Term>, userDictPaths: seq<string>,
                      file: seq<Byte>, io: IoEnv)
    returns (d: DrityWord?, err: Option<Error>, ghost order: seq<string>)
    ensures migrateErr.Some? ==> d == null && err == migrateErr
    ensures migrateErr.None? ==>
      d != null && fresh(d)
      && d.userDictPath == UserDictOf(userDictPaths)
      && d.defaultDictDir == DefaultDictDir
      && d.drityWordMap == TermsToMap(TermStore.Live(table))
      && !d.cancelled
      && (io.openErr.None? ==> IsEnumeration(order, d.drityWordMap.Keys))
      && WriteResult(err, d.State())
         == WriteOutcome(d.drityWordMap, order, io, d.defaultDictDir, d.userDictPath, DictState(file, None))
  {
    order := [];
    var userDict := UserDictPath;
    if |userDictPaths| > 0 {
      userDict := TrimSpace(userDictPaths[0]);
    }
    if migrateErr.Some? {
      return null, migrateErr, order;
    }
    PathsTrimmed(userDictPaths);
    d := new DrityWord(TrimSpace(userDict), TrimSpace(DefaultDictDir), file);
    var m := LoadDrityWordMap(table);
    d.drityWordMap := m;
    err, order := d.WriteDrityWord(io);
  }
}
