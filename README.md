# Dirty-word moderation and OAuth 2.0 helpers of realclouds_go, in Dafny

This project models the core of the `realclouds_go` web toolkit. It covers
five pieces.

- **Masking filter.** `DrityWordFilter` trims a text and cuts it into
  tokens with a segmenter. Each token whose MD5 is a key of the dirty-word
  map becomes one `*` per rune; every other token is kept as it is.
- **Dictionary life cycle.** `NewDrityWord` builds the `md5 -> value` map
  from the live rows of the term table. `WriteDrityWord` writes one user
  dictionary line per non-empty value. `ReloadDict` hands the segmenter the
  default dictionary files plus the user dictionary. `Subscription`
  listens on the `drityword_up` channel and reloads once on an `up`
  message.
- **Pub/sub listener.** `listenPubSubChannels` is a receive-and-dispatch
  state machine followed by a shutdown through a one-slot `done` channel.
- **Term queries.** `paramsToMaps` reads flat key/value arguments, and
  `FindDrityWords` chooses the SQL clauses from them.
- **Helpers.** The string, path and map helpers of `utils/utils.go`, and
  the OAuth 2.0 request assembly of RFC 6749 (section 4.1.1 authorization
  request, section 4.1.3 token request). This includes the WeChat variant
  and the QQ response parsing.

Go values that the code changes in place become Dafny classes:
- `DrityWord` has its map, the user dictionary file's content, the path
  list the segmenter loaded and the subscription's cancel flag.
- `StringUtils` is modelled as a class because `Set` and `Clear` overwrite
  it through a pointer.

The loops of the source are methods with invariants. Each is proved
against a specification function, and the properties the code promises
are lemmas about those functions.

The outside world is passed in as parameters:
- the segmenter and the MD5 fingerprint;
- the file system (`IoEnv`);
- the redis connection and the events it delivers;
- the HTTP bodies and the JSON decoder;
- the random numbers;
- `url.QueryEscape`.

Modules: `Wrappers`, `Text` (Go `strings`/`strconv` helpers), `Utf8`,
`Maps`, `UrlValues`, `Masking`, `WebContext`, `DrityWords`, `TermStore`,
`PubSub`, `Utils`, `OAuth2`, `WeChat`, `QQ`.

Some behaviour is modelled as the code has it, where one might expect
otherwise:
- The user dictionary is opened without truncation, so a rewrite with
  fewer bytes leaves the old file's tail behind (`DrityWords.Overwrite`).
  The file is counted in UTF-8 bytes, so a word of multi-byte characters
  replaced by an ASCII word of as many characters leaves stale bytes too.
- The new map is installed before the file is written, so a failed write
  leaves it in place.
- The subscription is cancelled after the first reload, whether or not the
  reload succeeded.
- A failed keep-alive PING is never the listener's return value: it
  returns what it reads from `done`.
- `FindDrityWords` without arguments returns every live row, and this is
  the query the reload uses.

## Model

| member | source | states |
|---|---|---|
| WebContext.DrityWordFilter | middleware/context.go:156-175 | the output is the masking of the segments of the trimmed text, each checked against the map as it stood before the loop |
| Masking.MaskAllIsConcatOfPieces | middleware/context.go:159-174 | the output is exactly one piece per token, concatenated in token order with no separators |
| Masking.MaskAllAppend | middleware/context.go:164-172 | masking a split token list is masking each part and concatenating the results |
| Masking.PieceOfWord | middleware/context.go:165-171 | a listed word becomes one star per code point (not per byte); an unlisted word is kept byte for byte |
| Masking.TwoByteLetterOneStar | middleware/context.go:168 | a two-byte UTF-8 letter that is listed is masked by a single star |
| Masking.MaskAllNoHits | middleware/context.go:169-171 | when no token's fingerprint is a key, the output is the tokens unchanged |
| Masking.MaskAllEmptyDictionary | middleware/context.go:163-172 | with an empty map the output is the concatenation of the tokens |
| WebContext.FilterEmptyMapIsTrim | middleware/context.go:156-175 | with an empty map and a segmenter that returns pieces of its input, the filter returns the trimmed text |
| Masking.MaskAllNotLonger | middleware/context.go:164-172 | masking never makes the text longer |
| Masking.MaskAllDependsOnKeys | middleware/context.go:166 | only the key set of the map matters, never its values |
| Masking.Stars | middleware/context.go:168 | `strings.Repeat("*", n)` is n stars |
| WebContext.UpdateDrityWord | middleware/context.go:150-153 | the given map is installed and stays installed; the result and file are those of the dictionary rewrite of that map |
| DrityWords.TermsToMapKeys | middleware/drityword.go:67-71 | a key of the built map is exactly an md5 of some row |
| DrityWords.TermsToMapLastWins | middleware/drityword.go:69-71 | the value under an md5 is that of the last row carrying it |
| DrityWords.TermsToMapContentAddressed | middleware/drityword.go:67-71 | when each row's md5 is the fingerprint of its value, every key is the fingerprint of the value stored under it |
| DrityWords.BuildDrityWordMap | middleware/drityword.go:149-153 | the loop over the rows leaves the map where later rows overwrite earlier ones |
| DrityWords.LoadDrityWordMap | middleware/drityword.go:65-71 | the argument-less query plus the map build gives the map of every live row |
| DrityWords.MapOrder | middleware/drityword.go:90 | the order `range` visits the map in lists every key exactly once |
| DrityWords.DictLinesContent | middleware/drityword.go:90-97 | every written line is a visited non-empty value followed by ` 100000\n`, and every such value has its line |
| DrityWords.EmptyValuesWriteNothing | middleware/drityword.go:91 | a map of empty values writes no line |
| DrityWords.DictLinesAppend | middleware/drityword.go:90-97 | the lines of a split visit order are the lines of each part, in order |
| DrityWords.VisitOneMore | middleware/drityword.go:90-97 | visiting one more key appends its line when its value is non-empty and nothing otherwise |
| DrityWords.Overwrite | middleware/drityword.go:84 | a file of bytes written without truncation keeps its length when the new data is shorter |
| DrityWords.OverwriteKeepsStaleTail | middleware/drityword.go:84 | a rewrite with fewer bytes starts with the new data and keeps the old bytes after it |
| DrityWords.StaleSuffixBytes | middleware/drityword.go:84-92 | a line rewritten with a word of `d` fewer UTF-8 bytes leaves the last `d` bytes of the old line's suffix behind |
| DrityWords.ShorterRewriteLeavesStaleNewline | middleware/drityword.go:84-92 | a one-line file of a three-byte word rewritten with a two-letter word keeps the old line's final newline, because lines are written as UTF-8 bytes |
| DrityWords.StopBeforeLine | middleware/drityword.go:92-95 | the lines written before a failing write are a proper prefix of all lines |
| DrityWords.FailedWriteOutcome | middleware/drityword.go:90-95 | when the write of a key's line fails, the bytes of the earlier lines are written over the old file (whose tail past them survives) and that error is returned |
| DrityWords.WriteFailureSkipsReload | middleware/drityword.go:92-95 | a failed write is returned and the segmenter keeps what it had loaded |
| DrityWords.WriteSuccessReloads | middleware/drityword.go:90-101 | a full write and a successful load leave the segmenter on the default files plus the user dictionary, and the file starting with every line |
| DrityWords.DrityWord.WriteLines | middleware/drityword.go:90-97 | the write loop visits every key once and leaves the file and error of its specification: the UTF-8 bytes of every line, or of the lines before the failing one, written over the old file from offset 0 |
| DrityWords.DrityWord.WriteDrityWord | middleware/drityword.go:83-103 | an open error changes nothing; otherwise the lines are written and, when no write failed, the dictionaries are reloaded |
| DrityWords.PathListSplits | middleware/drityword.go:110-117 | the comma-joined list splits back into the default files with the user dictionary last |
| DrityWords.DrityWord.ReloadDict | middleware/drityword.go:106-126 | a walk error is returned; otherwise `LoadDict` gets the default files plus the user path, and only a successful load records the list |
| DrityWords.DrityWord.OnMessage | middleware/drityword.go:138-171 | only a trimmed lower-cased `up` on the trimmed `drityword_up` channel reloads: the map of all live rows is installed, the dictionary rewritten and the subscription cancelled, failure or not; anything else returns nil and changes nothing |
| DrityWords.DrityWord.HandleEvent | middleware/redis.go:154-183 | without an up signal one event is the listener's step with nil-returning callbacks and nothing changes; the map is kept or replaced by the live-row map |
| DrityWords.DrityWord.ReceiveUpdates | middleware/redis.go:152-185 | without an up signal the loop ends as the listener's dispatch does and nothing changes; a cancel needs an up signal |
| DrityWords.DrityWord.Subscription | middleware/drityword.go:129-180 | a connection or subscribe failure returns at once; with no up signal the result is the listener's on `drityword_up` and nothing changes |
| DrityWords.PathsTrimmed | middleware/drityword.go:47-60 | the stored user and default paths are unchanged by the second trim |
| DrityWords.NewDrityWord | middleware/drityword.go:46-80 | a migration error returns no object; otherwise the object has the user path (default or trimmed), the live-row map, and the outcome of writing the dictionary |
| DrityWords.DrityWord.constructor | middleware/drityword.go:58-63 | a fresh object with the given paths, an empty map and a segmenter that has loaded nothing |
| PubSub.Classify | middleware/redis.go:154-183 | an error finishes with it; messages are delivered only to a non-nil callback; a count equal to the channel count starts, tested before the count 0 that finishes with nil; any other count and a pong are skipped |
| PubSub.DispatchFrom | middleware/redis.go:152-185 | the receive loop ends after consuming at least one and at most all events, or keeps waiting |
| PubSub.DispatchEndsAtFirstOutcome | middleware/redis.go:152-185 | the loop ends at event k with r exactly when event k ends it with r and no earlier one does |
| PubSub.DispatchWaits | middleware/redis.go:152-185 | the loop keeps waiting exactly when no event ends it |
| PubSub.Receive | middleware/redis.go:152-185 | the goroutine's loop returns its specification's result |
| PubSub.Listen | middleware/redis.go:124-213 | the listener's result is its specification: early errors, then the dispatch and shutdown |
| PubSub.ReceiveErrorEndsListen | middleware/redis.go:155-157 | a receive error ends dispatch with exactly that error, and no later event is handled |
| PubSub.HandlerErrorEndsDispatch | middleware/redis.go:158-178 | an `onMessage`, `onPMessage` or `onStart` error ends dispatch with that error at that event |
| PubSub.NilHandlerSkips | middleware/redis.go:158-171 | a message or pattern message without a callback is passed over |
| PubSub.NoChannelsZeroCountStarts | middleware/redis.go:173-181 | with no channels a zero count calls `onStart` rather than ending the loop |
| PubSub.PingErrorIsDiscarded | middleware/redis.go:192-212 | after a failed PING and clean unsubscribes the loop's own result is returned, not the PING error |
| PubSub.BothUnsubscribeFailuresBlock | middleware/redis.go:204-212 | two failing unsubscribes fill the one-slot `done` and the listener blocks |
| PubSub.UnsubscribeFailureIsReturned | middleware/redis.go:204-212 | a failing UNSUBSCRIBE that reaches the empty `done` first is what the listener returns |
| PubSub.BufferedResultBlocksFailure | middleware/redis.go:199-212 | when the loop's result is already buffered, any unsubscribe failure blocks the listener |
| TermStore.ParamsToMaps | middleware/dritywordDB.go:111-122 | the stride-2 loop leaves the map of the argument pairs, later pairs overwriting earlier ones |
| Maps.PairsToMapKeys | middleware/dritywordDB.go:115-119 | a key is in the map exactly when it is the key of some pair |
| Maps.PairsToMapLastWins | middleware/dritywordDB.go:118 | the value kept for a key is that of the last pair carrying it |
| TermStore.FindDrityWords | middleware/dritywordDB.go:68-100 | the rows returned are the table rows the chosen clauses select, and the count is their number |
| TermStore.Select | middleware/dritywordDB.go:97 | a returned row is a matching table row, and every matching row is returned |
| TermStore.Live | middleware/dritywordDB.go:97 | the rows kept are exactly the rows not soft-deleted |
| TermStore.SelectAllIsLive | middleware/dritywordDB.go:97 | with no clause the query returns the live rows in table order |
| TermStore.NoArgumentsReturnsAllLive | middleware/dritywordDB.go:68-97 | no arguments add no clause, and all live rows are returned |
| TermStore.OtherKeysIgnored | middleware/dritywordDB.go:71-73 | keys other than `ids`, `md5s` and `keywords` do not change the clauses |
| TermStore.IdsOnlyFilter | middleware/dritywordDB.go:75-81 | a non-empty `ids` gives one IN list of at least one untrimmed comma piece, joining back to the value; a row matches iff it is live and its id is a piece |
| TermStore.Md5sOnlyFilter | middleware/dritywordDB.go:83-89 | a non-empty `md5s` gives one IN list; a row matches iff it is live and its md5 is a piece |
| TermStore.KeywordMatches | middleware/dritywordDB.go:93 | the keyword clauses select a live row iff its name, description, value or md5 contains the keyword |
| TermStore.KeywordOnlyFilter | middleware/dritywordDB.go:91-95 | a keyword alone selects a live row iff one of its four columns contains it |
| Utils.StringUtils.constructor | utils/utils.go:159 | the value holds the given string |
| Utils.StringUtils.Exist | utils/utils.go:173-175 | true exactly when the value is not the 0x1E sentinel |
| Utils.StringUtils.String | utils/utils.go:256-261 | the value, or "" exactly when it is the sentinel |
| Utils.StringUtils.Clear | utils/utils.go:169-171 | stores the sentinel; afterwards `Exist` is false and `String` is "" |
| Utils.StringUtils.Set | utils/utils.go:161-167 | "" clears; any other value is stored and reads back, except the sentinel itself, which reads as absent |
| Utils.Hex4 | utils/utils.go:512-513 | four bytes that parse give a value below 0x10000 |
| Utils.Hex4Digits | utils/utils.go:512-513 | four bytes parse exactly when each is a hex digit (either case), to the base-16 number they spell |
| Utils.HTMLUnicodeToHTMLString | utils/utils.go:502-526 | the byte loop produces the unescaping specification: `\uXXXX` becomes the UTF-8 of the code point, a bad escape or a short tail is copied |
| Utils.EscapeStep | utils/utils.go:511-519 | an escape is replaced and the scan resumes six bytes later |
| Utils.CopyStep | utils/utils.go:520-523 | a byte that starts no escape is copied and the scan moves one byte |
| Utils.UnescapedNoBackslash | utils/utils.go:502-526 | text without a backslash comes back unchanged |
| Utils.HexRoundTrip | utils/utils.go:512-513 | four upper-case hex digits of a BMP value parse back to it |
| Utils.UnescapeEscapeAll | utils/utils.go:502-526 | text written wholly as `\uXXXX` escapes unescapes to the UTF-8 of the characters |
| Utf8.EncodeRune | utils/utils.go:515 | one to four bytes; ASCII is one byte; a surrogate or out-of-range value is U+FFFD |
| Utf8.EncodedRuneWidth | middleware/context.go:168 | the rune counter reads an encoded rune back as one rune of its encoded length |
| Utf8.RuneCountOfEncode | middleware/context.go:168 | the rune count of encoded text is its number of characters |
| Utf8.EncodeAppend | utils/utils.go:515 | encoding distributes over concatenation |
| Utils.TrimRightChar | utils/utils.go:95 | the result is a prefix not ending in the separator, and only separators were dropped |
| Utils.ProjectDir | utils/utils.go:87-97 | the result is the prefix of the binary directory before the first `sep+"src"` (the whole directory without one) with its trailing separators dropped, and nothing else |
| Text.JoinSplit | utils/utils.go:88-89 | splitting and joining on the same separator is the identity |
| Text.SplitJoin | middleware/drityword.go:117 | joining separator-free parts and splitting again gives them back |
| Utils.RandURLParts | utils/utils.go:411-425 | the URL is the trimmed path, `&` if it holds `?` (else `?`), `_=`, and digits that read back as the number |
| Utils.RandIntWideRangePanics | utils/utils.go:533 | the widest int64 range wraps the bound to -1, so the call fails |
| Utils.RandInt | utils/utils.go:528-534 | `end` when start >= end, else a value in [start, end) |
| Utils.RandIntAgrees | utils/utils.go:528-534 | where the difference fits in int64, the code as written returns the intended value |
| Utils.ArrayToStringMap | utils/utils.go:602-609 | the stride-2 loop leaves the map of the pairs, later pairs overriding earlier ones |
| Utils.MergeStringMap | utils/utils.go:611-619 | the map of all maps in order, later maps overriding earlier ones |
| Utils.CopyInto | utils/utils.go:614-616 | copying one map's entries in any order gives the union where that map wins |
| Utils.CopyOneMore | utils/utils.go:615 | copying one more entry extends the copied part by it |
| Maps.MergeAllLookup | utils/utils.go:611-619 | a key's merged value comes from the last map holding it |
| Maps.MergeAllKeys | utils/utils.go:611-619 | every merged key belongs to one of the maps |
| Utils.GetCharsetIgnoresCase | utils/utils.go:680-681 | the lookup ignores case: upper-casing the name first changes nothing |
| Utils.GetCharsetExamples | utils/utils.go:684-699 | `utf-8` is the no-op encoding, `gb2312` is HZ-GB2312, and `bıg5` upper-cases to BIG5 |
| Utils.GetCharsetUnknown | utils/utils.go:714-715 | a name outside the table gives nil |
| Utils.GetCharsetNil | utils/utils.go:680-717 | nil exactly when the upper-cased name is none of the table's names |
| Text.TrimSpaceIsInfix | utils/utils.go:412 | trimming removes white space from both ends only and keeps the rest in place, with no white space at either end |
| Text.TrimSpaceIdempotent | middleware/drityword.go:50-59 | trimming twice is trimming once |
| Text.TrimLeftDropsSpaces | middleware/context.go:157 | the leading white space is dropped and the remainder is a suffix that does not start with white space |
| Text.TrimRightDropsSpaces | middleware/context.go:157 | the trailing white space is dropped and the remainder is a prefix that does not end with white space |
| Text.ToLower | middleware/drityword.go:140 | lower-casing maps each character in place |
| Text.ToUpper | utils/utils.go:681 | upper-casing maps each character in place |
| Text.IndexOf | oauth2/qq.go:142-143 | the first position of the character, or -1 exactly when it is absent |
| Text.IndexOfSeq | utils/utils.go:91 | the first position where the substring occurs, or -1 when it never does |
| Text.Split | middleware/dritywordDB.go:76 | never empty, and no part holds the separator |
| Text.DecimalRoundTrip | utils/utils.go:423 | a formatted number reads back as itself |
| Text.ParseInt32 | utils/utils.go:191-194 | success exactly for an optional sign and decimal digits within 32 bits, with the digits' value, negated after a minus sign |
| Text.ParseInt32Formatted | utils/utils.go:191-194 | every 32-bit value printed without a sign parses back |
| Text.ParseInt32FormattedNegative | utils/utils.go:191-194 | a printed magnitude up to 2^31 behind a minus sign parses back as its negation |
| Text.SortedKeys | oauth2/oauth2.go:98 | the keys of a set, each once, in strictly increasing string order (as `url.Values.Encode` sorts them) |
| Text.HasLeast | oauth2/oauth2.go:98 | every non-empty set of strings has a least element |
| Text.BelowTotal | oauth2/oauth2.go:98 | Go's string order is total |
| Text.BelowTransitive | oauth2/oauth2.go:98 | Go's string order is transitive |
| Text.BelowAntisymmetric | oauth2/oauth2.go:98 | Go's string order is antisymmetric |
| UrlValues.Set | oauth2/oauth2.go:23 | the key's list becomes exactly the one value, and other keys keep theirs |
| UrlValues.EncodedParam | oauth2/oauth2.go:98 | `key=value` is an `&`-part of the encoding iff the value is among the key's values |
| UrlValues.PairInjective | oauth2/oauth2.go:98 | an encoded pair determines its key and value |
| UrlValues.PairsSound | oauth2/oauth2.go:98 | every encoded pair is a value of one of the keys |
| UrlValues.PairsComplete | oauth2/oauth2.go:98 | every value of every key has its encoded pair |
| OAuth2.OptionLastWins | oauth2/oauth2.go:89-91 | the last option for a key replaces its list with the option's value |
| OAuth2.OptionsKeepOtherKeys | oauth2/oauth2.go:89-91 | a key no option names keeps its list |
| OAuth2.ApplyAll | oauth2/oauth2.go:89-91 | the option loop applies every option in order |
| OAuth2.CondVal | oauth2/oauth2.go:70-75 | the empty list exactly for "", else the one-element list of the value |
| OAuth2.AuthCodeURL | oauth2/oauth2.go:78-101 | the authorization URL, the separator chosen from it, the encoded parameters after the options, and `&_=` with the number |
| OAuth2.AuthValuesLookup | oauth2/oauth2.go:81-87 | the starting parameters: `response_type=code`, the client id, and `redirect_uri`, `scope`, `state` conditional on being non-empty |
| OAuth2.DefaultParam | oauth2/oauth2.go:81-98 | a parameter no option names is encoded with exactly its starting values |
| OAuth2.AuthQueryRequired | oauth2/oauth2.go:81-98 | without overriding options `response_type=code` and the client id are always sent, with no other value |
| OAuth2.AuthQueryOptional | oauth2/oauth2.go:84-98 | without overriding options `redirect_uri`, `scope` (space-joined) and `state` are sent exactly when non-empty |
| OAuth2.OptionParam | oauth2/oauth2.go:89-98 | a parameter set by an option is encoded with the option's value and no other |
| OAuth2.ExchangeRequest | oauth2/oauth2.go:104-129 | the token URL with the separator chosen from it, and the encoded parameters followed by `&_=` and the number |
| OAuth2.ExchangeValuesLookup | oauth2/oauth2.go:107-111 | the token request starts from `grant_type=authorization_code`, the code, and `redirect_uri` when non-empty |
| OAuth2.ExchangeQueryParams | oauth2/oauth2.go:107-127 | without overriding options the token query carries the grant type and the code, and `redirect_uri` exactly when non-empty |
| OAuth2.CacheBusterReadsBack | oauth2/oauth2.go:99 | the URL ends with `&_=` and digits that read back as the number |
| WeChat.WeChatAuthCodeURL | oauth2/wechat.go:37-70 | the chosen base, its separator, the encoded parameters after the options, then `#wechat_redirect` with no cache buster |
| WeChat.WeChatURLShape | oauth2/wechat.go:40-68 | the URL begins with the QR or plain base as `qr` says and ends with the fragment |
| WeChat.WeChatKeys | oauth2/wechat.go:48-54 | the starting keys send the client id under `appid`; `client_id` is not among them |
| WeChat.WeChatSendsAppID | oauth2/wechat.go:48-66 | without an option naming them, the client id is sent as `appid` and never as `client_id` |
| WeChat.WeChatOptionOverrides | oauth2/wechat.go:56-66 | an option's value replaces a default one |
| QQ.Get | oauth2/qq.go:84-86 | the first value of a key, or "" when it has none |
| QQ.OpenIDSlice | oauth2/qq.go:142-150 | none exactly when a brace is missing; else the slice from the first `{` through the first `}` |
| QQ.QQOpenID | oauth2/qq.go:137-155 | a transport error or a missing brace is an error; otherwise the decoder's verdict on the cut-out object |
| QQ.BracePositions | oauth2/qq.go:142-143 | in `prefix{obj}suffix` with no brace before, the first braces are the ones shown |
| QQ.CallbackWrapperStripped | oauth2/qq.go:142-150 | a JSONP answer `callback( {...} );` is cut down to the object |
| QQ.QQExchange | oauth2/qq.go:79-112 | success exactly when the answer parses, `expires_in` is a 32-bit integer, the OpenID map is obtained and holds both fields; the token carries those values |
| QQ.MissingOpenIDField | oauth2/qq.go:98-102 | an OpenID map missing `openid` or `client_id` gives "Invalid QQ OpenID" |
| QQ.WellFormedAnswerAccepted | oauth2/qq.go:84-112 | a well-formed answer gives a token with exactly its values |
| QQ.QQExchangeRequest | oauth2/qq.go:42-68 | the token URL with the separator chosen from it, and the encoded QQ parameters followed by `&_=` and the number |
| QQ.QQExchangeValuesLookup | oauth2/qq.go:45-51 | the QQ token request starts from the grant type, client id, client secret, code and redirect URI, each with one value |
| QQ.QQExchangeQueryParams | oauth2/qq.go:45-68 | without overriding options the QQ token query carries the grant type, the code and `redirect_uri`, each with exactly its value, `redirect_uri` even when empty |
| QQ.QQExchangeSendsCredentials | oauth2/qq.go:45-68 | without overriding options the QQ token query carries the client id and the client secret, each with exactly its value |
| QQ.QQOpenIDRequest | oauth2/qq.go:117-135 | the OpenID URL with the separator chosen from it, and the encoded access token followed by `&_=` and the number |
| QQ.QQOpenIDQuery | oauth2/qq.go:119-133 | the OpenID query carries the access token and no other parameter |

## Left out

- File and directory I/O, the segmenter's `LoadDict`, `WalkPaths` and `GetBinDir` are parameters of `IoEnv`. The file is its content as UTF-8 bytes; the `os.ModePerm` flags are not modelled.
- WebContext.DrityWordFilter: Go strings and byte slices may hold invalid UTF-8, but the model's `string` is a sequence of Unicode scalar values, so such input is not modelled. This covers the text given to `DrityWordFilter` (middleware/context.go:157-161), the pub/sub channel and payload handled by `OnMessage` (middleware/drityword.go:139-141), and the HTTP bodies parsed by `QQExchange` and `QQOpenID` (oauth2/qq.go:79, 142-150). For example, a byte 0xFF, which `utf8.RuneCountInString` counts as one rune, cannot occur in a model input.
- The gse segmenter and MD5 are function parameters; their dictionaries and hashing are not modelled.
- Go's map iteration order is an enumeration of the keys chosen when the write loop starts. Only the fact that it lists every key once is assumed.
- The `Mutex` field of `DrityWord` is never locked in the code, and the model has no concurrency. The receiving goroutine is the sequence of events it would receive. The ticker and context `select` is reduced to which case fires first (`PubSub.FirstReady`).
- The goroutine after shutdown: if the dispatch is still waiting when the select loop stops, the model reports the listener as blocked and does not model later events.
- The connection pool, dialing, AUTH and SELECT, and the typed `Get*` wrappers of redis.go are not part of this model.
- `Subscription` passes `[]string{"drityword_up"}, []string{}` to a variadic string parameter. The model takes the channel list to be `["drityword_up"]`.
- SQL: gorm's clause combination is modelled as the live-row test AND (the conjunction of the `Where` conditions OR any `Or` condition). `LIKE` is substring containment, with no `%`/`_` wildcards inside the keyword and no collation. Migrations are one error parameter.
- `ToLower`/`ToUpper` map only the characters whose case mapping is ASCII. Other characters are kept, which cannot change a comparison with ASCII text.
- `url.QueryEscape` is a parameter, assumed injective and to escape `=` and `&` (`UrlValues.Escaping`).
- HTTP requests, `url.ParseQuery` and JSON decoding are parameters of `QQ`; the request URLs are built by `QQExchangeRequest` and `QQOpenIDRequest`.
- TermStore.Select: rows come back in table order. The query at middleware/dritywordDB.go:97 has no ORDER BY, so this order is an assumption of the model, and so is the "last row" of DrityWords.TermsToMapLastWins and DrityWords.BuildDrityWordMap. The md5 is only part of a composite primary key (middleware/dritywordDB.go:13,23), so several live rows may share it, and which value wins is then up to the database.
- DrityWords.DrityWord.WriteLines: a failing `WriteString` is taken to write none of its line; a partial write before the error is not modelled.
- oauth2/weibo.go, the other WeChat and QQ requests, and the rest of utils/utils.go are not part of this model.
- QQ.OpenIDSlice: requires that a `}` does not come before the first `{` by more than one place, because the Go slice bounds would then be reversed and panic.
- TermStore.ParamsToMaps: requires an even number of arguments, because an odd list indexes past its end in Go.
- Utils.ArrayToStringMap: requires an even number of strings, for the same reason.
- DrityWords.DrityWord.HandleEvent: for an up signal it states only that the map is the live-row map or unchanged and that cancelling needs the signal; the full effect is `OnMessage`'s contract.
- DrityWords.DrityWord.ReceiveUpdates: states the exact dispatch result only when no event asks for a reload; otherwise it states the possible maps and when a cancel can happen.
- DrityWords.DrityWord.Subscription: the same restriction as `ReceiveUpdates`.
- Utils.RandURLParts: the random number is a parameter, and the `StringUtils` receiver is its text.
- OAuth2.AuthCodeURL: the cache-busting number is a parameter rather than `RandInt64`.

## Findings

| source | as written | input that shows it | evidently intended | confidence | as-written member | corrected member |
|---|---|---|---|---|---|---|
| utils/utils.go:528-534 | `rnd.Int63n(end-start) + start` computes `end-start` in int64, which overflows for wide ranges; `Int63n` panics on a non-positive argument | start = -9223372036854775808, end = 9223372036854775807 (the difference wraps to -1) | a value in [start, end) for every start < end | not executed | Utils.RandIntAsWritten, Utils.RandIntWideRangePanics | Utils.RandInt |
