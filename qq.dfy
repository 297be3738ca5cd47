/** The QQ requests of oauth2/qq.go: the token and OpenID requests, cutting
    the JSON object out of the JSONP-style OpenID answer, and validating the
    token answer. The HTTP
    bodies are parameters, and so is the JSON decoder `unmarshal` that turns
    the cut-out object into a string map. */
module QQ {
  import opened Wrappers
  import opened Text
  import opened UrlValues
  import OAuth2
  import Utils

  /** The fields of `Token` that `QQExchange` fills. */
  datatype Token = Token(accessToken: string, refreshToken: string, openID: string, clientID: string, expiresIn: int)

  /** `url.Values.Get`: the first value of a key, or "" when it has none. */
  function Get(v: Values, key: string): (r: string)
    ensures key in v && |v[key]| > 0 ==> r == v[key][0]
    ensures (key !in v || v[key] == []) ==> r == ""
  {
    if key in v && |v[key]| > 0 then v[key][0] else ""
  }

  /** The answers the code handles: a `}` never comes before the first `{`
      by more than one place (earlier still, the slice bounds are reversed). */
  predicate BracesHandled(body: string)
  {
    IndexOf(body, '{') == -1 || IndexOf(body, '}') == -1 || IndexOf(body, '{') <= IndexOf(body, '}') + 1
  }

  /** The part of the OpenID answer handed to the JSON decoder: from the
      first `{` through the first `}`, or None when either is missing. */
  function OpenIDSlice(body: string): (r: Option<string>)
    requires BracesHandled(body)
    ensures r.None? <==> '{' !in body || '}' !in body
    ensures r.Some? ==>
      var i := IndexOf(body, '{');
      0 <= i && i + |r.value| <= |body| && body[i..i + |r.value|] == r.value
      && '{' !in body[..i]
      && (r.value != [] ==> r.value[0] == '{' && r.value[|r.value| - 1] == '}' && '}' !in r.value[..|r.value| - 1])
  {
    var sri := IndexOf(body, '{');
    var eri := IndexOf(body, '}');
    if sri == -1 || eri == -1 then None
    else
      assert sri <= eri ==> body[sri..eri + 1][..eri - sri] == body[sri..eri];
      Some(body[sri..eri + 1])
  }

  /** `QQOpenID` after the GET: a transport error, a missing brace, or the
      decoder's verdict on the cut-out object. */
  function QQOpenID(body: Result<string>, unmarshal: string -> Result<map<string, string>>): (r: Result<map<string, string>>)
    requires body.Ok? ==> BracesHandled(body.value)
    ensures body.Err? ==> r == Err(body.error)
    ensures body.Ok? && ('{' !in body.value || '}' !in body.value) ==> r == Err(Error("Token body err:"))
    ensures body.Ok? && '{' in body.value && '}' in body.value ==> r == unmarshal(OpenIDSlice(body.value).value)
  {
    match body
    case Err(e) => Err(e)
    case Ok(b) =>
      match OpenIDSlice(b)
      case None => Err(Error("Token body err:"))
      case Some(s) => unmarshal(s)
  }

  /** The OpenID answer for the access token of a token answer is one the
      code handles. */
  predicate OpenIDHandled(tokenBody: Result<Values>, openIDBody: string -> Result<string>)
  {
    tokenBody.Ok? ==>
      var b := openIDBody(Get(tokenBody.value, "access_token"));
      b.Ok? ==> BracesHandled(b.value)
  }

  /** `QQExchange` after its GET: the parsed token answer, then `expires_in`
      as a base-10 32-bit integer, then the OpenID answer for the access
      token, then the presence of `openid` and `client_id`; the first
      failure is returned. */
  function QQExchange(tokenBody: Result<Values>, openIDBody: string -> Result<string>,
                      unmarshal: string -> Result<map<string, string>>): (r: Result<Token>)
    requires OpenIDHandled(tokenBody, openIDBody)
    ensures tokenBody.Err? ==> r == Err(tokenBody.error)
    ensures tokenBody.Ok? && ParseInt32(Get(tokenBody.value, "expires_in")).Err? ==> r.Err?
    ensures r.Ok? <==>
      tokenBody.Ok? && ParseInt32(Get(tokenBody.value, "expires_in")).Ok?
      && QQOpenID(openIDBody(Get(tokenBody.value, "access_token")), unmarshal).Ok?
      && "openid" in QQOpenID(openIDBody(Get(tokenBody.value, "access_token")), unmarshal).value
      && "client_id" in QQOpenID(openIDBody(Get(tokenBody.value, "access_token")), unmarshal).value
    ensures r.Ok? ==>
      var m := QQOpenID(openIDBody(Get(tokenBody.value, "access_token")), unmarshal).value;
      r.value == Token(Get(tokenBody.value, "access_token"), Get(tokenBody.value, "refresh_token"),
                       m["openid"], m["client_id"], ParseInt32(Get(tokenBody.value, "expires_in")).value)
      && MinInt32 <= r.value.expiresIn <= MaxInt32
  {
    match tokenBody
    case Err(e) => Err(e)
    case Ok(values) =>
      var accessToken := Get(values, "access_token");
      var expiresIn := Get(values, "expires_in");
      var refreshToken := Get(values, "refresh_token");
      match ParseInt32(expiresIn)
      case Err(e) => Err(e)
      case Ok(ei) =>
        match QQOpenID(openIDBody(accessToken), unmarshal)
        case Err(e) => Err(e)
        case Ok(m) =>
          if "openid" !in m || "client_id" !in m then Err(Error("Invalid QQ OpenID"))
          else Ok(Token(accessToken, refreshToken, m["openid"], m["client_id"], ei))
  }

  /** An OpenID map without `openid` or `client_id` is refused with
      "Invalid QQ OpenID". */
  lemma MissingOpenIDField(tokenBody: Result<Values>, openIDBody: string -> Result<string>,
                           unmarshal: string -> Result<map<string, string>>)
    requires OpenIDHandled(tokenBody, openIDBody)
    requires tokenBody.Ok? && ParseInt32(Get(tokenBody.value, "expires_in")).Ok?
    requires var o := QQOpenID(openIDBody(Get(tokenBody.value, "access_token")), unmarshal);
      o.Ok? && ("openid" !in o.value || "client_id" !in o.value)
    ensures QQExchange(tokenBody, openIDBody, unmarshal) == Err(Error("Invalid QQ OpenID"))
  {
  }

  /** A well-formed answer (an `expires_in` printed by `fmt` from a 32-bit
      value, an OpenID object with both fields) gives a token carrying
      exactly those values. */
  lemma WellFormedAnswerAccepted(values: Values, n: nat, openIDBody: string -> Result<string>,
                                 unmarshal: string -> Result<map<string, string>>, m: map<string, string>)
    requires n <= MaxInt32
    requires "expires_in" in values && values["expires_in"] == [NatToString(n)]
    requires OpenIDHandled(Ok(values), openIDBody)
    requires QQOpenID(openIDBody(Get(values, "access_token")), unmarshal) == Ok(m)
    requires "openid" in m && "client_id" in m
    ensures QQExchange(Ok(values), openIDBody, unmarshal)
      == Ok(Token(Get(values, "access_token"), Get(values, "refresh_token"), m["openid"], m["client_id"], n))
  {
    ParseInt32Formatted(n);
  }

  /** In `prefix { obj } suffix` with no brace in `prefix` or `obj`, the
      first `{` and the first `}` are the ones shown. */
  lemma BracePositions(prefix: string, obj: string, suffix: string)
    requires '{' !in prefix && '}' !in prefix
    requires '{' !in obj && '}' !in obj
    ensures var body := prefix + "{" + obj + "}" + suffix;
      IndexOf(body, '{') == |prefix| && IndexOf(body, '}') == |prefix| + 1 + |obj|
  {
    var body := prefix + "{" + obj + "}" + suffix;
    var i, j := |prefix|, |prefix| + 1 + |obj|;
    assert body[..i] == prefix && body[i] == '{';
    IndexOfFirst(body, '{', i);
    assert body[..j] == prefix + "{" + obj && body[j] == '}';
    IndexOfFirst(body, '}', j);
  }

  /** An OpenID answer of the JSONP form `callback( {...} );` is cut down to
      the object between the braces. */
  lemma CallbackWrapperStripped(prefix: string, obj: string, suffix: string)
    requires '{' !in prefix && '}' !in prefix
    requires '{' !in obj && '}' !in obj
    ensures var body := prefix + "{" + obj + "}" + suffix;
      BracesHandled(body) && OpenIDSlice(body) == Some("{" + obj + "}")
  {
    var body := prefix + "{" + obj + "}" + suffix;
    BracePositions(prefix, obj, suffix);
    var i, j := |prefix|, |prefix| + 1 + |obj|;
    assert body[i..j + 1] == "{" + obj + "}";
  }

  // ------------------------------------------------------------ requests

  /** The parameters of `QQExchange`'s token request: unlike `Exchange` it
      sends the client credentials, and `redirect_uri` even when empty. */
  function QQExchangeValues(c: OAuth2.Config, code: string): Values
  {
    map["grant_type" := ["authorization_code"],
        "client_id" := [c.clientID],
        "client_secret" := [c.clientSecret],
        "code" := [code],
        "redirect_uri" := [c.redirectURL]]
  }

  /** The request of `QQExchange`: the token URL with its separator, and
      the path handed to the GET, the encoded parameters and `&_=n`. */
  method QQExchangeRequest(c: OAuth2.Config, code: string, opts: seq<OAuth2.AuthCodeOption>, esc: string -> string, n: nat)
    returns (uri: string, path: string)
    requires n <= Utils.MaxInt64
    ensures uri == c.endpoint.tokenURL + [OAuth2.Separator(c.endpoint.tokenURL)]
    ensures path == Encode(OAuth2.ApplyOptions(QQExchangeValues(c, code), opts), esc) + "&_=" + NatToString(n)
  {
    var v := OAuth2.ApplyAll(QQExchangeValues(c, code), opts);
    var sep := '?';
    if '?' in c.endpoint.tokenURL {
      sep := '&';
    }
    uri := c.endpoint.tokenURL + [sep];
    path := Encode(v, esc) + "&_=" + NatToString(n);
  }

  /** What `QQExchange` starts from, key by key. */
  lemma QQExchangeValuesLookup(c: OAuth2.Config, code: string)
    ensures var e := QQExchangeValues(c, code);
      e.Keys == {"grant_type", "client_id", "client_secret", "code", "redirect_uri"}
      && e["grant_type"] == ["authorization_code"] && e["client_id"] == [c.clientID]
      && e["client_secret"] == [c.clientSecret] && e["code"] == [code]
      && e["redirect_uri"] == [c.redirectURL]
  {
    assert |"grant_type"| == 10 && |"client_id"| == 9 && |"client_secret"| == 13;
    assert |"code"| == 4 && |"redirect_uri"| == 12;
    assert "client_id"[7] == 'i' && "client_secret"[7] == 's';
  }

  /** The keys of `QQExchange`'s request that options may override. */
  predicate NoQQExchangeOverride(opts: seq<OAuth2.AuthCodeOption>)
  {
    forall i :: 0 <= i < |opts| ==>
      opts[i].key != "grant_type" && opts[i].key != "client_id" && opts[i].key != "client_secret"
      && opts[i].key != "code" && opts[i].key != "redirect_uri"
  }

  /** For the parameters `v` after the options: without overriding options
      the QQ token query carries `grant_type=authorization_code`, the code
      and `redirect_uri`, each with exactly its one value, `redirect_uri`
      included when it is empty. */
  lemma QQExchangeQueryParams(c: OAuth2.Config, code: string, opts: seq<OAuth2.AuthCodeOption>,
                              esc: string -> string, x: string, v: Values)
    requires Escaping(esc)
    requires NoQQExchangeOverride(opts)
    requires v == OAuth2.ApplyOptions(QQExchangeValues(c, code), opts)
    ensures var q := Split(Encode(v, esc), '&');
      (Pair(esc, "grant_type", x) in q <==> x == "authorization_code")
      && (Pair(esc, "code", x) in q <==> x == code)
      && (Pair(esc, "redirect_uri", x) in q <==> x == c.redirectURL)
  {
    var e := QQExchangeValues(c, code);
    QQExchangeValuesLookup(c, code);
    OAuth2.DefaultParam(e, opts, esc, "grant_type", x);
    OAuth2.DefaultParam(e, opts, esc, "code", x);
    OAuth2.DefaultParam(e, opts, esc, "redirect_uri", x);
  }

  /** For the parameters `v` after the options: without overriding options
      the QQ token query carries the client id and the client secret, each
      with exactly its one value. */
  lemma QQExchangeSendsCredentials(c: OAuth2.Config, code: string, opts: seq<OAuth2.AuthCodeOption>,
                                   esc: string -> string, x: string, v: Values)
    requires Escaping(esc)
    requires NoQQExchangeOverride(opts)
    requires v == OAuth2.ApplyOptions(QQExchangeValues(c, code), opts)
    ensures var q := Split(Encode(v, esc), '&');
      (Pair(esc, "client_id", x) in q <==> x == c.clientID)
      && (Pair(esc, "client_secret", x) in q <==> x == c.clientSecret)
  {
    var e := QQExchangeValues(c, code);
    QQExchangeValuesLookup(c, code);
    OAuth2.DefaultParam(e, opts, esc, "client_id", x);
    OAuth2.DefaultParam(e, opts, esc, "client_secret", x);
  }

  /** The request of `QQOpenID`: the OpenID URL with its separator, and the
      encoded access token followed by `&_=n`. */
  method QQOpenIDRequest(c: OAuth2.Config, accessToken: string, esc: string -> string, n: nat)
    returns (uri: string, path: string)
    requires n <= Utils.MaxInt64
    ensures uri == c.endpoint.openIDURL + [OAuth2.Separator(c.endpoint.openIDURL)]
    ensures path == Encode(map["access_token" := [accessToken]], esc) + "&_=" + NatToString(n)
  {
    var v: Values := map["access_token" := [accessToken]];
    var sep := '?';
    if '?' in c.endpoint.openIDURL {
      sep := '&';
    }
    uri := c.endpoint.openIDURL + [sep];
    path := Encode(v, esc) + "&_=" + NatToString(n);
  }

  /** The OpenID query carries the access token and nothing under any
      other key. */
  lemma QQOpenIDQuery(accessToken: string, esc: string -> string, key: string, x: string)
    requires Escaping(esc)
    ensures Pair(esc, key, x) in Split(Encode(map["access_token" := [accessToken]], esc), '&')
      <==> key == "access_token" && x == accessToken
  {
    EncodedParam(map["access_token" := [accessToken]], esc, key, x);
  }
}
