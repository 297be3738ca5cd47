/** The request assembly of oauth2/oauth2.go: the authorization request of
    section 4.1.1 of RFC 6749 and the query of the token request of section
    4.1.3, with the scopes space-delimited as section 3.3 asks. The HTTP
    round trip and the JSON decoding of the answer are not part of this
    model; the cache-busting number `n` stands for `utils.RandInt64()`,
    which is never negative. */
module OAuth2 {
  import opened Text
  import opened UrlValues
  import Utils

  datatype Endpoint = Endpoint(qrAuthURL: string, authURL: string, tokenURL: string, openIDURL: string)

  datatype Config = Config(
    clientID: string,
    clientSecret: string,
    endpoint: Endpoint,
    redirectURL: string,
    scopes: seq<string>)

  /** `setParam`, made by `SetAuthURLParam(key, value)`. */
  datatype AuthCodeOption = SetParam(key: string, value: string)
  {
    /** `setValue`: the option's value replaces the key's list. */
    function SetValue(m: Values): Values
    {
      Set(m, key, value)
    }
  }

  /** The options applied in order to a query. */
  function ApplyOptions(v: Values, opts: seq<AuthCodeOption>): Values
  {
    if opts == [] then v else opts[|opts| - 1].SetValue(ApplyOptions(v, opts[..|opts| - 1]))
  }

  /** The last option for a key decides its list, whatever came before. */
  lemma {:induction false} OptionLastWins(v: Values, opts: seq<AuthCodeOption>, j: nat)
    requires j < |opts|
    requires forall i :: j < i < |opts| ==> opts[i].key != opts[j].key
    ensures var r := ApplyOptions(v, opts);
      opts[j].key in r && r[opts[j].key] == [opts[j].value]
    decreases |opts|
  {
    if j < |opts| - 1 {
      OptionLastWins(v, opts[..|opts| - 1], j);
    }
  }

  /** A key no option names keeps its list. */
  lemma {:induction false} OptionsKeepOtherKeys(v: Values, opts: seq<AuthCodeOption>, key: string)
    requires forall i :: 0 <= i < |opts| ==> opts[i].key != key
    ensures var r := ApplyOptions(v, opts);
      (key in r <==> key in v) && (key in v ==> r[key] == v[key])
    decreases |opts|
  {
    if opts != [] {
      OptionsKeepOtherKeys(v, opts[..|opts| - 1], key);
    }
  }

  /** The option loop shared by every request builder. */
  method ApplyAll(v: Values, opts: seq<AuthCodeOption>) returns (r: Values)
    ensures r == ApplyOptions(v, opts)
  {
    r := v;
    for i := 0 to |opts|
      invariant r == ApplyOptions(v, opts[..i])
    {
      assert opts[..i + 1][..i] == opts[..i];
      r := opts[i].SetValue(r);
    }
    assert opts[..|opts|] == opts;
  }

  /** `CondVal`: nil for the empty string, else the one-element list. */
  function CondVal(v: string): (r: seq<string>)
    ensures r == [] <==> v == ""
    ensures forall x :: x in r <==> v != "" && x == v
  {
    if v == "" then [] else [v]
  }

  /** The byte written between a base URL and its query: `&` when the URL
      already holds a `?`, else `?`. */
  function Separator(url: string): char
  {
    if '?' in url then '&' else '?'
  }

  /** The parameters `AuthCodeURL` starts from. */
  function AuthValues(c: Config, state: string): Values
  {
    map["response_type" := ["code"],
        "client_id" := [c.clientID],
        "redirect_uri" := CondVal(c.redirectURL),
        "scope" := CondVal(Join(c.scopes, ' ')),
        "state" := CondVal(state)]
  }

  /** `AuthCodeURL`: the authorization URL, the separator, the encoded
      parameters after the options, and the cache buster `&_=n`. */
  method AuthCodeURL(c: Config, state: string, opts: seq<AuthCodeOption>, esc: string -> string, n: nat)
    returns (url: string)
    requires n <= Utils.MaxInt64
    ensures url == c.endpoint.authURL + [Separator(c.endpoint.authURL)]
      + Encode(ApplyOptions(AuthValues(c, state), opts), esc) + "&_=" + NatToString(n)
  {
    var buf := c.endpoint.authURL;
    var v := ApplyAll(AuthValues(c, state), opts);
    var sep := '?';
    if '?' in c.endpoint.authURL {
      sep := '&';
    }
    buf := buf + [sep];
    buf := buf + Encode(v, esc);
    buf := buf + "&_=" + NatToString(n);
    url := buf;
  }

  /** A parameter no option names is encoded with exactly the values it
      started with. */
  lemma DefaultParam(v: Values, opts: seq<AuthCodeOption>, esc: string -> string, key: string, x: string)
    requires Escaping(esc)
    requires forall i :: 0 <= i < |opts| ==> opts[i].key != key
    ensures Pair(esc, key, x) in Split(Encode(ApplyOptions(v, opts), esc), '&') <==> key in v && x in v[key]
  {
    OptionsKeepOtherKeys(v, opts, key);
    EncodedParam(ApplyOptions(v, opts), esc, key, x);
  }

  /** What `AuthCodeURL` starts from, key by key. */
  lemma AuthValuesLookup(c: Config, state: string)
    ensures var a := AuthValues(c, state);
      a.Keys == {"response_type", "client_id", "redirect_uri", "scope", "state"}
      && a["response_type"] == ["code"] && a["client_id"] == [c.clientID]
      && a["redirect_uri"] == CondVal(c.redirectURL)
      && a["scope"] == CondVal(Join(c.scopes, ' ')) && a["state"] == CondVal(state)
  {
    assert "scope"[1] == 'c' && "state"[1] == 't';
    assert |"response_type"| == 13 && |"client_id"| == 9 && |"redirect_uri"| == 12 && |"scope"| == 5;
  }

  /** The keys of the authorization request that options may override. */
  predicate NoAuthOverride(opts: seq<AuthCodeOption>)
  {
    forall i :: 0 <= i < |opts| ==>
      opts[i].key != "response_type" && opts[i].key != "client_id" && opts[i].key != "redirect_uri"
      && opts[i].key != "scope" && opts[i].key != "state"
  }

  /** For the parameters `v` after the options: without overriding
      options the authorization query always carries `response_type=code`
      and the client id, each with no other value. */
  lemma AuthQueryRequired(c: Config, state: string, opts: seq<AuthCodeOption>, esc: string -> string, x: string, v: Values)
    requires Escaping(esc)
    requires NoAuthOverride(opts)
    requires v == ApplyOptions(AuthValues(c, state), opts)
    ensures var q := Split(Encode(v, esc), '&');
      (Pair(esc, "response_type", x) in q <==> x == "code")
      && (Pair(esc, "client_id", x) in q <==> x == c.clientID)
  {
    var a := AuthValues(c, state);
    AuthValuesLookup(c, state);
    DefaultParam(a, opts, esc, "response_type", x);
    DefaultParam(a, opts, esc, "client_id", x);
  }

  /** For the parameters `v` after the options: without overriding
      options the authorization query carries `redirect_uri`, `scope` (the
      scopes joined by one space) and `state` exactly when they are not
      empty. */
  lemma AuthQueryOptional(c: Config, state: string, opts: seq<AuthCodeOption>, esc: string -> string, x: string, v: Values)
    requires Escaping(esc)
    requires NoAuthOverride(opts)
    requires v == ApplyOptions(AuthValues(c, state), opts)
    ensures var q := Split(Encode(v, esc), '&');
      (Pair(esc, "redirect_uri", x) in q <==> c.redirectURL != "" && x == c.redirectURL)
      && (Pair(esc, "scope", x) in q <==> Join(c.scopes, ' ') != "" && x == Join(c.scopes, ' '))
      && (Pair(esc, "state", x) in q <==> state != "" && x == state)
  {
    var a := AuthValues(c, state);
    AuthValuesLookup(c, state);
    DefaultParam(a, opts, esc, "redirect_uri", x);
    DefaultParam(a, opts, esc, "scope", x);
    DefaultParam(a, opts, esc, "state", x);
  }

  /** A parameter set by an option (the last one for its key) appears with
      the option's value and no other. */
  lemma OptionParam(v: Values, opts: seq<AuthCodeOption>, j: nat, esc: string -> string, x: string)
    requires Escaping(esc)
    requires j < |opts|
    requires forall i :: j < i < |opts| ==> opts[i].key != opts[j].key
    ensures Pair(esc, opts[j].key, x) in Split(Encode(ApplyOptions(v, opts), esc), '&') <==> x == opts[j].value
  {
    OptionLastWins(v, opts, j);
    EncodedParam(ApplyOptions(v, opts), esc, opts[j].key, x);
  }

  /** The parameters of the token request. */
  function ExchangeValues(c: Config, code: string): Values
  {
    map["grant_type" := ["authorization_code"],
        "code" := [code],
        "redirect_uri" := CondVal(c.redirectURL)]
  }

  /** The request of `Exchange`: the base URI (token URL and separator) and
      the path handed to the GET, the encoded parameters and `&_=n`. */
  method ExchangeRequest(c: Config, code: string, opts: seq<AuthCodeOption>, esc: string -> string, n: nat)
    returns (uri: string, path: string)
    requires n <= Utils.MaxInt64
    ensures uri == c.endpoint.tokenURL + [Separator(c.endpoint.tokenURL)]
    ensures path == Encode(ApplyOptions(ExchangeValues(c, code), opts), esc) + "&_=" + NatToString(n)
  {
    var v := ApplyAll(ExchangeValues(c, code), opts);
    var sep := '?';
    if '?' in c.endpoint.tokenURL {
      sep := '&';
    }
    uri := c.endpoint.tokenURL + [sep];
    path := Encode(v, esc) + "&_=" + NatToString(n);
  }

  /** What `Exchange` starts from, key by key. */
  lemma ExchangeValuesLookup(c: Config, code: string)
    ensures var e := ExchangeValues(c, code);
      e.Keys == {"grant_type", "code", "redirect_uri"}
      && e["grant_type"] == ["authorization_code"] && e["code"] == [code]
      && e["redirect_uri"] == CondVal(c.redirectURL)
  {
    assert |"grant_type"| == 10 && |"code"| == 4 && |"redirect_uri"| == 12;
  }

  /** The keys of the token request that options may override. */
  predicate NoExchangeOverride(opts: seq<AuthCodeOption>)
  {
    forall i :: 0 <= i < |opts| ==>
      opts[i].key != "grant_type" && opts[i].key != "code" && opts[i].key != "redirect_uri"
  }

  /** For the parameters `v` after the options: without overriding options the token query carries
      `grant_type=authorization_code` and the code, and `redirect_uri`
      exactly when it is not empty. */
  lemma ExchangeQueryParams(c: Config, code: string, opts: seq<AuthCodeOption>, esc: string -> string, x: string, v: Values)
    requires Escaping(esc)
    requires NoExchangeOverride(opts)
    requires v == ApplyOptions(ExchangeValues(c, code), opts)
    ensures var q := Split(Encode(v, esc), '&');
      (Pair(esc, "grant_type", x) in q <==> x == "authorization_code")
      && (Pair(esc, "code", x) in q <==> x == code)
      && (Pair(esc, "redirect_uri", x) in q <==> c.redirectURL != "" && x == c.redirectURL)
  {
    var e := ExchangeValues(c, code);
    ExchangeValuesLookup(c, code);
    DefaultParam(e, opts, esc, "grant_type", x);
    DefaultParam(e, opts, esc, "code", x);
    DefaultParam(e, opts, esc, "redirect_uri", x);
  }

  /** The cache buster reads back as the number drawn. */
  lemma CacheBusterReadsBack(prefix: string, n: nat)
    ensures var u := prefix + "&_=" + NatToString(n);
      u[..|prefix|] == prefix && u[|prefix|..|prefix| + 3] == "&_="
      && AllDigits(u[|prefix| + 3..]) && DecimalValue(u[|prefix| + 3..]) == n
  {
    var u := prefix + "&_=" + NatToString(n);
    assert u[|prefix| + 3..] == NatToString(n);
    DecimalRoundTrip(n);
  }
}
