/** The WeChat authorization URL of oauth2/wechat.go. */
module WeChat {
  import opened Text
  import opened UrlValues
  import opened OAuth2

  const Fragment: string := "#wechat_redirect"

  /** The parameters `WeChatAuthCodeURL` starts from: the client id goes
      under `appid`. */
  function WeChatValues(c: Config, state: string): Values
  {
    map["response_type" := ["code"],
        "appid" := [c.clientID],
        "redirect_uri" := CondVal(c.redirectURL),
        "scope" := CondVal(Join(c.scopes, ' ')),
        "state" := CondVal(state)]
  }

  /** The base URL: the QR-code page when `qr` is set, else the plain one. */
  function WeChatBase(c: Config, qr: bool): string
  {
    if qr then c.endpoint.qrAuthURL else c.endpoint.authURL
  }

  /** `WeChatAuthCodeURL`: the chosen base, the separator chosen from that
      base, the encoded parameters after the options, and the fragment
      `#wechat_redirect`; there is no cache buster. */
  method WeChatAuthCodeURL(c: Config, state: string, qr: bool, opts: seq<AuthCodeOption>, esc: string -> string)
    returns (url: string)
    ensures url == WeChatBase(c, qr) + [Separator(WeChatBase(c, qr))]
      + Encode(ApplyOptions(WeChatValues(c, state), opts), esc) + Fragment
  {
    var authURL := "";
    if qr {
      authURL := c.endpoint.qrAuthURL;
    } else {
      authURL := c.endpoint.authURL;
    }
    var v := ApplyAll(WeChatValues(c, state), opts);
    var sep := '?';
    if '?' in authURL {
      sep := '&';
    }
    url := authURL + [sep] + Encode(v, esc) + Fragment;
  }

  /** The URL begins with the chosen base and ends with the fragment. */
  lemma WeChatURLShape(c: Config, qr: bool, query: string)
    ensures var u := WeChatBase(c, qr) + [Separator(WeChatBase(c, qr))] + query + Fragment;
      u[..|WeChatBase(c, qr)|] == WeChatBase(c, qr)
      && u[|u| - |Fragment|..] == Fragment
      && u[|WeChatBase(c, qr)|] == (if '?' in WeChatBase(c, qr) then '&' else '?')
  {
    var b := WeChatBase(c, qr);
    var u := b + [Separator(b)] + query + Fragment;
    assert u[|u| - |Fragment|..] == Fragment;
  }

  predicate NoWeChatOverride(opts: seq<AuthCodeOption>)
  {
    forall i :: 0 <= i < |opts| ==> opts[i].key != "appid" && opts[i].key != "client_id"
  }

  /** The keys `WeChatAuthCodeURL` starts from; `client_id` is not one. */
  lemma WeChatKeys(c: Config, state: string)
    ensures WeChatValues(c, state).Keys == {"response_type", "appid", "redirect_uri", "scope", "state"}
    ensures "client_id" !in WeChatValues(c, state)
    ensures WeChatValues(c, state)["appid"] == [c.clientID]
  {
    var keys := WeChatValues(c, state).Keys;
    assert |"client_id"| == 9;
    forall k | k in keys ensures |k| != 9 {
    }
    assert "appid"[0] == 'a' && "scope"[0] == 's' && "state"[0] == 's';
    assert "appid" != "redirect_uri" && "appid" != "scope" && "appid" != "state";
  }

  /** For the parameters `v` after the options: without an option naming
      them, the client id travels as `appid` and never as `client_id`. */
  lemma WeChatSendsAppID(c: Config, state: string, opts: seq<AuthCodeOption>, esc: string -> string, x: string, v: Values)
    requires Escaping(esc)
    requires NoWeChatOverride(opts)
    requires v == ApplyOptions(WeChatValues(c, state), opts)
    ensures var q := Split(Encode(v, esc), '&');
      (Pair(esc, "appid", x) in q <==> x == c.clientID)
      && Pair(esc, "client_id", x) !in q
  {
    var w := WeChatValues(c, state);
    WeChatKeys(c, state);
    DefaultParam(w, opts, esc, "appid", x);
    DefaultParam(w, opts, esc, "client_id", x);
  }

  /** Options are applied after the defaults, so an option's value replaces
      a default one. */
  lemma WeChatOptionOverrides(c: Config, state: string, opts: seq<AuthCodeOption>, j: nat, esc: string -> string, x: string, v: Values)
    requires Escaping(esc)
    requires j < |opts|
    requires forall i :: j < i < |opts| ==> opts[i].key != opts[j].key
    requires v == ApplyOptions(WeChatValues(c, state), opts)
    ensures Pair(esc, opts[j].key, x) in Split(Encode(v, esc), '&') <==> x == opts[j].value
  {
    OptionParam(WeChatValues(c, state), opts, j, esc, x);
  }
}
