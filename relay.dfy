/** The relay endpoint `ServerSideAnalytics` of index.php: it receives the
    browser's event body, resolves the client id from its first-party
    cookie, forwards the merged parameters to the collection endpoint as a
    query string, and writes the collection endpoint's cookie back unless
    the client asked for cookieless tracking (the corrected gate
    `CookiesAllowed`; the gate as written is `CookieGate`). The
    outbound request and the `Set-Cookie` entries are recorded; the clock,
    `mt_rand`, the user agent and the endpoint's response cookies are
    parameters. */
module Relay {
  import opened Values
  import opened Decimal
  import opened Php
  import opened Dict
  import opened Query

  /** The plugin options the endpoint reads. */
  datatype Options = Options(
    active: Value,
    endpoint: string,
    measurementId: Value,
    cookieName: string,
    cookieExpires: int,
    cookieSamesite: string,
    debugMode: Value,
    previewString: string)

  /** `$_COOKIE`. */
  type Jar = map<string, string>

  /** A `WP_Http_Cookie`: name, value, and the domain when one was given. */
  datatype HttpCookie = HttpCookie(name: string, value: string, domain: Option<string>)

  /** The `isset($_COOKIE[name]) && $_COOKIE[name]` test shared by
      `get_cid`, `set_server_side_cookie` and `get_server_side_cookie`:
      the inbound first-party cookie, when it is set and truthy. */
  function InboundCookie(opts: Options, jar: Jar): (c: Option<string>)
    ensures c.Some? <==> opts.cookieName in jar && jar[opts.cookieName] != "" && jar[opts.cookieName] != "0"
    ensures c.Some? ==> c.value == jar[opts.cookieName]
  {
    if opts.cookieName in jar && Truthy(Str(jar[opts.cookieName])) then Some(jar[opts.cookieName]) else None
  }

  /** Reads a minted client id `<seconds>.<number>` back into its parts. */
  function ParseCid(s: string): Option<(nat, nat)> {
    var parts := Split(s, '.');
    if |parts| == 2 && parts[0] != "" && parts[1] != "" && AllDigits(parts[0]) && AllDigits(parts[1])
    then Some((DigitsValue(parts[0]), DigitsValue(parts[1])))
    else None
  }

  lemma ParseMintedCid(now: nat, n: nat)
    ensures ParseCid(NatToString(now) + "." + NatToString(n)) == Some((now, n))
  {
    var a := NatToString(now);
    var b := NatToString(n);
    assert '.' !in a && '.' !in b by {
      assert forall i :: 0 <= i < |a| ==> IsDigit(a[i]);
      assert forall i :: 0 <= i < |b| ==> IsDigit(b[i]);
    }
    assert a + "." + b == a + ['.'] + b;
    SplitAt(a, '.', b);
    SplitWithout(b, '.');
    DigitsValueOfNatToString(now);
    DigitsValueOfNatToString(n);
  }

  /** `get_cid`: the inbound cookie when set and truthy, otherwise
      `time() . "." . mt_rand(10000000, 90000000)`. */
  function GetCid(opts: Options, jar: Jar, now: nat, n: int): (cid: string)
    requires 10000000 <= n <= 90000000
    ensures InboundCookie(opts, jar).Some? ==> cid == InboundCookie(opts, jar).value
    ensures InboundCookie(opts, jar).None? ==>
      cid == NatToString(now) + "." + NatToString(n) && ParseCid(cid) == Some((now, n))
  {
    match InboundCookie(opts, jar)
    case Some(c) => c
    case None =>
      ParseMintedCid(now, n);
      IntToString(now) + "." + IntToString(n)
  }

  /** `get_server_side_cookie`: the inbound cookie to forward, by name and
      value only. */
  function ForwardedCookie(opts: Options, jar: Jar): (c: Option<HttpCookie>)
    ensures c.Some? <==> InboundCookie(opts, jar).Some?
    ensures c.Some? ==> c.value == HttpCookie(opts.cookieName, InboundCookie(opts, jar).value, None)
  {
    match InboundCookie(opts, jar)
    case Some(v) => Some(HttpCookie(opts.cookieName, v, None))
    case None => None
  }

  /** `isset($parameters[k]) ? $parameters[k] : ''`: `isset` is false for a
      missing key, a `null` value, and a body that is not a JSON object
      or array. */
  function Flag(body: Option<seq<(string, Value)>>, k: string): (v: Value)
    ensures v != Null
    ensures body.Some? && Get(body.value, k).Some? && Get(body.value, k).value != Null ==> v == Get(body.value, k).value
    ensures body.None? || Get(body.value, k).None? || Get(body.value, k).value == Null ==> v == Str("")
  {
    match body
    case None => Str("")
    case Some(b) =>
      match Get(b, k)
      case Some(x) => if x == Null then Str("") else x
      case None => Str("")
  }

  /** `$cookieless != true || $consent == true`, the gate as written: it
      closes exactly when `cookieless` is truthy and `consent` is not, in
      PHP's sense of truthiness. */
  predicate CookieGate(cookieless: Value, consent: Value)
    ensures CookieGate(cookieless, consent) <==> !Truthy(cookieless) || Truthy(consent)
  {
    LooseEqualsTrueIsTruthy(cookieless);
    LooseEqualsTrueIsTruthy(consent);
    !LooseEquals(cookieless, Bool(true)) || LooseEquals(consent, Bool(true))
  }

  /** The gate as evidently intended: no cookie for a client that asked
      for cookieless tracking. The script asks for it only when the visitor
      refused, and then still reports `consent: true`, so the written
      `|| $consent == true` reopens the gate for every such request. */
  predicate CookiesAllowed(cookieless: Value) {
    !LooseEquals(cookieless, Bool(true))
  }

  /** The corrected gate closes the written one exactly on the bodies that
      are cookieless and claim consent. */
  lemma CorrectedGateNarrows(cookieless: Value, consent: Value)
    ensures CookiesAllowed(cookieless) ==> CookieGate(cookieless, consent)
    ensures CookieGate(cookieless, consent) && !CookiesAllowed(cookieless) <==> Truthy(cookieless) && Truthy(consent)
  {
    LooseEqualsTrueIsTruthy(cookieless);
    LooseEqualsTrueIsTruthy(consent);
  }

  /** The parameters the relay adds. */
  function Extras(opts: Options, cid: string): (e: seq<(string, Value)>)
    ensures DistinctKeys(e) && Keys(e) == ["tid", "cid", "_dbg"]
    ensures Get(e, "tid") == Some(opts.measurementId) && Get(e, "cid") == Some(Str(cid))
    ensures Get(e, "_dbg") == Some(Bool(LooseEquals(opts.debugMode, Str("1"))))
  {
    var e := [("tid", opts.measurementId), ("cid", Str(cid)), ("_dbg", Bool(LooseEquals(opts.debugMode, Str("1"))))];
    LiteralFacts(e, ["tid", "cid", "_dbg"]);
    GetAt(e, 0);
    GetAt(e, 1);
    GetAt(e, 2);
    e
  }

  /** `array_merge($body, ['tid' => ..., 'cid' => ..., '_dbg' => ...])`. */
  function QueryData(opts: Options, body: seq<(string, Value)>, cid: string): (data: seq<(string, Value)>)
    ensures DistinctKeys(body) ==> DistinctKeys(data)
  {
    Merge(body, Extras(opts, cid))
  }

  /** `tid`, `cid` and `_dbg` override same-named body fields; every other
      field of the body is kept as it was, and the body's fields keep
      their order, followed by the added keys the body did not have. */
  lemma QueryDataOverrides(opts: Options, body: seq<(string, Value)>, cid: string, k: string)
    ensures var data := QueryData(opts, body, cid);
      && Get(data, "tid") == Some(opts.measurementId)
      && Get(data, "cid") == Some(Str(cid))
      && Get(data, "_dbg") == Some(Bool(LooseEquals(opts.debugMode, Str("1"))))
      && (k != "tid" && k != "cid" && k != "_dbg" ==> Get(data, k) == Get(body, k))
      && Keys(data) == Keys(body) + NewKeys(Keys(body), ["tid", "cid", "_dbg"])
  {
    var e := Extras(opts, cid);
    GetMerge(body, e, "tid");
    GetMerge(body, e, "cid");
    GetMerge(body, e, "_dbg");
    GetMerge(body, e, k);
    KeysMerge(body, e);
  }

  /** `_dbg` is true exactly when `debug_mode == '1'`, and then
      `debug_mode` is truthy. */
  lemma DebugFlag(opts: Options, body: seq<(string, Value)>, cid: string)
    ensures Get(QueryData(opts, body, cid), "_dbg") == Some(Bool(LooseEquals(opts.debugMode, Str("1"))))
    ensures Get(QueryData(opts, body, cid), "_dbg") == Some(Bool(true)) ==> Truthy(opts.debugMode)
  {
    QueryDataOverrides(opts, body, cid, "_dbg");
    EqualsOneIsTruthy(opts.debugMode);
  }

  /** `endpoint . '?' . str_replace('+', '%20', http_build_query($data))`. */
  function QueryUrl(opts: Options, data: seq<(string, Value)>): (url: string)
    ensures |url| > |opts.endpoint| && url[..|opts.endpoint| + 1] == opts.endpoint + "?"
    ensures '+' !in url[|opts.endpoint| + 1..]
  {
    var url := opts.endpoint + "?" + QueryString(data);
    assert url[|opts.endpoint| + 1..] == QueryString(data);
    assert url[..|opts.endpoint| + 1] == opts.endpoint + "?";
    QueryHasNoPlus(data);
    url
  }

  /** The URL is the endpoint, `?`, and a query with no `+` that reads
      back as exactly the data's non-null fields. */
  lemma QueryUrlReadsBack(opts: Options, data: seq<(string, Value)>)
    ensures var url := QueryUrl(opts, data);
      var q := url[|opts.endpoint| + 1..];
      && url[..|opts.endpoint| + 1] == opts.endpoint + "?"
      && '+' !in q
      && ParseQuery(q) == Some(Fields(data))
  {
    var url := QueryUrl(opts, data);
    assert url[|opts.endpoint| + 1..] == QueryString(data);
    assert url[..|opts.endpoint| + 1] == opts.endpoint + "?";
    QueryHasNoPlus(data);
    QueryRoundTrip(data);
  }

  /** A `setcookie` call. */
  datatype SetCookie = SetCookie(
    name: string,
    value: string,
    expires: int,
    path: string,
    domain: Option<string>,
    secure: bool,
    httponly: bool,
    samesite: string)

  /** The cookie `set_server_side_cookie` writes for a response cookie. */
  function NewCookie(opts: Options, c: HttpCookie, now: int): (s: SetCookie)
    ensures s.name == c.name && s.value == c.value && s.domain == c.domain
    ensures s.expires == now + opts.cookieExpires && s.path == "/"
    ensures s.secure && s.httponly && s.samesite == opts.cookieSamesite
  {
    SetCookie(c.name, c.value, now + opts.cookieExpires, "/", c.domain, true, true, opts.cookieSamesite)
  }

  /** `wp_remote_retrieve_cookie($response, name)`: the first response
      cookie of that name, or nothing (PHP's `''`). */
  function RetrieveCookie(cookies: seq<HttpCookie>, name: string): (c: Option<HttpCookie>)
    ensures c.Some? ==> c.value.name == name && c.value in cookies
    ensures c.None? ==> forall i :: 0 <= i < |cookies| ==> cookies[i].name != name
  {
    if cookies == [] then None
    else if cookies[0].name == name then Some(cookies[0])
    else RetrieveCookie(cookies[1..], name)
  }

  /** The browser keeps a cookie it was sent under its name. */
  function JarKeeps(jar: Jar, s: SetCookie): Jar {
    jar[s.name := s.value]
  }

  /** Once the relay has written a truthy cookie, the next request from the
      same browser carries it: it becomes the client id, it is forwarded,
      and it is not written again. */
  lemma CookieRoundTrip(opts: Options, jar: Jar, c: HttpCookie, now: int, later: nat, n: int,
                        body: Option<seq<(string, Value)>>, responseCookies: seq<HttpCookie>, cookieTime: int)
    requires c.name == opts.cookieName && Truthy(Str(c.value))
    requires 10000000 <= n <= 90000000
    ensures var next := JarKeeps(jar, NewCookie(opts, c, now));
      && InboundCookie(opts, next) == Some(c.value)
      && GetCid(opts, next, later, n) == c.value
      && ForwardedCookie(opts, next) == Some(HttpCookie(opts.cookieName, c.value, None))
      && CookieWrites(opts, next, body, responseCookies, cookieTime) == []
  {
  }

  /** The `Set-Cookie` entries the end of `send_event_request` adds, under
      the corrected gate: at most one, the response cookie, and only when
      cookies are allowed and the browser has no truthy cookie yet. */
  function CookieWrites(opts: Options, jar: Jar, body: Option<seq<(string, Value)>>,
                        responseCookies: seq<HttpCookie>, cookieTime: int): (w: seq<SetCookie>)
    ensures |w| <= 1
    ensures w != [] <==> CookiesAllowed(Flag(body, "cookieless")) && InboundCookie(opts, jar).None?
                          && RetrieveCookie(responseCookies, opts.cookieName).Some?
    ensures w != [] ==> w[0] == NewCookie(opts, RetrieveCookie(responseCookies, opts.cookieName).value, cookieTime)
  {
    if CookiesAllowed(Flag(body, "cookieless")) && InboundCookie(opts, jar).None? then
      match RetrieveCookie(responseCookies, opts.cookieName)
      case Some(c) => [NewCookie(opts, c, cookieTime)]
      case None => []
    else []
  }

  /** An outbound `wp_remote_get` request. */
  datatype Outbound = Outbound(
    url: string,
    httpVersion: string,
    userAgent: string,
    cookie: Option<HttpCookie>,
    headers: seq<(string, string)>)

  /** The request headers of `wp_remote_get`: the JSON content type, the
      accepted encodings and the preview string (index.php:268-272). */
  function Headers(opts: Options): (h: seq<(string, string)>)
    ensures DistinctKeys(h) && Keys(h) == ["Content-Type", "Accept-Encoding", "X-Gtm-Server-Preview"]
    ensures Get(h, "Content-Type") == Some("application/json; charset=utf-8")
    ensures Get(h, "Accept-Encoding") == Some("deflate, gzip, br")
    ensures Get(h, "X-Gtm-Server-Preview") == Some(opts.previewString)
  {
    var h := [("Content-Type", "application/json; charset=utf-8"),
              ("Accept-Encoding", "deflate, gzip, br"),
              ("X-Gtm-Server-Preview", opts.previewString)];
    LiteralFacts(h, ["Content-Type", "Accept-Encoding", "X-Gtm-Server-Preview"]);
    GetAt(h, 0);
    GetAt(h, 1);
    GetAt(h, 2);
    h
  }

  /** How `send_event_request` ends: `false` when inactive, a `TypeError`
      when the body is not a JSON object or array (no JSON, `null` or a
      scalar, which `array_merge` refuses), otherwise normally. */
  datatype Reply = Inactive | Failed | Done

  /** `$options['active'] == '1'`: only a truthy option turns the relay
      on, and the stored `'1'` does. */
  predicate Active(opts: Options)
    ensures Active(opts) ==> Truthy(opts.active)
    ensures opts.active == Str("1") ==> Active(opts)
  {
    EqualsOneIsTruthy(opts.active);
    LooseEquals(opts.active, Str("1"))
  }

  /** The relay's recorded effects. */
  class Relay {
    const opts: Options
    var requests: seq<Outbound>
    var setCookies: seq<SetCookie>

    constructor (opts: Options)
      ensures this.opts == opts && requests == [] && setCookies == []
    {
      this.opts := opts;
      requests := [];
      setCookies := [];
    }

    /** `set_server_side_cookie`: a truthy inbound cookie is returned and
        never overwritten; otherwise a response cookie, if there is one, is
        written with the configured lifetime and same-site policy. */
    method SetServerSideCookie(jar: Jar, cookie: Option<HttpCookie>, now: int) returns (r: Option<string>)
      modifies this`setCookies
      ensures r == InboundCookie(opts, jar)
      ensures r.Some? ==> setCookies == old(setCookies)
      ensures r.None? ==> setCookies == old(setCookies) + (if cookie.Some? then [NewCookie(opts, cookie.value, now)] else [])
    {
      r := InboundCookie(opts, jar);
      if r.Some? {
        return;
      }
      if cookie.Some? {
        setCookies := setCookies + [NewCookie(opts, cookie.value, now)];
      }
    }

    /** `send_event_request`. `body` is `get_json_params()` (`None` when the
        body is no JSON object or array: no JSON, `null` or a scalar; an
        empty JSON list is `Some([])`), `cidTime` and `n` feed `get_cid`,
        `responseCookies` are the cookies of the endpoint's response and
        `cookieTime` is `time()` when the cookie is written. The cookie is
        written back under the corrected gate `CookiesAllowed`; the gate as
        written is `CookieGate`. */
    method SendEventRequest(jar: Jar, body: Option<Dict<Value>>, userAgent: string,
                            cidTime: nat, n: int, responseCookies: seq<HttpCookie>, cookieTime: int)
      returns (reply: Reply)
      requires 10000000 <= n <= 90000000
      modifies this
      ensures !Active(opts) ==> reply == Inactive
      ensures Active(opts) && body.None? ==> reply == Failed
      ensures reply != Done ==> requests == old(requests) && setCookies == old(setCookies)
      ensures Active(opts) && body.Some? ==>
        && reply == Done
        && requests == old(requests) + [Outbound(QueryUrl(opts, QueryData(opts, body.value, GetCid(opts, jar, cidTime, n))),
                                                 "1.1", userAgent, ForwardedCookie(opts, jar), Headers(opts))]
        && setCookies == old(setCookies) + CookieWrites(opts, jar, body, responseCookies, cookieTime)
    {
      if !Active(opts) {
        return Inactive;
      }
      var cookieless := Flag(body, "cookieless");
      if body.None? {
        return Failed;
      }
      var data := QueryData(opts, body.value, GetCid(opts, jar, cidTime, n));
      var url := QueryUrl(opts, data);
      requests := requests + [Outbound(url, "1.1", userAgent, ForwardedCookie(opts, jar), Headers(opts))];
      if CookiesAllowed(cookieless) {
        var responseCookie := RetrieveCookie(responseCookies, opts.cookieName);
        var _ := SetServerSideCookie(jar, responseCookie, cookieTime);
      }
      reply := Done;
    }
  }
}
