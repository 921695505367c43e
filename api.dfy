/** The client's API gateway (`api.js`): the token store in `localStorage`, and
    `apiFetch`, which sends one request and, on a 401, refreshes the access
    token once and repeats the request. */
module Api {
  import opened Wrappers
  import opened Json
  import opened Web
  import Config

  const AccessKey: string := "katara_access"
  const RefreshKey: string := "katara_refresh"

  datatype Tokens = Tokens(access: string, refresh: string)

  /** `getTokens()`: a missing or empty entry reads as "". */
  function TokensOf(storage: map<string, string>): (t: Tokens)
    ensures t.access != "" <==> AccessKey in storage && storage[AccessKey] != ""
    ensures t.refresh != "" <==> RefreshKey in storage && storage[RefreshKey] != ""
  {
    Tokens(ItemOrEmpty(storage, AccessKey), ItemOrEmpty(storage, RefreshKey))
  }

  /** `isAuthed()`. */
  predicate IsAuthed(storage: map<string, string>) {
    AccessKey in storage && storage[AccessKey] != ""
  }

  /** The storage after `setTokens(j)`: each truthy token field is written as `String(value)`. */
  function StoreTokens(storage: map<string, string>, j: Json): map<string, string> {
    var s1 := if FieldTruthy(j, "access_token") then storage[AccessKey := ToJsString(j.fields["access_token"])] else storage;
    if FieldTruthy(j, "refresh_token") then s1[RefreshKey := ToJsString(j.fields["refresh_token"])] else s1
  }

  /** The storage after `clearTokens()`. */
  function ClearTokens(storage: map<string, string>): map<string, string> {
    storage - {AccessKey, RefreshKey}
  }

  /** Storage entries other than the two token entries. */
  function Others(storage: map<string, string>): map<string, string> {
    storage - {AccessKey, RefreshKey}
  }

  /** `getTokens()` reads back what `setTokens(j)` wrote: a truthy string token replaces the old
      one, a falsy or missing one leaves the old one in place; no other entry changes. */
  lemma StoreThenRead(storage: map<string, string>, j: Json)
    ensures var t := TokensOf(StoreTokens(storage, j));
      t.access == (if FieldTruthy(j, "access_token") then ToJsString(j.fields["access_token"]) else TokensOf(storage).access)
    ensures var t := TokensOf(StoreTokens(storage, j));
      t.refresh == (if FieldTruthy(j, "refresh_token") then ToJsString(j.fields["refresh_token"]) else TokensOf(storage).refresh)
    ensures Others(StoreTokens(storage, j)) == Others(storage)
    ensures j.JObj? && "access_token" in j.fields && j.fields["access_token"].JStr? && FieldTruthy(j, "access_token") ==>
      IsAuthed(StoreTokens(storage, j))
  {
    var s1 := if FieldTruthy(j, "access_token") then storage[AccessKey := ToJsString(j.fields["access_token"])] else storage;
    assert Others(s1) == Others(storage);
  }

  /** After `clearTokens()` both tokens read as empty and the client is not signed in. */
  lemma ClearThenRead(storage: map<string, string>)
    ensures TokensOf(ClearTokens(storage)) == Tokens("", "")
    ensures !IsAuthed(ClearTokens(storage))
    ensures Others(ClearTokens(storage)) == Others(storage)
  {
  }

  method SetTokens(w: Window, j: Json)
    modifies w
    ensures w.storage == StoreTokens(old(w.storage), j)
    ensures w.hash == old(w.hash) && w.query == old(w.query)
  {
    if FieldTruthy(j, "access_token") {
      w.SetItem(AccessKey, ToJsString(j.fields["access_token"]));
    }
    if FieldTruthy(j, "refresh_token") {
      w.SetItem(RefreshKey, ToJsString(j.fields["refresh_token"]));
    }
  }

  method ClearTokensIn(w: Window)
    modifies w
    ensures w.storage == ClearTokens(old(w.storage))
    ensures w.hash == old(w.hash) && w.query == old(w.query)
  {
    w.RemoveItem(AccessKey);
    w.RemoveItem(RefreshKey);
  }

  /** `logout()`: forget both tokens and go to the sign-in view. */
  method Logout(w: Window)
    modifies w
    ensures w.storage == ClearTokens(old(w.storage)) && !IsAuthed(w.storage)
    ensures w.hash == "#/auth" && w.query == old(w.query)
  {
    ClearTokensIn(w);
    w.SetHash("#/auth");
  }

  /** The options a caller passes to `apiFetch`. `auth` is false only when the caller
      passed `auth: false`; header names are in lower case. */
  datatype Opts = Opts(verb: Option<string>, headers: map<string, string>, auth: bool, body: Body, retried: bool)

  /** `opts.body instanceof FormData`. */
  predicate IsForm(b: Body) { b.FormBody? }

  /** `opts.body` is truthy. */
  predicate BodyTruthy(b: Body) {
    match b
    case NoBody => false
    case FormBody(_) => true
    case ValueBody(v) => Truthy(v)
  }

  /** The request line, headers and body `apiFetch` builds for one attempt. */
  function BuildRequest(base: string, path: string, opts: Opts, access: string): Request {
    var verb := if opts.verb.Some? && opts.verb.value != "" then opts.verb.value else "GET";
    var h0 := opts.headers;
    var h1 := if !IsForm(opts.body) && "content-type" !in h0 && BodyTruthy(opts.body)
                 && opts.body.ValueBody? && IsObjectType(opts.body.value)
              then h0["content-type" := "application/json"] else h0;
    var h2 := if opts.auth && access != "" then h1["authorization" := "Bearer " + access] else h1;
    var body :=
      if !BodyTruthy(opts.body) || IsForm(opts.body) then Unchanged(opts.body)
      else if opts.body.ValueBody? && opts.body.value.JStr? then Unchanged(opts.body)
      else Stringified(opts.body.value);
    Request(base + path, verb, h2, body)
  }

  /** The bearer header is set exactly when authentication is wanted and an access
      token is stored; it is never `"Bearer "` with an empty token. Otherwise the
      caller's own `authorization` header, if any, goes out as given. */
  lemma AuthorizationHeader(base: string, path: string, opts: Opts, access: string)
    ensures var h := BuildRequest(base, path, opts, access).headers;
      (opts.auth && access != "" ==> "authorization" in h && h["authorization"] == "Bearer " + access)
      && (!(opts.auth && access != "") ==>
            ("authorization" in h <==> "authorization" in opts.headers)
            && ("authorization" in h ==> h["authorization"] == opts.headers["authorization"]))
  {
  }

  /** A JSON content type is added only for a truthy non-form object body and only when the
      caller set none; a caller's content type is kept. */
  lemma ContentTypeHeader(base: string, path: string, opts: Opts, access: string)
    ensures var h := BuildRequest(base, path, opts, access).headers;
      ("content-type" in opts.headers ==> "content-type" in h && h["content-type"] == opts.headers["content-type"])
      && ("content-type" !in opts.headers ==>
            ("content-type" in h <==> opts.body.ValueBody? && Truthy(opts.body.value) && IsObjectType(opts.body.value))
            && ("content-type" in h ==> h["content-type"] == "application/json"))
  {
  }

  /** No header other than the two above is added or changed. */
  lemma OtherHeadersUnchanged(base: string, path: string, opts: Opts, access: string, name: string)
    requires name != "authorization" && name != "content-type"
    ensures var h := BuildRequest(base, path, opts, access).headers;
      (name in h <==> name in opts.headers) && (name in h ==> h[name] == opts.headers[name])
  {
  }

  /** Absent, falsy, form and string bodies go out unchanged; any other value is serialised. */
  lemma BodyRule(base: string, path: string, opts: Opts, access: string)
    ensures var b := BuildRequest(base, path, opts, access).body;
      b.Stringified? <==> opts.body.ValueBody? && Truthy(opts.body.value) && !opts.body.value.JStr?
    ensures var b := BuildRequest(base, path, opts, access).body;
      b.Stringified? ==> b.value == opts.body.value
    ensures var b := BuildRequest(base, path, opts, access).body;
      b.Unchanged? ==> b.body == opts.body
  {
  }

  /** The one refresh call: a JSON POST carrying the refresh token and no bearer header. */
  function RefreshRequest(base: string, refresh: string): (r: Request)
    ensures "authorization" !in r.headers && r.verb == "POST"
    ensures r.body == Stringified(JObj(map["refresh_token" := JStr(refresh)]))
  {
    Request(base + "/auth/refresh", "POST", map["content-type" := "application/json"],
            Stringified(JObj(map["refresh_token" := JStr(refresh)])))
  }

  /** The reply body `refreshAccess` accepts: the reply is `ok` and its parsed body has a
      truthy `ok` field. Anything else (network failure, bad status, unparsable body) is None. */
  function AcceptedRefresh(d: Delivery): (r: Option<Json>)
    ensures r.Some? <==> d.Delivered? && d.reply.Ok() && d.reply.parsed.Some? && FieldTruthy(d.reply.parsed.value, "ok")
    ensures r.Some? ==> r.value.JObj? && r == d.reply.parsed
  {
    if d.Delivered? && d.reply.Ok() && d.reply.parsed.Some? && FieldTruthy(d.reply.parsed.value, "ok")
    then d.reply.parsed else None
  }

  function ApiBase(query: map<string, string>, storage: map<string, string>): string {
    Config.GetConfig(Config.WebDefaults, query, storage).apiBase
  }

  /** `refreshAccess(refresh)`: one POST; on success store the new tokens, otherwise
      clear both tokens (fail closed). */
  method RefreshAccess(w: Window, net: Network, refresh: string) returns (ok: bool)
    modifies w, net
    ensures var accepted := AcceptedRefresh(Nth(old(net.script), 0));
      ok == accepted.Some?
      && w.storage == (if accepted.Some? then StoreTokens(old(w.storage), accepted.value) else ClearTokens(old(w.storage)))
    ensures net.sent == old(net.sent) + [RefreshRequest(ApiBase(old(w.query), old(w.storage)), refresh)]
    ensures net.script == Drop(old(net.script), 1)
    ensures w.hash == old(w.hash) && w.query == old(w.query)
  {
    var base := ApiBase(w.query, w.storage);
    var d := net.Fetch(RefreshRequest(base, refresh));
    var accepted := AcceptedRefresh(d);
    if accepted.Some? {
      SetTokens(w, accepted.value);
      return true;
    }
    ClearTokensIn(w);
    return false;
  }

  /** What one `apiFetch` call does: what it resolves to, the storage it leaves and the
      requests it sends, for the deliveries `script` the network hands out. */
  datatype Exchange = Exchange(outcome: Delivery, storage: map<string, string>, sent: seq<Request>)

  function Gateway(query: map<string, string>, storage: map<string, string>, script: seq<Delivery>,
                   path: string, opts: Opts): Exchange
    decreases if opts.retried then 0 else 1
  {
    var tokens := TokensOf(storage);
    var req := BuildRequest(ApiBase(query, storage), path, opts, tokens.access);
    var first := Nth(script, 0);
    if first.NetworkError? || first.reply.status != 401 || tokens.refresh == "" || opts.retried then
      Exchange(first, storage, [req])
    else
      var rreq := RefreshRequest(ApiBase(query, storage), tokens.refresh);
      match AcceptedRefresh(Nth(script, 1))
      case None => Exchange(first, ClearTokens(storage), [req, rreq])
      case Some(j) =>
        var again := Gateway(query, StoreTokens(storage, j), Drop(script, 2), path, opts.(retried := true));
        Exchange(again.outcome, again.storage, [req, rreq] + again.sent)
  }

  /** `apiFetch(path, opts)` against the browser window and the network. */
  method ApiFetch(w: Window, net: Network, path: string, opts: Opts) returns (res: Delivery)
    modifies w, net
    decreases if opts.retried then 0 else 1
    ensures var g := Gateway(old(w.query), old(w.storage), old(net.script), path, opts);
      res == g.outcome && w.storage == g.storage
      && net.sent == old(net.sent) + g.sent
      && net.script == Drop(old(net.script), |g.sent|)
    ensures w.hash == old(w.hash) && w.query == old(w.query)
  {
    ghost var query, storage, script := w.query, w.storage, net.script;
    GatewaySteps(query, storage, script, path, opts);
    var tokens := TokensOf(w.storage);
    var req := BuildRequest(ApiBase(w.query, w.storage), path, opts, tokens.access);
    res := net.Fetch(req);
    if res.NetworkError? || res.reply.status != 401 || tokens.refresh == "" || opts.retried {
      return;
    }
    var ok := RefreshAccess(w, net, tokens.refresh);
    if !ok {
      return;
    }
    res := ApiFetch(w, net, path, opts.(retried := true));
  }

  /** The three ways `Gateway` unfolds: one call; a refused refresh after two calls; or a
      repeat through the stored tokens after an accepted refresh, with the deliveries left
      after the first two. */
  lemma GatewaySteps(query: map<string, string>, storage: map<string, string>, script: seq<Delivery>,
                     path: string, opts: Opts)
    ensures var g := Gateway(query, storage, script, path, opts);
      var tokens := TokensOf(storage);
      var req := BuildRequest(ApiBase(query, storage), path, opts, tokens.access);
      var first := Nth(script, 0);
      var rreq := RefreshRequest(ApiBase(query, storage), tokens.refresh);
      var accepted := AcceptedRefresh(Nth(Drop(script, 1), 0));
      if first.NetworkError? || first.reply.status != 401 || tokens.refresh == "" || opts.retried then
        g == Exchange(first, storage, [req])
      else if accepted.None? then
        g == Exchange(first, ClearTokens(storage), [req, rreq])
      else
        var again := Gateway(query, StoreTokens(storage, accepted.value), Drop(Drop(script, 1), 1), path, opts.(retried := true));
        g == Exchange(again.outcome, again.storage, [req, rreq] + again.sent)
        && Drop(Drop(Drop(script, 1), 1), |again.sent|) == Drop(script, |g.sent|)
  {
    assert Nth(Drop(script, 1), 0) == Nth(script, 1);
    assert Drop(Drop(script, 1), 1) == Drop(script, 2);
  }

  /** Storing tokens never changes the configured API base. */
  lemma {:induction false} BaseIgnoresTokens(query: map<string, string>, storage: map<string, string>, s2: map<string, string>)
    requires Others(s2) == Others(storage)
    ensures ApiBase(query, s2) == ApiBase(query, storage)
  {
    assert Config.ApiBaseKey !in {AccessKey, RefreshKey};
    assert (Config.ApiBaseKey in s2) == (Config.ApiBaseKey in Others(s2));
    assert (Config.ApiBaseKey in storage) == (Config.ApiBaseKey in Others(storage));
    if Config.ApiBaseKey in s2 {
      assert s2[Config.ApiBaseKey] == Others(s2)[Config.ApiBaseKey];
      assert storage[Config.ApiBaseKey] == Others(storage)[Config.ApiBaseKey];
    }
  }

  /** At most three calls per `apiFetch`: the request, one refresh, one repeat. A repeated
      request never refreshes again. Only a 401 with a stored refresh token leads past the
      first call. */
  lemma {:induction false} CallBound(query: map<string, string>, storage: map<string, string>,
                                     script: seq<Delivery>, path: string, opts: Opts)
    ensures var g := Gateway(query, storage, script, path, opts);
      1 <= |g.sent| <= 3
      && g.sent[0] == BuildRequest(ApiBase(query, storage), path, opts, TokensOf(storage).access)
      && (opts.retried ==> |g.sent| == 1)
      && (|g.sent| > 1 ==>
            Nth(script, 0).Delivered? && Nth(script, 0).reply.status == 401
            && !opts.retried && TokensOf(storage).refresh != ""
            && g.sent[1] == RefreshRequest(ApiBase(query, storage), TokensOf(storage).refresh))
    decreases if opts.retried then 0 else 1
  {
    var tokens := TokensOf(storage);
    var first := Nth(script, 0);
    if !(first.NetworkError? || first.reply.status != 401 || tokens.refresh == "" || opts.retried) {
      match AcceptedRefresh(Nth(script, 1))
      case None =>
      case Some(j) =>
        CallBound(query, StoreTokens(storage, j), Drop(script, 2), path, opts.(retried := true));
    }
  }

  /** Every outcome of one `apiFetch`, by its number of calls:
      one call resolves to the first delivery and leaves the storage alone;
      two calls mean the refresh failed, so both tokens are cleared and the 401 is returned;
      three calls mean the refresh succeeded, the new tokens are stored, and the repeat goes
      to the same API base with the new access token and resolves to the third delivery. */
  lemma {:induction false} Outcomes(query: map<string, string>, storage: map<string, string>,
                                    script: seq<Delivery>, path: string, opts: Opts)
    ensures var g := Gateway(query, storage, script, path, opts);
      |g.sent| == 1 ==> g.outcome == Nth(script, 0) && g.storage == storage
    ensures var g := Gateway(query, storage, script, path, opts);
      |g.sent| == 2 ==>
        g.outcome == Nth(script, 0) && g.storage == ClearTokens(storage) && !IsAuthed(g.storage)
        && AcceptedRefresh(Nth(script, 1)).None?
    ensures var g := Gateway(query, storage, script, path, opts);
      |g.sent| == 3 ==>
        AcceptedRefresh(Nth(script, 1)).Some?
        && g.storage == StoreTokens(storage, AcceptedRefresh(Nth(script, 1)).value)
        && g.outcome == Nth(script, 2)
        && g.sent[2] == BuildRequest(ApiBase(query, storage), path, opts.(retried := true), TokensOf(g.storage).access)
    ensures Others(Gateway(query, storage, script, path, opts).storage) == Others(storage)
  {
    var tokens := TokensOf(storage);
    var first := Nth(script, 0);
    if !(first.NetworkError? || first.reply.status != 401 || tokens.refresh == "" || opts.retried) {
      match AcceptedRefresh(Nth(script, 1))
      case None =>
        ClearThenRead(storage);
      case Some(j) =>
        var s2 := StoreTokens(storage, j);
        StoreThenRead(storage, j);
        CallBound(query, s2, Drop(script, 2), path, opts.(retried := true));
        BaseIgnoresTokens(query, storage, s2);
        assert Nth(Drop(script, 2), 0) == Nth(script, 2);
    }
  }

  /** The converse of `CallBound`: a first delivery that is a 401, with a refresh token
      stored and the call not yet repeated, does make the refresh call. A refused refresh
      ends the call there with both tokens cleared; an accepted one stores the new tokens
      and repeats the request, marked `_retried`, with the new access token as its bearer,
      and the call resolves to what that repeat gets. */
  lemma {:induction false} RefreshOnUnauthorized(query: map<string, string>, storage: map<string, string>,
                                                 script: seq<Delivery>, path: string, opts: Opts)
    ensures var g := Gateway(query, storage, script, path, opts);
      Nth(script, 0).Delivered? && Nth(script, 0).reply.status == 401
      && TokensOf(storage).refresh != "" && !opts.retried ==>
        && |g.sent| >= 2
        && g.sent[1] == RefreshRequest(ApiBase(query, storage), TokensOf(storage).refresh)
        && (AcceptedRefresh(Nth(script, 1)).None? ==>
              |g.sent| == 2 && g.outcome == Nth(script, 0) && !IsAuthed(g.storage))
        && (AcceptedRefresh(Nth(script, 1)).Some? ==>
              var renewed := StoreTokens(storage, AcceptedRefresh(Nth(script, 1)).value);
              && |g.sent| == 3
              && g.storage == renewed
              && g.sent[2] == BuildRequest(ApiBase(query, storage), path, opts.(retried := true), TokensOf(renewed).access)
              && g.outcome == Nth(script, 2))
  {
    var tokens := TokensOf(storage);
    var first := Nth(script, 0);
    if first.Delivered? && first.reply.status == 401 && tokens.refresh != "" && !opts.retried {
      match AcceptedRefresh(Nth(script, 1))
      case None =>
        ClearThenRead(storage);
      case Some(j) =>
        var renewed := StoreTokens(storage, j);
        var again := Gateway(query, renewed, Drop(script, 2), path, opts.(retried := true));
        CallBound(query, renewed, Drop(script, 2), path, opts.(retried := true));
        Outcomes(query, renewed, Drop(script, 2), path, opts.(retried := true));
        StoreThenRead(storage, j);
        BaseIgnoresTokens(query, storage, renewed);
        assert Nth(Drop(script, 2), 0) == Nth(script, 2);
        assert |again.sent| == 1 && again.storage == renewed;
    }
  }

  /** `json(res)`: the parsed body, or `{raw: text}` when the text is not JSON. */
  function ResponseJson(r: Reply): (v: Json)
    ensures r.parsed.Some? ==> v == r.parsed.value
    ensures r.parsed.None? ==> v == JObj(map["raw" := JStr(r.text)]) && Get(v, "raw") == Some(JStr(r.text))
  {
    match r.parsed
    case Some(v) => v
    case None => JObj(map["raw" := JStr(r.text)])
  }
}
