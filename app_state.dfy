/** The client application's module-level `state` (`app.js`) and the operations
    that update it: the chat and message loaders with their caches, sending a
    chat message with the one-shot location, and the rate-limited fill of
    missing point coordinates from the geocode cache and the geocoder. */
module AppState {
  import opened Wrappers
  import opened Json
  import opened Web
  import Api
  import Config
  import Decimal
  import Text
  import opened AppView

  /** A geocoder answer; coordinates are kept as the text of the JSON numbers. */
  datatype LatLon = LatLon(lat: string, lon: string)

  class ClientState {
    var chats: seq<Json>
    /** `state.currentChatId`; None stands for null (or an id that is not a number). */
    var currentChatId: Option<int>
    /** `state.messages`: chat id to its cached messages. */
    var messages: map<int, seq<Json>>
    var points: seq<ClientPoint>
    var geocodeCache: map<string, LatLon>
    /** The decoded value of the `katara_geocode_cache` storage entry, if it was ever written. */
    var savedGeocodeCache: Option<map<string, LatLon>>
    /** `state._lastLat` / `state._lastLon`. */
    var lastLat: Option<string>
    var lastLon: Option<string>

    constructor ()
      ensures chats == [] && currentChatId == None && messages == map[] && points == []
      ensures geocodeCache == map[] && savedGeocodeCache == None && lastLat == None && lastLon == None
    {
      chats := [];
      currentChatId := None;
      messages := map[];
      points := [];
      geocodeCache := map[];
      savedGeocodeCache := None;
      lastLat := None;
      lastLon := None;
    }
  }

  /** `!!state.currentChatId`: null and the id 0 are falsy. */
  predicate HasChat(id: Option<int>) {
    id.Some? && id.value != 0
  }

  /** `j || []` for a successful list reply; a body that is not an array reads as empty. */
  function ListOf(j: Json): seq<Json> {
    if j.JArr? then j.items else []
  }

  /** `c.id` for a chat row. */
  function IdOf(c: Json): Option<int> {
    match Get(c, "id")
    case Some(JNum(n)) => Some(n)
    case _ => None
  }

  /** `apiFetch(path)` with no options. */
  const PlainGet: Api.Opts := Api.Opts(None, map[], true, NoBody, false)

  function MessagesPath(chatId: int): string {
    "/chats/" + Decimal.IntToString(chatId) + "/messages"
  }

  /** `loadChats()`: the cached list when it is non-empty; otherwise one `apiFetch("/chats")`.
      A failed reply leaves the state alone and yields `[]`; a successful one replaces the list
      and selects its first chat when none is selected. None: the fetch rejected. */
  method LoadChats(st: ClientState, w: Window, net: Network) returns (res: Option<seq<Json>>)
    modifies st, w, net
    ensures st.messages == old(st.messages) && st.points == old(st.points)
    ensures st.geocodeCache == old(st.geocodeCache) && st.savedGeocodeCache == old(st.savedGeocodeCache)
    ensures st.lastLat == old(st.lastLat) && st.lastLon == old(st.lastLon)
    ensures w.hash == old(w.hash) && w.query == old(w.query)
    ensures old(|st.chats|) > 0 ==>
      res == Some(old(st.chats)) && st.chats == old(st.chats) && st.currentChatId == old(st.currentChatId)
      && w.storage == old(w.storage) && net.sent == old(net.sent) && net.script == old(net.script)
    ensures old(|st.chats|) == 0 ==>
      var g := Api.Gateway(old(w.query), old(w.storage), old(net.script), "/chats", PlainGet);
      w.storage == g.storage && net.sent == old(net.sent) + g.sent && net.script == Drop(old(net.script), |g.sent|)
      && (g.outcome.NetworkError? ==>
            res.None? && st.chats == old(st.chats) && st.currentChatId == old(st.currentChatId))
      && (g.outcome.Delivered? && !g.outcome.reply.Ok() ==>
            res == Some([]) && st.chats == old(st.chats) && st.currentChatId == old(st.currentChatId))
      && (g.outcome.Delivered? && g.outcome.reply.Ok() ==>
            st.chats == ListOf(Api.ResponseJson(g.outcome.reply)) && res == Some(st.chats)
            && st.currentChatId ==
                 (if !HasChat(old(st.currentChatId)) && |st.chats| > 0 && Truthy(st.chats[0])
                  then IdOf(st.chats[0]) else old(st.currentChatId)))
  {
    if |st.chats| > 0 {
      return Some(st.chats);
    }
    var r := Api.ApiFetch(w, net, "/chats", PlainGet);
    if r.NetworkError? {
      return None;
    }
    var j := Api.ResponseJson(r.reply);
    if !r.reply.Ok() {
      return Some([]);
    }
    st.chats := ListOf(j);
    if !HasChat(st.currentChatId) && |st.chats| > 0 && Truthy(st.chats[0]) {
      st.currentChatId := IdOf(st.chats[0]);
    }
    return Some(st.chats);
  }

  /** `loadMessages(chatId)`: a cache hit makes no call; otherwise one fetch, and only a
      successful reply is cached. None: the fetch rejected. */
  method LoadMessages(st: ClientState, w: Window, net: Network, chatId: int) returns (res: Option<seq<Json>>)
    modifies st, w, net
    ensures st.chats == old(st.chats) && st.currentChatId == old(st.currentChatId) && st.points == old(st.points)
    ensures st.geocodeCache == old(st.geocodeCache) && st.savedGeocodeCache == old(st.savedGeocodeCache)
    ensures st.lastLat == old(st.lastLat) && st.lastLon == old(st.lastLon)
    ensures w.hash == old(w.hash) && w.query == old(w.query)
    ensures chatId in old(st.messages) ==>
      res == Some(old(st.messages)[chatId]) && st.messages == old(st.messages)
      && w.storage == old(w.storage) && net.sent == old(net.sent) && net.script == old(net.script)
    ensures chatId !in old(st.messages) ==>
      var g := Api.Gateway(old(w.query), old(w.storage), old(net.script), MessagesPath(chatId), PlainGet);
      w.storage == g.storage && net.sent == old(net.sent) + g.sent && net.script == Drop(old(net.script), |g.sent|)
      && (g.outcome.NetworkError? ==> res.None? && st.messages == old(st.messages))
      && (g.outcome.Delivered? && !g.outcome.reply.Ok() ==> res == Some([]) && st.messages == old(st.messages))
      && (g.outcome.Delivered? && g.outcome.reply.Ok() ==>
            var list := ListOf(Api.ResponseJson(g.outcome.reply));
            res == Some(list) && st.messages == old(st.messages)[chatId := list])
  {
    if chatId in st.messages {
      return Some(st.messages[chatId]);
    }
    var r := Api.ApiFetch(w, net, MessagesPath(chatId), PlainGet);
    if r.NetworkError? {
      return None;
    }
    var j := Api.ResponseJson(r.reply);
    if !r.reply.Ok() {
      return Some([]);
    }
    st.messages := st.messages[chatId := ListOf(j)];
    return Some(ListOf(j));
  }

  // ---------------------------------------------------------------- sending

  datatype SendOutcome = NoChat | NothingToSend | Rejected | Failed(message: string) | Sent

  /** The form `sendChatMessage` posts: the trimmed text, the image if any, and the stored
      location only when both coordinates are set. */
  function SendForm(text: string, file: Option<UploadFile>, lat: Option<string>, lon: Option<string>): (f: FormData)
    ensures |f.entries| >= 1 && f.entries[0] == ("text", FText(text))
  {
    var image := if file.Some? then [("image", FFile(file.value))] else [];
    var location := if lat.Some? && lon.Some? then [("lat", FText(lat.value)), ("lon", FText(lon.value))] else [];
    FormData([("text", FText(text))] + image + location)
  }

  /** The form has an `image` entry exactly when a file was chosen, and `lat` and `lon`
      entries exactly when both coordinates are stored. */
  lemma SendFormEntries(text: string, file: Option<UploadFile>, lat: Option<string>, lon: Option<string>)
    ensures var f := SendForm(text, file, lat, lon);
      && ((exists i :: 0 <= i < |f.entries| && f.entries[i].0 == "image") <==> file.Some?)
      && ((exists i :: 0 <= i < |f.entries| && f.entries[i].0 == "lat") <==> lat.Some? && lon.Some?)
      && ((exists i :: 0 <= i < |f.entries| && f.entries[i].0 == "lon") <==> lat.Some? && lon.Some?)
  {
    var e := SendForm(text, file, lat, lon).entries;
    assert file.Some? ==> e[1].0 == "image";
    assert lat.Some? && lon.Some? ==> e[|e| - 2].0 == "lat" && e[|e| - 1].0 == "lon";
  }

  function SendOpts(form: FormData): Api.Opts {
    Api.Opts(Some("POST"), map[], true, FormBody(form), false)
  }

  /** The toast text for a refused send: `j.detail || "No se pudo enviar."`. */
  function FailureMessage(j: Json): string {
    if FieldTruthy(j, "detail") then ToJsString(j.fields["detail"]) else "No se pudo enviar."
  }

  /** What a posted message comes to: a network failure, a refusal with the server's
      `detail`, or success when the reply is 2xx with a truthy `ok`. */
  function SendVerdict(d: Delivery): (r: SendOutcome)
    ensures r == Rejected <==> d.NetworkError?
    ensures r == Sent <==> d.Delivered? && d.reply.Ok() && FieldTruthy(Api.ResponseJson(d.reply), "ok")
  {
    if d.NetworkError? then Rejected
    else
      var j := Api.ResponseJson(d.reply);
      if d.reply.Ok() && FieldTruthy(j, "ok") then Sent else Failed(FailureMessage(j))
  }

  /** The `apiFetch` of `sendChatMessage` and what follows it: the message cache of the
      chat is dropped only after a successful send. */
  method PostMessage(st: ClientState, w: Window, net: Network, chatId: int, form: FormData) returns (out: SendOutcome)
    modifies st`messages, w, net
    ensures var g := Api.Gateway(old(w.query), old(w.storage), old(net.script), MessagesPath(chatId), SendOpts(form));
      w.storage == g.storage && net.sent == old(net.sent) + g.sent && net.script == Drop(old(net.script), |g.sent|)
      && out == SendVerdict(g.outcome)
      && st.messages == (if out == Sent then old(st.messages) - {chatId} else old(st.messages))
    ensures w.hash == old(w.hash) && w.query == old(w.query)
  {
    var r := Api.ApiFetch(w, net, MessagesPath(chatId), SendOpts(form));
    out := SendVerdict(r);
    if out == Sent {
      st.messages := st.messages - {chatId};
    }
  }

  /** The part of `sendChatMessage` after the checks: build the form with the stored
      location, forget the location once it is used, and post. */
  method PostWithLocation(st: ClientState, w: Window, net: Network, chatId: int, text: string, file: Option<UploadFile>)
    returns (out: SendOutcome)
    modifies st`lastLat, st`lastLon, st`messages, w, net
    ensures var form := SendForm(text, file, old(st.lastLat), old(st.lastLon));
      var g := Api.Gateway(old(w.query), old(w.storage), old(net.script), MessagesPath(chatId), SendOpts(form));
      w.storage == g.storage && net.sent == old(net.sent) + g.sent && net.script == Drop(old(net.script), |g.sent|)
      && out == SendVerdict(g.outcome)
      && st.messages == (if out == Sent then old(st.messages) - {chatId} else old(st.messages))
    ensures old(st.lastLat).Some? && old(st.lastLon).Some? ==> st.lastLat == None && st.lastLon == None
    ensures !(old(st.lastLat).Some? && old(st.lastLon).Some?) ==> st.lastLat == old(st.lastLat) && st.lastLon == old(st.lastLon)
    ensures w.hash == old(w.hash) && w.query == old(w.query)
  {
    var form := SendForm(text, file, st.lastLat, st.lastLon);
    if st.lastLat.Some? && st.lastLon.Some? {
      st.lastLat := None;
      st.lastLon := None;
    }
    out := PostMessage(st, w, net, chatId, form);
  }

  /** `sendChatMessage()` for the text box contents and the chosen file. */
  method SendChatMessage(st: ClientState, w: Window, net: Network, text: string, file: Option<UploadFile>)
    returns (out: SendOutcome)
    modifies st, w, net
    ensures st.chats == old(st.chats) && st.currentChatId == old(st.currentChatId) && st.points == old(st.points)
    ensures st.geocodeCache == old(st.geocodeCache) && st.savedGeocodeCache == old(st.savedGeocodeCache)
    ensures w.hash == old(w.hash) && w.query == old(w.query)
    ensures !HasChat(old(st.currentChatId)) ==>
      out == NoChat && st.lastLat == old(st.lastLat) && st.lastLon == old(st.lastLon)
      && st.messages == old(st.messages) && w.storage == old(w.storage) && net.sent == old(net.sent)
    ensures HasChat(old(st.currentChatId)) && Text.Trim(Text.Js, text) == "" && file.None? ==>
      out == NothingToSend && st.lastLat == old(st.lastLat) && st.lastLon == old(st.lastLon)
      && st.messages == old(st.messages) && w.storage == old(w.storage) && net.sent == old(net.sent)
    ensures HasChat(old(st.currentChatId)) && (Text.Trim(Text.Js, text) != "" || file.Some?) ==>
      var id := old(st.currentChatId).value;
      var form := SendForm(Text.Trim(Text.Js, text), file, old(st.lastLat), old(st.lastLon));
      var g := Api.Gateway(old(w.query), old(w.storage), old(net.script), MessagesPath(id), SendOpts(form));
      w.storage == g.storage && net.sent == old(net.sent) + g.sent && net.script == Drop(old(net.script), |g.sent|)
      && (if old(st.lastLat).Some? && old(st.lastLon).Some?
          then st.lastLat == None && st.lastLon == None
          else st.lastLat == old(st.lastLat) && st.lastLon == old(st.lastLon))
      && out == SendVerdict(g.outcome)
      && st.messages == (if out == Sent then old(st.messages) - {id} else old(st.messages))
  {
    var chatId := st.currentChatId;
    if !HasChat(chatId) {
      return NoChat;
    }
    var t := Text.Trim(Text.Js, text);
    if t == "" && file.None? {
      return NothingToSend;
    }
    out := PostWithLocation(st, w, net, chatId.value, t, file);
  }

  // ---------------------------------------------------------- geocode fill

  /** The geocoder (`geocodeArcGIS`), as an oracle: its answers in order, and a log of the
      addresses asked. Any failure of the real call reads as None. */
  class Geocoder {
    var asked: seq<string>
    var answers: seq<Option<LatLon>>

    constructor (answers: seq<Option<LatLon>>)
      ensures asked == [] && this.answers == answers
    {
      asked := [];
      this.answers := answers;
    }

    method Lookup(address: string) returns (loc: Option<LatLon>)
      modifies this
      ensures asked == old(asked) + [address]
      ensures loc == AnswerAt(old(answers), 0)
      ensures answers == (if old(answers) == [] then [] else old(answers)[1..])
    {
      asked := asked + [address];
      if answers == [] {
        loc := None;
      } else {
        loc := answers[0];
        answers := answers[1..];
      }
    }
  }

  function AnswerAt(answers: seq<Option<LatLon>>, i: nat): Option<LatLon> {
    if i < |answers| then answers[i] else None
  }

  function DropAnswers(answers: seq<Option<LatLon>>, k: nat): seq<Option<LatLon>> {
    if k <= |answers| then answers[k..] else []
  }

  /** At most this many successful lookups per call. */
  const GeocodeCap: nat := 12

  function Located(p: ClientPoint, v: LatLon): ClientPoint {
    p.(lat := Some(v.lat), lon := Some(v.lon))
  }

  predicate HasCoords(p: ClientPoint) { p.lat.Some? && p.lon.Some? }

  function GeocodeQuery(p: ClientPoint): string {
    p.address + ", Guayaquil, Ecuador"
  }

  /** The cache key of every point, in order. */
  function KeysOf(points: seq<ClientPoint>): (keys: seq<string>)
    ensures |keys| == |points|
    decreases |points|
  {
    if points == [] then [] else [CacheKey(Some(points[0].address))] + KeysOf(points[1..])
  }

  /** Entry `i` of `KeysOf(points)` is `cacheKey(points[i].address)`. */
  lemma {:induction false} KeysOfAt(points: seq<ClientPoint>, i: nat)
    requires i < |points|
    ensures KeysOf(points)[i] == CacheKey(Some(points[i].address))
    decreases i
  {
    if i > 0 {
      KeysOfAt(points[1..], i - 1);
    }
  }

  /** The loop's state after some iterations. */
  datatype GeoRun = GeoRun(points: seq<ClientPoint>, cache: map<string, LatLon>, count: nat, changed: bool,
                           queries: seq<string>, stopped: bool)

  /** One iteration of the loop in `geocodeMissingPoints`, on point `i` whose cache key is `key`. */
  function GeoStep(s: GeoRun, i: nat, key: string, answers: seq<Option<LatLon>>): (r: GeoRun)
    requires i < |s.points|
    ensures |r.points| == |s.points|
  {
    var p := s.points[i];
    if s.stopped || HasCoords(p) then s
    else if key in s.cache then s.(points := s.points[i := Located(p, s.cache[key])])
    else if s.count >= GeocodeCap then s.(stopped := true)
    else
      var loc := AnswerAt(answers, |s.queries|);
      var s1 := s.(queries := s.queries + [GeocodeQuery(p)]);
      if loc.Some? then
        s1.(points := s1.points[i := Located(p, loc.value)], cache := s1.cache[key := loc.value],
            changed := true, count := s.count + 1)
      else s1
  }

  /** The loop's state after its first `k` iterations. */
  function GeoRunUpTo(points: seq<ClientPoint>, keys: seq<string>, cache: map<string, LatLon>,
                      answers: seq<Option<LatLon>>, k: nat): (r: GeoRun)
    requires k <= |points| == |keys|
    ensures |r.points| == |points|
    decreases k
  {
    if k == 0 then GeoRun(points, cache, 0, false, [], false)
    else GeoStep(GeoRunUpTo(points, keys, cache, answers, k - 1), k - 1, keys[k - 1], answers)
  }

  /** What became of one point: a point with both coordinates is untouched; any other is
      untouched or carries the cached coordinates for its key. */
  predicate PointOutcome(p: ClientPoint, q: ClientPoint, key: string, cache: map<string, LatLon>) {
    if HasCoords(p) then q == p
    else q == p || (key in cache && q == Located(p, cache[key]))
  }

  ghost predicate GeoInv(points: seq<ClientPoint>, keys: seq<string>, cache0: map<string, LatLon>, k: nat, r: GeoRun)
    requires |keys| == |points|
  {
    && |r.points| == |points|
    && (forall i :: k <= i < |points| ==> r.points[i] == points[i])
    && (forall i :: 0 <= i < k && i < |points| ==> PointOutcome(points[i], r.points[i], keys[i], r.cache))
    && (forall key :: key in cache0 ==> key in r.cache && r.cache[key] == cache0[key])
    && r.count <= GeocodeCap
    && (r.changed <==> r.count > 0)
    && |r.cache.Keys| == |cache0.Keys| + r.count
  }

  /** A successful lookup adds one new key and keeps all earlier outcomes. */
  lemma GeoSuccessKeeps(points: seq<ClientPoint>, keys: seq<string>, cache0: map<string, LatLon>,
                        k: nat, s: GeoRun, v: LatLon)
    requires k < |points| == |keys|
    requires GeoInv(points, keys, cache0, k, s) && keys[k] !in s.cache && s.count < GeocodeCap
    requires !HasCoords(points[k])
    ensures var r := s.(points := s.points[k := Located(points[k], v)], cache := s.cache[keys[k] := v],
                        changed := true, count := s.count + 1);
      GeoInv(points, keys, cache0, k + 1, r)
  {
    var r := s.(points := s.points[k := Located(points[k], v)], cache := s.cache[keys[k] := v],
                changed := true, count := s.count + 1);
    assert r.cache.Keys == s.cache.Keys + {keys[k]};
    forall i | 0 <= i < k ensures PointOutcome(points[i], r.points[i], keys[i], r.cache) {
      assert PointOutcome(points[i], s.points[i], keys[i], s.cache);
    }
  }

  lemma GeoStepKeeps(points: seq<ClientPoint>, keys: seq<string>, cache0: map<string, LatLon>,
                     answers: seq<Option<LatLon>>, k: nat, s: GeoRun)
    requires k < |points| == |keys|
    requires GeoInv(points, keys, cache0, k, s)
    ensures GeoInv(points, keys, cache0, k + 1, GeoStep(s, k, keys[k], answers))
  {
    var p := s.points[k];
    assert p == points[k];
    if !s.stopped && !HasCoords(p) && keys[k] !in s.cache && s.count < GeocodeCap {
      var loc := AnswerAt(answers, |s.queries|);
      var s1 := s.(queries := s.queries + [GeocodeQuery(p)]);
      assert GeoInv(points, keys, cache0, k, s1);
      if loc.Some? {
        GeoSuccessKeeps(points, keys, cache0, k, s1, loc.value);
      }
    }
  }

  /** Every prefix of the loop keeps the invariant. */
  lemma {:induction false} GeoInvHolds(points: seq<ClientPoint>, keys: seq<string>, cache0: map<string, LatLon>,
                                       answers: seq<Option<LatLon>>, k: nat)
    requires k <= |points| == |keys|
    ensures GeoInv(points, keys, cache0, k, GeoRunUpTo(points, keys, cache0, answers, k))
    decreases k
  {
    if k > 0 {
      var s := GeoRunUpTo(points, keys, cache0, answers, k - 1);
      GeoInvHolds(points, keys, cache0, answers, k - 1);
      GeoStepKeeps(points, keys, cache0, answers, k - 1, s);
      assert GeoRunUpTo(points, keys, cache0, answers, k) == GeoStep(s, k - 1, keys[k - 1], answers);
    }
  }

  /** After the cap stops the loop, the remaining iterations change nothing (the `break`). */
  lemma {:induction false} StoppedStays(points: seq<ClientPoint>, keys: seq<string>, cache0: map<string, LatLon>,
                                        answers: seq<Option<LatLon>>, k: nat, n: nat)
    requires k <= n <= |points| == |keys|
    requires GeoRunUpTo(points, keys, cache0, answers, k).stopped
    ensures GeoRunUpTo(points, keys, cache0, answers, n) == GeoRunUpTo(points, keys, cache0, answers, k)
    decreases n - k
  {
    if n > k {
      StoppedStays(points, keys, cache0, answers, k, n - 1);
    }
  }

  /** The fill over all points, where `KeysOf(points)[i]` is the cache key of point `i`:
      points with coordinates are left alone, all others are left alone or get the cached
      coordinates for their key; only coordinates ever change; the cache only gains entries,
      exactly one per successful lookup, so cache hits are not counted and there are at most
      twelve successes; the cache is marked for saving exactly when a lookup succeeded. */
  lemma GeoFillProperties(points: seq<ClientPoint>, cache0: map<string, LatLon>, answers: seq<Option<LatLon>>)
    ensures var keys := KeysOf(points);
      var r := GeoRunUpTo(points, keys, cache0, answers, |points|);
      |r.points| == |points|
      && (forall i :: 0 <= i < |points| ==> PointOutcome(points[i], r.points[i], keys[i], r.cache))
      && (forall i :: 0 <= i < |points| ==> SameButCoords(points[i], r.points[i]))
      && (forall key :: key in cache0 ==> key in r.cache && r.cache[key] == cache0[key])
      && r.count <= GeocodeCap
      && |r.cache.Keys| == |cache0.Keys| + r.count
      && (r.changed <==> r.count > 0)
  {
    var keys := KeysOf(points);
    GeoInvHolds(points, keys, cache0, answers, |points|);
    var r := GeoRunUpTo(points, keys, cache0, answers, |points|);
    forall i | 0 <= i < |points| ensures SameButCoords(points[i], r.points[i]) {
      assert PointOutcome(points[i], r.points[i], keys[i], r.cache);
    }
  }

  /** Iterations after the `i`-th leave point `i` as that iteration left it. */
  lemma {:induction false} GeoLaterKeep(points: seq<ClientPoint>, keys: seq<string>, cache0: map<string, LatLon>,
                                        answers: seq<Option<LatLon>>, i: nat, n: nat)
    requires i < n <= |points| == |keys|
    ensures GeoRunUpTo(points, keys, cache0, answers, n).points[i] == GeoRunUpTo(points, keys, cache0, answers, i + 1).points[i]
    decreases n
  {
    if n > i + 1 {
      GeoLaterKeep(points, keys, cache0, answers, i, n - 1);
    }
  }

  /** What the loop makes of a point missing a coordinate, given the state `s` the loop
      reaches it in (`s'` is the state after it, and `q` the point when the loop is over):
      after the `break` it stays as it was; on a cache hit it gets the cached coordinates,
      with no lookup and nothing counted; with twelve lookups already successful the loop
      stops there, without a lookup; otherwise its address is looked up once, and it gets
      the answer's coordinates, counted as one success, exactly when there is an answer. */
  lemma GeoFillPoint(points: seq<ClientPoint>, cache0: map<string, LatLon>, answers: seq<Option<LatLon>>, i: nat)
    requires i < |points| && !HasCoords(points[i])
    ensures var keys := KeysOf(points);
      var key := CacheKey(Some(points[i].address));
      var s := GeoRunUpTo(points, keys, cache0, answers, i);
      var s' := GeoRunUpTo(points, keys, cache0, answers, i + 1);
      var q := GeoRunUpTo(points, keys, cache0, answers, |points|).points[i];
      && (s.stopped ==> q == points[i] && s' == s)
      && (!s.stopped && key in s.cache ==>
            q == Located(points[i], s.cache[key]) && s'.count == s.count && s'.queries == s.queries && !s'.stopped)
      && (!s.stopped && key !in s.cache && s.count >= GeocodeCap ==>
            q == points[i] && s'.stopped && s'.queries == s.queries)
      && (!s.stopped && key !in s.cache && s.count < GeocodeCap ==>
            var loc := AnswerAt(answers, |s.queries|);
            && s'.queries == s.queries + [GeocodeQuery(points[i])] && !s'.stopped
            && (loc.Some? ==> q == Located(points[i], loc.value) && s'.count == s.count + 1 && s'.cache == s.cache[key := loc.value])
            && (loc.None? ==> q == points[i] && s'.count == s.count))
  {
    var keys := KeysOf(points);
    KeysOfAt(points, i);
    GeoInvHolds(points, keys, cache0, answers, i);
    var s := GeoRunUpTo(points, keys, cache0, answers, i);
    assert s.points[i] == points[i];
    assert GeoRunUpTo(points, keys, cache0, answers, i + 1) == GeoStep(s, i, keys[i], answers);
    GeoLaterKeep(points, keys, cache0, answers, i, |points|);
  }

  /** Once twelve lookups have succeeded, no further lookup is made and nothing more is
      counted: the cap is checked before each lookup. */
  lemma {:induction false} GeoCapStops(points: seq<ClientPoint>, keys: seq<string>, cache0: map<string, LatLon>,
                                       answers: seq<Option<LatLon>>, k: nat, n: nat)
    requires k <= n <= |points| == |keys|
    requires GeoRunUpTo(points, keys, cache0, answers, k).count >= GeocodeCap
    ensures GeoRunUpTo(points, keys, cache0, answers, n).queries == GeoRunUpTo(points, keys, cache0, answers, k).queries
    ensures GeoRunUpTo(points, keys, cache0, answers, n).count == GeoRunUpTo(points, keys, cache0, answers, k).count
    decreases n
  {
    if n > k {
      GeoCapStops(points, keys, cache0, answers, k, n - 1);
    }
  }

  /** Two points that differ at most in their coordinates. */
  predicate SameButCoords(p: ClientPoint, q: ClientPoint) {
    p.id == q.id && p.name == q.name && p.address == q.address && p.category == q.category && p.notes == q.notes
  }

  /** Only the loop's state: the geocoder has been asked `queries` and answered in order. */
  ghost predicate GeoLoopState(st: ClientState, geo: Geocoder, asked0: seq<string>, answers0: seq<Option<LatLon>>,
                               count: nat, changed: bool, r: GeoRun)
    reads st, geo
  {
    st.points == r.points && st.geocodeCache == r.cache && count == r.count && changed == r.changed
    && geo.asked == asked0 + r.queries && geo.answers == DropAnswers(answers0, |r.queries|)
  }

  /** One pass of the loop body, on point `i` with cache key `keys0[i]`: what the loop in
      `geocodeMissingPoints` does with it, as `GeoStep` of the run so far `s`. Reports
      whether the cap stopped the loop. */
  method GeoIteration(st: ClientState, geo: Geocoder, i: nat, count: nat, changed: bool, keys0: seq<string>,
                      ghost s: GeoRun, ghost asked0: seq<string>, ghost answers0: seq<Option<LatLon>>)
    returns (count': nat, changed': bool, stop: bool)
    requires i < |s.points| == |keys0| && !s.stopped
    requires GeoLoopState(st, geo, asked0, answers0, count, changed, s)
    modifies st, geo
    ensures GeoLoopState(st, geo, asked0, answers0, count', changed', GeoStep(s, i, keys0[i], answers0))
    ensures stop == GeoStep(s, i, keys0[i], answers0).stopped
    ensures st.chats == old(st.chats) && st.currentChatId == old(st.currentChatId) && st.messages == old(st.messages)
    ensures st.lastLat == old(st.lastLat) && st.lastLon == old(st.lastLon)
    ensures st.savedGeocodeCache == old(st.savedGeocodeCache)
  {
    count', changed', stop := count, changed, false;
    var p := st.points[i];
    if HasCoords(p) {
      return;
    }
    var key := keys0[i];
    if key in st.geocodeCache {
      st.points := st.points[i := Located(p, st.geocodeCache[key])];
      return;
    }
    if count >= GeocodeCap {
      return count, changed, true;
    }
    var loc := geo.Lookup(GeocodeQuery(p));
    assert loc == AnswerAt(answers0, |s.queries|);
    assert geo.answers == DropAnswers(answers0, |s.queries| + 1);
    if loc.Some? {
      st.points := st.points[i := Located(p, loc.value)];
      st.geocodeCache := st.geocodeCache[key := loc.value];
      changed' := true;
      count' := count + 1;
    }
  }

  /** The loop of `geocodeMissingPoints` over all points, as `GeoRunUpTo` describes it;
      `changed` says whether a lookup succeeded. */
  method GeoFill(st: ClientState, geo: Geocoder) returns (changed: bool)
    modifies st, geo
    ensures st.chats == old(st.chats) && st.currentChatId == old(st.currentChatId) && st.messages == old(st.messages)
    ensures st.lastLat == old(st.lastLat) && st.lastLon == old(st.lastLon)
    ensures st.savedGeocodeCache == old(st.savedGeocodeCache)
    ensures var r := GeoRunUpTo(old(st.points), KeysOf(old(st.points)), old(st.geocodeCache), old(geo.answers), |old(st.points)|);
      st.points == r.points && st.geocodeCache == r.cache && geo.asked == old(geo.asked) + r.queries && changed == r.changed
  {
    ghost var points0 := st.points;
    var keys0 := KeysOf(st.points);
    ghost var cache0 := st.geocodeCache;
    ghost var asked0 := geo.asked;
    ghost var answers0 := geo.answers;
    ghost var final := GeoRunUpTo(points0, keys0, cache0, answers0, |points0|);
    changed := false;
    var count: nat := 0;
    var i := 0;
    while i < |st.points|
      invariant 0 <= i <= |points0| && |st.points| == |points0|
      invariant !GeoRunUpTo(points0, keys0, cache0, answers0, i).stopped
      invariant GeoLoopState(st, geo, asked0, answers0, count, changed, GeoRunUpTo(points0, keys0, cache0, answers0, i))
      invariant st.chats == old(st.chats) && st.currentChatId == old(st.currentChatId) && st.messages == old(st.messages)
      invariant st.lastLat == old(st.lastLat) && st.lastLon == old(st.lastLon)
      invariant st.savedGeocodeCache == old(st.savedGeocodeCache)
      decreases |st.points| - i
    {
      var stop;
      ghost var s := GeoRunUpTo(points0, keys0, cache0, answers0, i);
      count, changed, stop := GeoIteration(st, geo, i, count, changed, keys0, s, asked0, answers0);
      assert GeoRunUpTo(points0, keys0, cache0, answers0, i + 1) == GeoStep(s, i, keys0[i], answers0);
      if stop {
        StoppedStays(points0, keys0, cache0, answers0, i + 1, |points0|);
        assert GeoLoopState(st, geo, asked0, answers0, count, changed, final);
        break;
      }
      i := i + 1;
    }
    if i == |points0| {
      assert GeoLoopState(st, geo, asked0, answers0, count, changed, GeoRunUpTo(points0, keys0, cache0, answers0, i));
    }
    assert GeoLoopState(st, geo, asked0, answers0, count, changed, final);
  }

  /** `geocodeMissingPoints()`: nothing at all without a map key; otherwise the loop above,
      then the cache is saved when a lookup succeeded. */
  method GeocodeMissingPoints(st: ClientState, w: Window, geo: Geocoder, d: Config.Defaults)
    modifies st, geo
    ensures st.chats == old(st.chats) && st.currentChatId == old(st.currentChatId) && st.messages == old(st.messages)
    ensures st.lastLat == old(st.lastLat) && st.lastLon == old(st.lastLon)
    ensures Config.GetConfig(d, w.query, w.storage).arcgisKey == "" ==>
      st.points == old(st.points) && st.geocodeCache == old(st.geocodeCache)
      && st.savedGeocodeCache == old(st.savedGeocodeCache) && geo.asked == old(geo.asked)
    ensures Config.GetConfig(d, w.query, w.storage).arcgisKey != "" ==>
      var r := GeoRunUpTo(old(st.points), KeysOf(old(st.points)), old(st.geocodeCache), old(geo.answers), |old(st.points)|);
      st.points == r.points && st.geocodeCache == r.cache
      && geo.asked == old(geo.asked) + r.queries
      && st.savedGeocodeCache == (if r.changed then Some(r.cache) else old(st.savedGeocodeCache))
  {
    if Config.GetConfig(d, w.query, w.storage).arcgisKey == "" {
      return;
    }
    var changed := GeoFill(st, geo);
    if changed {
      st.savedGeocodeCache := Some(st.geocodeCache);
    }
  }
}
