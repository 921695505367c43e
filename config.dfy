/** Client configuration (`config.js`; the web build and the copy bundled in the
    Android assets differ only in their default map key). */
module Config {
  import opened Wrappers
  import Text
  import Web

  datatype Defaults = Defaults(apiBase: string, arcgisKey: string)

  datatype ClientConfig = ClientConfig(apiBase: string, arcgisKey: string)

  const ApiBaseKey: string := "katara_api_base"
  const ArcgisKeyKey: string := "katara_arcgis_key"

  /** The web build: no default map key. */
  const WebDefaults: Defaults := Defaults("https://katara-api.wiccagirl.online", "")

  /** The Android-bundled build ships a map key. */
  const AndroidDefaults: Defaults := Defaults(
    "https://katara-api.wiccagirl.online",
    "AAPTxy8BH1VEsoebNVZXo8HurHOzlhyj484tF0siqrlS7D2GGuS3rjAk9WodkMj0EyEcQ4LG8oGshgWB6OQTmYmPZ8WtKOG3u16xMYpOgHB7YumE2F_Cl6GwTBWrgKXLpG-F7bwM8iFd4uUZRtH9oLcoNqITo4J--i_jzIrPuBndEnTteZ0ba6qZj6FSzOv5WKTsoVLl08fPlM_Fzcbn2s899O-GHINpIgFzYSRKpBlmLDY.AT1_7MmbEmco")

  /** `s.replace(/\/$/, "")`: removes one trailing slash, if there is one. */
  function StripOneSlash(s: string): (r: string)
    ensures s != [] && s[|s| - 1] == '/' ==> r == s[..|s| - 1]
    ensures !(s != [] && s[|s| - 1] == '/') ==> r == s
  {
    if s != [] && s[|s| - 1] == '/' then s[..|s| - 1] else s
  }

  /** `a || b` over strings, with null (None) falsy like "". */
  function OrElse(a: Option<string>, b: string): string {
    if a.Some? && a.value != "" then a.value else b
  }

  /** `getConfig()` over the query parameters and `localStorage`. */
  function GetConfig(d: Defaults, query: map<string, string>, storage: map<string, string>): ClientConfig {
    var chosen := OrElse(Web.GetItem(query, "api"), OrElse(Web.GetItem(storage, ApiBaseKey), d.apiBase));
    ClientConfig(StripOneSlash(chosen), OrElse(Web.GetItem(storage, ArcgisKeyKey), d.arcgisKey))
  }

  /** `API_BASE` priority: a non-empty `api` query value, else a non-empty stored base,
      else the default; exactly one trailing slash of the chosen value is dropped. */
  lemma ApiBasePriority(d: Defaults, query: map<string, string>, storage: map<string, string>)
    ensures "api" in query && query["api"] != "" ==>
      GetConfig(d, query, storage).apiBase == StripOneSlash(query["api"])
    ensures ("api" !in query || query["api"] == "") && ApiBaseKey in storage && storage[ApiBaseKey] != "" ==>
      GetConfig(d, query, storage).apiBase == StripOneSlash(storage[ApiBaseKey])
    ensures ("api" !in query || query["api"] == "") && (ApiBaseKey !in storage || storage[ApiBaseKey] == "") ==>
      GetConfig(d, query, storage).apiBase == StripOneSlash(d.apiBase)
  {
  }

  /** Only one slash goes: `"x//"` becomes `"x/"`. */
  lemma StripsExactlyOne(x: string)
    ensures StripOneSlash(x + "//") == x + "/"
    ensures StripOneSlash(x + "/") == x
  {
    assert (x + "//")[..|x| + 1] == x + "/";
    assert (x + "/")[..|x|] == x;
  }

  /** The configured defaults carry no trailing slash, so the default base is used verbatim. */
  lemma DefaultBasesUnchanged()
    ensures StripOneSlash(WebDefaults.apiBase) == WebDefaults.apiBase
    ensures StripOneSlash(AndroidDefaults.apiBase) == AndroidDefaults.apiBase
  {
  }

  /** Web build: the map key is the stored key when non-empty, otherwise the empty default. */
  lemma WebArcgisKey(query: map<string, string>, storage: map<string, string>)
    ensures GetConfig(WebDefaults, query, storage).arcgisKey ==
      (if ArcgisKeyKey in storage then storage[ArcgisKeyKey] else "")
  {
  }

  /** Android build: the map key is never empty, whatever is stored. */
  lemma AndroidArcgisKeyNeverEmpty(query: map<string, string>, storage: map<string, string>)
    ensures GetConfig(AndroidDefaults, query, storage).arcgisKey != ""
    ensures ArcgisKeyKey in storage && storage[ArcgisKeyKey] != "" ==>
      GetConfig(AndroidDefaults, query, storage).arcgisKey == storage[ArcgisKeyKey]
  {
  }

  /** `setApiBase(v)`: stores `v` without one trailing slash. */
  method SetApiBase(w: Web.Window, v: string)
    modifies w
    ensures w.storage == old(w.storage)[ApiBaseKey := StripOneSlash(v)]
    ensures w.hash == old(w.hash) && w.query == old(w.query)
  {
    w.SetItem(ApiBaseKey, StripOneSlash(v));
  }

  /** `setArcgisKey(v)`: stores `v.trim()`. */
  method SetArcgisKey(w: Web.Window, v: string)
    modifies w
    ensures w.storage == old(w.storage)[ArcgisKeyKey := Text.Trim(Text.Js, v)]
    ensures w.hash == old(w.hash) && w.query == old(w.query)
  {
    w.SetItem(ArcgisKeyKey, Text.Trim(Text.Js, v));
  }

  /** After `setApiBase(v)`, with no `api` query value, `getConfig` uses the stored value
      (stripped once more) unless it is empty, in which case the default applies. */
  lemma SetThenGet(d: Defaults, query: map<string, string>, storage: map<string, string>, v: string)
    requires "api" !in query || query["api"] == ""
    ensures var stored := StripOneSlash(v);
      GetConfig(d, query, storage[ApiBaseKey := stored]).apiBase ==
        (if stored != "" then StripOneSlash(stored) else StripOneSlash(d.apiBase))
  {
  }

  /** After `setArcgisKey(v)` the configured key is the trimmed value, or the default when that is empty. */
  lemma SetKeyThenGet(d: Defaults, query: map<string, string>, storage: map<string, string>, v: string)
    ensures var stored := Text.Trim(Text.Js, v);
      GetConfig(d, query, storage[ArcgisKeyKey := stored]).arcgisKey ==
        (if stored != "" then stored else d.arcgisKey)
    ensures Text.IsTrimmed(Text.Js, GetConfig(d, query, storage[ArcgisKeyKey := Text.Trim(Text.Js, v)]).arcgisKey)
      || GetConfig(d, query, storage[ArcgisKeyKey := Text.Trim(Text.Js, v)]).arcgisKey == d.arcgisKey
  {
    Text.TrimProperties(Text.Js, v);
  }
}
