# KataraLM recycling assistant — a verified model

KataraLM helps people in Guayaquil recycle. It has three parts:

- a FastAPI server with SQLite: accounts with e-mailed one-time codes, JWT access and refresh tokens, chats with a language model, recycling collection points and user profiles;
- a single-page web client: a token store over `localStorage`, an authenticated fetch gateway that refreshes once on a 401, hash routing, a geocode cache and a points filter;
- an Android shell that hosts the client in a WebView.

This project models the decision logic and the state changes of those parts in Dafny and proves what they promise.

Layout, one module per file:

- `wrappers`, `text`, `decimal` and `url` hold shared value-level helpers:
  - text: JavaScript and Python whitespace, Latin-1 lower-casing, trim, split and join, basename;
  - decimal rendering and parsing;
  - `urllib.parse.quote`.
- `json`, `web`, `api`, `config`, `ui`, `app_view`, `app_state` and `auth_tabs` model the web client.
  - `web.Window` stands for `localStorage` and `location`.
  - `web.Network` stands for `fetch`. It hands out a script of replies that is quantified over, and logs every request sent.
- `db`, `http`, `settings`, `tokens`, `otp`, `files`, `mailer`, `auth`, `chats`, `users`, `sorting` and `points` model the server.
  - `db.Database` is a class whose fields are the tables, as maps from row id to row, with their id counters.
  - Each endpoint is a method on it. Its `ensures` equals the new state and the answer to an `...Outcome` function of the old state, and lemmas state the endpoint's properties over that function.
- `shell` models the Android activity as a class. Its fields are the callback slots and the overlay and back-navigation state.

Inputs that the code reads from the outside world are parameters:

- the clock, as whole seconds;
- the drawn OTP number, the geocoder's and the chat model's answers;
- whether the mail service raises;
- the sizes of uploads;
- the Android activity results and permission grants.

Cryptography is modelled as injective constructors:

- a JWT is its claims signed with a key;
- SHA-256 and bcrypt are `Sha256(input)` and `Bcrypt(secret)`.

Distances, `round` and float formatting are passed in as functions (`Points.Numerics`).

## Model

| member | source | states |
|---|---|---|
| Api.TokensOf | webapp/js/api.js:3-8 | a token reads as non-empty exactly when its `localStorage` entry exists and is non-empty; absent entries read as "" |
| Api.StoreThenRead | webapp/js/api.js:9-12 | after `setTokens(j)` a truthy string token replaces the stored one, a falsy or missing field leaves the old token in place, and no other storage entry changes |
| Api.ClearThenRead | webapp/js/api.js:13-20 | after `clearTokens` both tokens read "", `isAuthed` is false, and the other entries are kept |
| Api.SetTokens | webapp/js/api.js:9-12 | the storage becomes the `setTokens` update of the old storage; `location` is untouched |
| Api.ClearTokensIn | webapp/js/api.js:13-16 | the storage loses both token entries and nothing else |
| Api.Logout | webapp/js/api.js:76-79 | both tokens are cleared, the client is no longer signed in, and the hash is `#/auth` |
| Api.AuthorizationHeader | webapp/js/api.js:27-35 | `Authorization: Bearer <access>` is set exactly when `auth` is not false and the access token is non-empty, never with an empty token; otherwise the caller's header is kept as given |
| Api.ContentTypeHeader | webapp/js/api.js:28-31 | a JSON content type is added only for a truthy, non-FormData object body without a caller-supplied content type; a caller's content type is kept |
| Api.OtherHeadersUnchanged | webapp/js/api.js:26-35 | no header other than authorization and content type is added or changed |
| Api.BodyRule | webapp/js/api.js:36 | absent, falsy, FormData and string bodies go out unchanged; every other value is `JSON.stringify`'d |
| Api.RefreshRequest | webapp/js/api.js:55-60 | the refresh call is a JSON POST to `/auth/refresh` with the refresh token and no bearer header |
| Api.AcceptedRefresh | webapp/js/api.js:61-62 | a refresh is accepted exactly when the reply arrived, is `ok`, and its parsed body has a truthy `ok`; a network error, a bad status or an unparsable body is refused |
| Api.RefreshAccess | webapp/js/api.js:53-69 | one POST; on acceptance the returned tokens are stored and the result is true, otherwise both tokens are cleared and the result is false (fail closed) |
| Api.ApiFetch | webapp/js/api.js:22-51 | the method's resolution, storage and request log equal those of the `Gateway` function of the old window and network state |
| Api.BaseIgnoresTokens | webapp/js/api.js:23-24 | writing or clearing tokens never changes the configured API base, so the retry goes to the same URL |
| Api.CallBound | webapp/js/api.js:39-50 | one `apiFetch` makes at most three calls (request, one refresh, one retry); only a 401 with a stored refresh token and no `_retried` goes past the first call; the retry never refreshes again |
| Api.RefreshOnUnauthorized | webapp/js/api.js:39-50 | a first reply of 401, with a refresh token stored and no `_retried`, does make the refresh call; a refused refresh ends there with both tokens cleared and the 401 returned; an accepted one stores the new tokens and makes exactly one retry, marked `_retried` and carrying the new access token, whose reply is returned |
| Api.Outcomes | webapp/js/api.js:38-50 | one call: the first reply is returned and storage unchanged; two calls: the refresh failed, both tokens are cleared and the 401 is returned; three calls: the new tokens are stored and the retry's reply is returned; non-token entries never change |
| Api.ResponseJson | webapp/js/api.js:71-74 | `json(res)` is the parsed body, or `{raw: text}` when parsing fails |
| Web.Window.constructor | webapp/js/api.js:3-8 | the page starts with the given `localStorage` entries, hash and query parameters |
| Web.Window.SetItem | webapp/js/api.js:10-11 | `localStorage.setItem` sets one entry and changes nothing else |
| Web.Window.RemoveItem | webapp/js/api.js:14-15 | `localStorage.removeItem` deletes one entry and changes nothing else |
| Web.Window.SetHash | webapp/js/api.js:78 | assigning `location.hash` changes the hash only |
| Web.ItemOrEmpty | webapp/js/api.js:5-6 | an entry read with an empty-string fallback is non-empty exactly when the entry exists and is non-empty |
| Web.Network.constructor | webapp/js/api.js:38 | the network starts with its script of deliveries and no request sent |
| Web.Network.Fetch | webapp/js/api.js:38 | one `fetch` logs its request and settles to the next delivery of the script, a network error once the script is used up |
| Config.StripOneSlash | webapp/js/config.js:10 | removes one trailing `/` when there is one, otherwise returns its input |
| Config.ApiBasePriority | webapp/js/config.js:6-14 | `API_BASE` is the non-empty `api` query value, else the non-empty stored base, else the default, each with one trailing slash removed |
| Config.StripsExactlyOne | webapp/js/config.js:10 | only one slash is removed: `x//` becomes `x/`, `x/` becomes `x` |
| Config.DefaultBasesUnchanged | android/app/src/main/assets/webapp/js/config.js:1-4 | the default API base of both builds has no trailing slash and is used verbatim |
| Config.WebArcgisKey | webapp/js/config.js:3-11 | in the web build the map key is the stored key when it is non-empty, else the empty default |
| Config.AndroidArcgisKeyNeverEmpty | android/app/src/main/assets/webapp/js/config.js:3-11 | in the Android build the map key is never empty: a non-empty stored key, else the bundled default |
| Config.SetApiBase | webapp/js/config.js:16-18 | stores the value with one trailing slash removed under `katara_api_base`, and changes nothing else |
| Config.SetArcgisKey | webapp/js/config.js:20-22 | stores the trimmed value under `katara_arcgis_key`, and changes nothing else |
| Config.SetThenGet | webapp/js/config.js:9-18 | with no `api` query value, `getConfig` after `setApiBase(v)` yields the stored value (stripped once more), or the default when that is empty |
| Config.SetKeyThenGet | webapp/js/config.js:11-22 | after `setArcgisKey(v)` the configured key is the trimmed value, or the default when that is empty, and it is always trimmed when the default is |
| Ui.Element.constructor | webapp/js/ui.js:2 | `createElement(tag)` gives an element with that tag, no properties and no children |
| Ui.Element.SetClassName | webapp/js/ui.js:4 | sets `className` only |
| Ui.Element.SetInnerHtml | webapp/js/ui.js:5 | sets `innerHTML` only |
| Ui.Element.AddEventListener | webapp/js/ui.js:6 | appends one listener only |
| Ui.Element.SetAttribute | webapp/js/ui.js:7 | sets one attribute only |
| Ui.Element.AppendChild | webapp/js/ui.js:11 | appends one child node only |
| Ui.AttrsEffect | webapp/js/ui.js:3-8 | `class` and `html` become `className` and `innerHTML`, never attributes; a function under an `on*` key registers a listener for the event named after `on`, and a non-function `on*` value is an attribute; null and undefined values are skipped; every other value is stored as `String(v)`; no attribute appears that no entry named |
| Ui.StepKeys | webapp/js/ui.js:3-8 | one entry adds at most its own key as an attribute, never `class` or `html`, and appends its listener exactly when it registers one |
| Ui.StepOther | webapp/js/ui.js:3-8 | an entry for another key keeps what an earlier entry left |
| Ui.StepOwn | webapp/js/ui.js:3-8 | an entry whose key has no attribute yet leaves exactly its own effect |
| Ui.ChildList | webapp/js/ui.js:9 | a non-array `children` is a one-element list |
| Ui.AppendedConcat | webapp/js/ui.js:9-12 | the appended nodes keep input order: those of `a + b` are those of `a` followed by those of `b` |
| Ui.SingleChild | webapp/js/ui.js:10-11 | null and undefined children append nothing, a string appends a text node, a node appends itself |
| Ui.El | webapp/js/ui.js:1-14 | `el` returns a fresh element with the tag, exactly the attribute effects of the entries in order, and the children appended in order |
| AppView.Route | android/app/src/main/assets/webapp/js/app.js:30-34 | a route is never empty |
| AppView.RouteForms | android/app/src/main/assets/webapp/js/app.js:30-34 | `""`, `#` and `#/` route to `/`, and `#/x` and `#x` route to `/x` |
| AppView.RouteStartsWithSlash | android/app/src/main/assets/webapp/js/app.js:32-33 | a hash that starts with `#` routes to a path that starts with `/` |
| AppView.Render | android/app/src/main/assets/webapp/js/app.js:39-60 | signed out and not at `/auth`: redirect to `#/auth`; signed in at `/auth`: redirect to `#/`; signed out at `/auth`: the sign-in page; otherwise the shell for the route |
| AppView.RedirectSettles | android/app/src/main/assets/webapp/js/app.js:43-50 | rendering at the hash a redirect set never redirects again: a signed-out client lands on the sign-in page, a signed-in one on the dashboard |
| AppView.PageTable | android/app/src/main/assets/webapp/js/app.js:146-157 | each page is reached from its own path, `/dashboard` is the dashboard too, and exactly the unlisted paths give the not-found card |
| AppView.CollapseFrom | android/app/src/main/assets/webapp/js/app.js:817 | collapsing whitespace never lengthens the text, leaves only single plain spaces, and never two spaces in a row |
| AppView.CollapseKeepsLower | android/app/src/main/assets/webapp/js/app.js:817 | collapsing introduces no upper-case letter |
| AppView.LowerTrimmed | android/app/src/main/assets/webapp/js/app.js:817 | lower-casing then trimming leaves no upper-case letter and no leading space |
| AppView.CollapsedNormal | android/app/src/main/assets/webapp/js/app.js:817 | collapsing a lower-case text without a leading space gives normal form, and so does every prefix of it |
| AppView.CacheKeyShape | android/app/src/main/assets/webapp/js/app.js:816-818 | `cacheKey` is `addr_` followed by at most 160 characters of the lower-cased, trimmed, whitespace-collapsed address |
| AppView.CacheKeyOfNormal | android/app/src/main/assets/webapp/js/app.js:816-818 | an address already lower-case, trimmed and single-spaced, of at most 160 characters, keys as `addr_` followed by the address itself |
| AppView.CacheKeyOuterSpace | android/app/src/main/assets/webapp/js/app.js:817 | whitespace before or after the address does not change its key |
| AppView.CacheKeyInnerSpace | android/app/src/main/assets/webapp/js/app.js:817 | any run of whitespace between two words keys like one space |
| AppView.CollapseRun | android/app/src/main/assets/webapp/js/app.js:817 | `replace(/\s+/g, " ")` turns any non-empty run of whitespace into one space |
| AppView.CacheKeyIgnoresCase | android/app/src/main/assets/webapp/js/app.js:816-818 | addresses that differ only in letter case share a key; a missing address keys like the empty one, as `addr_` |
| AppView.Escape | android/app/src/main/assets/webapp/js/app.js:957-959 | the escaped text contains no `<`, `>` or `"`, and text with none of the four special characters is unchanged |
| AppView.UnescapeChar | android/app/src/main/assets/webapp/js/app.js:958 | each character's escape decodes back to that character |
| AppView.EscapeRoundTrip | android/app/src/main/assets/webapp/js/app.js:957-959 | decoding the four entities gives the original text back, so escaping loses nothing |
| AppView.EscapeAppend | android/app/src/main/assets/webapp/js/app.js:958 | escaping works character by character: it distributes over concatenation |
| AppView.FilterBy | android/app/src/main/assets/webapp/js/app.js:891-894 | the filter keeps only points of the list that match the query, and never more than the list |
| AppView.EmptyQueryKeepsAll | android/app/src/main/assets/webapp/js/app.js:890-894 | an empty or all-blank query keeps every point, in order |
| AppView.KeepsAll | android/app/src/main/assets/webapp/js/app.js:893 | when every point matches, the filter returns the list unchanged |
| AppView.FilterComplete | android/app/src/main/assets/webapp/js/app.js:891-894 | a point is kept exactly when its lower-cased name, address, category and notes text contains the query |
| AppView.FilterAppend | android/app/src/main/assets/webapp/js/app.js:891 | the filter keeps input order: its result for `a + b` is its result for `a` followed by that for `b` |
| AppView.QueryIgnoresCase | android/app/src/main/assets/webapp/js/app.js:890 | the search query does not depend on the letter case typed |
| AppState.ClientState.constructor | android/app/src/main/assets/webapp/js/app.js:14-24 | the initial `state`: no chats, no current chat, empty caches, no points, no stored location |
| AppState.LoadChats | android/app/src/main/assets/webapp/js/app.js:449-457 | a non-empty cached list is returned with no call; otherwise one `apiFetch("/chats")`: a failure leaves the state alone and yields `[]`, a success replaces the list and selects its first chat when none is selected; nothing else changes |
| AppState.LoadMessages | android/app/src/main/assets/webapp/js/app.js:459-466 | a cache hit returns the cached list with no call; otherwise one fetch, and only a successful reply is cached under the chat id; nothing else changes |
| AppState.SendForm | android/app/src/main/assets/webapp/js/app.js:566-574 | the form always starts with the text entry |
| AppState.SendFormEntries | android/app/src/main/assets/webapp/js/app.js:566-574 | the form has an `image` entry exactly when a file was chosen, and `lat` and `lon` entries exactly when both coordinates are stored |
| AppState.SendVerdict | android/app/src/main/assets/webapp/js/app.js:576-579 | a send counts as rejected exactly on a network error, and as sent exactly on a 2xx reply with a truthy `ok` |
| AppState.PostMessage | android/app/src/main/assets/webapp/js/app.js:576-588 | the post goes through the gateway, and the chat's message cache is dropped only after a successful send |
| AppState.PostWithLocation | android/app/src/main/assets/webapp/js/app.js:566-576 | the stored location is sent and then forgotten (one-shot) when both coordinates are set; otherwise it is kept and not sent |
| AppState.SendChatMessage | android/app/src/main/assets/webapp/js/app.js:556-589 | without a current chat, or with blank text and no file, nothing is sent and nothing changes; otherwise the message is posted with the stored location as above |
| AppState.Geocoder.constructor | android/app/src/main/assets/webapp/js/app.js:853-867 | the geocoder oracle starts with its script of answers and no request logged |
| AppState.Geocoder.Lookup | android/app/src/main/assets/webapp/js/app.js:837 | one lookup logs the address and consumes the next answer |
| AppState.KeysOf | android/app/src/main/assets/webapp/js/app.js:828 | there is one cache key per point |
| AppState.KeysOfAt | android/app/src/main/assets/webapp/js/app.js:828 | key `i` is `cacheKey` of point `i`'s address |
| AppState.GeoStep | android/app/src/main/assets/webapp/js/app.js:826-845 | one iteration keeps the number of points |
| AppState.GeoRunUpTo | android/app/src/main/assets/webapp/js/app.js:826-845 | every prefix of the loop keeps the number of points |
| AppState.GeoSuccessKeeps | android/app/src/main/assets/webapp/js/app.js:838-842 | a successful lookup adds one new cache key and counts one, keeping every earlier outcome |
| AppState.GeoStepKeeps | android/app/src/main/assets/webapp/js/app.js:826-845 | one iteration keeps the loop invariant: located points untouched, others untouched or filled from the cache, count equal to the new keys, count at most 12 |
| AppState.GeoInvHolds | android/app/src/main/assets/webapp/js/app.js:826-845 | every prefix of the loop satisfies the invariant |
| AppState.StoppedStays | android/app/src/main/assets/webapp/js/app.js:835 | once the cap of 12 stops the loop, the remaining points change nothing (the `break`) |
| AppState.GeoLaterKeep | android/app/src/main/assets/webapp/js/app.js:826-845 | later iterations leave a point as its own iteration left it |
| AppState.GeoFillPoint | android/app/src/main/assets/webapp/js/app.js:826-845 | for a point missing a coordinate, in the state the loop reaches it in: after the `break` it stays as it was; a cache hit fills it with the cached coordinates, with no lookup and nothing counted; with 12 successes already the loop stops there without a lookup; otherwise one lookup is made and the point is filled, and counted, exactly when there is an answer |
| AppState.GeoCapStops | android/app/src/main/assets/webapp/js/app.js:835 | once 12 lookups have succeeded no further lookup is made and nothing more is counted |
| AppState.GeoFillProperties | android/app/src/main/assets/webapp/js/app.js:820-851 | points with both coordinates are untouched; any other point is untouched or carries the cached coordinates of its key; only coordinates change; the cache only gains entries, one per successful lookup; at most 12 lookups succeed; `changed` holds exactly when one did |
| AppState.GeoIteration | android/app/src/main/assets/webapp/js/app.js:827-844 | one pass of the loop body leaves the state and the geocoder as the next step of `GeoRunUpTo` says, and reports whether the cap stopped the loop |
| AppState.GeoFill | android/app/src/main/assets/webapp/js/app.js:824-845 | the loop over all points leaves the points, the cache and the lookup log as `GeoRunUpTo` over all of them says |
| AppState.GeocodeMissingPoints | android/app/src/main/assets/webapp/js/app.js:820-851 | without a map key nothing changes and no lookup is made; otherwise the loop runs and the cache is saved exactly when a lookup succeeded |
| AuthTabs.TabIndex | android/app/src/main/assets/webapp/js/app.js:286-287 | only the login, register and forgot modes have a tab, numbered 0 to 2 |
| AuthTabs.FieldText | android/app/src/main/assets/webapp/js/app.js:312-313 | `String(j[key])` is `undefined` for a missing field and the text of a string field |
| AuthTabs.Panel.constructor | android/app/src/main/assets/webapp/js/app.js:268-291 | the panel starts on the login form with its tab highlighted and no carried e-mail |
| AuthTabs.Panel.SetMode | android/app/src/main/assets/webapp/js/app.js:283-289 | switches the drawn form to the mode and moves the highlight to that mode's tab, if it has one |
| AuthTabs.Panel.RegisterDone | android/app/src/main/assets/webapp/js/app.js:337-343 | on success the e-mail is carried and the verify form is shown without moving the highlight; on failure nothing changes |
| AuthTabs.Panel.ForgotDone | android/app/src/main/assets/webapp/js/app.js:390-395 | whatever the server answered, the e-mail is carried and the reset form is shown; only a thrown request leaves the panel as it was |
| AuthTabs.Panel.ResetDone | android/app/src/main/assets/webapp/js/app.js:412-417 | on success the login form is shown; otherwise nothing changes |
| AuthTabs.SignInDone | android/app/src/main/assets/webapp/js/app.js:308-314 | on success both tokens are written from the body, whatever they hold, and the hash becomes `#/`; on failure nothing changes |
| AuthTabs.SignInLands | android/app/src/main/assets/webapp/js/app.js:312-314 | after a sign-in the client counts as signed in exactly when the access token text is non-empty (a missing field is written as `undefined`, which counts); the guard then shows the dashboard, otherwise it goes back to `#/auth` |
| Settings.GetEnv | backend/app/settings.py:5-6 | a set variable gives its value, an unset one the default |
| Settings.GetBoolCases | backend/app/settings.py:8-9 | a flag is on exactly when the lower-cased value is `1`, `true`, `yes`, `y` or `on`; an unset flag uses its default |
| Settings.StrippedParts | backend/app/settings.py:57 | every kept part is non-empty and stripped |
| Settings.CorsOrigins | backend/app/settings.py:56-57 | a value that strips to `*` gives `["*"]`; otherwise the stripped non-empty comma-separated parts, in order |
| Settings.StrippedPartsClean | backend/app/settings.py:57 | parts keep no comma |
| Settings.CorsClean | backend/app/settings.py:56-57 | every parsed origin is non-empty, stripped and comma-free |
| Settings.StrippedPartsOfClean | backend/app/settings.py:57 | clean parts pass through unchanged |
| Settings.CorsRoundTrip | backend/app/settings.py:56-57 | a list of clean origins written comma-separated parses back to itself |
| Settings.JoinStar | backend/app/settings.py:57 | a join of clean origins strips to `*` only for the list `["*"]` |
| Settings.CommaKept | backend/app/settings.py:57 | a comma after a non-space character survives stripping |
| Settings.StripSlashes | backend/app/settings.py:60 | `rstrip("/")` removes exactly the trailing run of slashes |
| Settings.StripSlashesIdempotent | backend/app/settings.py:60 | stripping twice changes nothing more, and a base without a trailing slash is kept |
| Settings.Load | backend/app/settings.py:43-89 | loading fails exactly when a token lifetime is not an integer as `int()` reads it (sign, ASCII digits, group underscores, surrounding whitespace); otherwise every field is the variable or its default |
| Settings.LoadGroupedMinutes | backend/app/settings.py:68 | `ACCESS_TOKEN_MINUTES=3_0` loads as 30 minutes, and `3__0` makes the load fail |
| Settings.LoadDefaults | backend/app/settings.py:56-89 | with nothing set, tokens live 30 minutes and 30 days, every origin is allowed, geocoding is off, and the public base URL has no trailing slash |
| Settings.ParseThirty | backend/app/settings.py:68-69 | the default lifetime text `30` reads as the number 30 |
| Settings.UploadDir | backend/app/settings.py:45-48 | the upload directory is `uploads` under the data directory, `./data/uploads` by default |
| Tokens.Decode | backend/app/utils/tokens.py:53 | decoding succeeds exactly for a token signed with the key that has not expired, and gives its claims |
| Tokens.VerifyAccess | backend/app/utils/tokens.py:51-56 | the user id of a valid token whose subject is an integer, with no type check; every failure is 401 `Invalid token` |
| Tokens.VerifyRefresh | backend/app/utils/tokens.py:58-72 | a valid token of type `refresh` with an integer subject and a stored row gives its user; a bad token is 401 `Invalid refresh token`, an unstored one 401 `Refresh token revoked` |
| Tokens.CurrentUserId | backend/app/utils/tokens.py:79-85 | missing or empty credentials give 401 `Not authenticated`; otherwise the access check decides |
| Tokens.StoreRefresh | backend/app/utils/tokens.py:28-38 | insert-or-replace keyed by the token: one row per token, nothing else changes |
| Tokens.RevokeRefresh | backend/app/utils/tokens.py:41-48 | deletes the token's row, if any, and nothing else |
| Tokens.AccessTokenLifetime | backend/app/utils/tokens.py:15-18 | an access token gives back its user exactly until `now + ACCESS_TOKEN_MINUTES` |
| Tokens.RefreshTokenLifetime | backend/app/utils/tokens.py:20-23 | a refresh token gives back its user until `now + REFRESH_TOKEN_DAYS` while its row is stored; expired it is invalid, unstored it is revoked |
| Tokens.AccessTokenCannotRefresh | backend/app/utils/tokens.py:58-65 | an access token never refreshes, stored or not |
| Tokens.RefreshTokenGrantsAccess | backend/app/utils/tokens.py:51-56 | an unexpired refresh token is accepted as an access token, since the access check reads no type |
| Tokens.RevokedTokenRejected | backend/app/utils/tokens.py:67-71 | after `revoke_refresh` the token no longer refreshes |
| Tokens.ForeignTokenRejected | backend/app/utils/tokens.py:51-65 | a token signed with another key, or any other text, is rejected by both checks |
| Otp.GenerateCode | backend/app/utils/otp.py:5-6 | a code is exactly six decimal digits and parses back to the drawn number |
| Otp.GenerateCodeInjective | backend/app/utils/otp.py:5-6 | distinct draws give distinct codes |
| Otp.CodeHash | backend/app/utils/otp.py:8-10 | the hashed text is the lower-cased e-mail, purpose, code and pepper, joined by vertical bars |
| Otp.CodeHashIgnoresCase | backend/app/utils/otp.py:9 | the hash does not depend on the letter case of the e-mail |
| Otp.CodeHashMatches | backend/app/utils/otp.py:8-10 | for one e-mail (any case), purpose and pepper, two codes hash alike exactly when they are the same code |
| Otp.PurposesSeparate | backend/app/utils/otp.py:8-10 | a verification code never hashes like a reset code |
| Otp.ExpiresIn | backend/app/utils/otp.py:12-13 | the expiry is not before now for a non-negative lifetime, and strictly later for a positive one |
| Files.SubFrom | backend/app/utils/files.py:5 | the substitution never lengthens the text, and non-empty input gives non-empty output |
| Files.SubFromSafe | backend/app/utils/files.py:5 | every character the substitution writes is in `[a-zA-Z0-9._-]` |
| Files.Sub | backend/app/utils/files.py:5 | `SAFE.sub("_", s)` contains only safe characters |
| Files.SafeName | backend/app/utils/files.py:7-10 | `safe_name` is non-empty, made of safe characters, and at most 120 long |
| Files.SubFromCons | backend/app/utils/files.py:5 | the substitution reads one character at a time |
| Files.SubAppend | backend/app/utils/files.py:5 | substituting `x + y` is substituting `x`, then `y` in the run state `x` leaves |
| Files.SubOfRun | backend/app/utils/files.py:5 | a run of unsafe characters becomes a single `_`, or nothing when a run is already going on |
| Files.SubOfSafe | backend/app/utils/files.py:5 | safe text is copied |
| Files.SubStart | backend/app/utils/files.py:5 | text that starts safe is copied alike in either run state |
| Files.ReplacesMaximalRun | backend/app/utils/files.py:5 | each maximal run of unsafe characters between safe ones becomes exactly one `_` |
| Files.RunThenSafe | backend/app/utils/files.py:5 | a run of unsafe characters followed by a safe one, or by the end, gives one `_` and then the rest substituted |
| Files.SafeNameKeepsSafe | backend/app/utils/files.py:7-10 | a safe name of at most 120 characters is unchanged; an empty or missing name becomes `file` |
| Files.SafeNameIdempotent | backend/app/utils/files.py:7-10 | `safe_name` is idempotent |
| Files.SafeNameNoSlash | backend/app/utils/files.py:7-10 | a safe name contains no `/` |
| Files.UniqueFilename | backend/app/utils/files.py:12-15 | the name ends in `_` followed by the safe name of the original |
| Files.UniqueFilenameNoSlash | backend/app/utils/files.py:12-15 | with a slash-free prefix the name contains no `/` |
| Files.UploadBasename | backend/app/utils/files.py:12-15 | joining the name to any directory gives a path whose basename is the name |
| Mailer.CloseAfter | backend/app/services/mailer.py:120 | finds the first `>` at or after a position, or reports there is none |
| Mailer.SearchFrom | backend/app/services/mailer.py:120 | `re.search(r"<([^>]+)>")` finds the leftmost match, or reports there is none |
| Mailer.FormatSender | backend/app/services/mailer.py:115-125 | an empty sender gives `KataraLM <no-reply@katara.local>`; any other gives `KataraLM <address>` |
| Mailer.SenderOfNamed | backend/app/services/mailer.py:120-125 | `Name <addr>` keeps the stripped `addr` under the name KataraLM |
| Mailer.CloseIs | backend/app/services/mailer.py:120 | the closing search finds a `>` when none comes earlier |
| Mailer.SenderOfBare | backend/app/services/mailer.py:123-125 | a bare address is kept, stripped, under the name KataraLM |
| Mailer.KindOf | backend/app/services/mailer.py:153-164 | purpose `verify_email` selects the verification message; every other purpose the reset message |
| Mailer.SendEmail | backend/app/services/mailer.py:127-136 | nothing is sent exactly when the API key is empty; otherwise the message goes from the formatted sender to the one address with the subject |
| Mailer.Or | backend/app/services/mailer.py:157 | `a or b` over strings |
| Mailer.OtpTexts | backend/app/services/mailer.py:148-180 | verification points the button at the terms, any other purpose is a reset pointing at the privacy policy; an empty link falls back to the public base URL for the button and to `#` in the footer |
| Mailer.OtpDelivery | backend/app/services/mailer.py:148-181 | without an API key nothing is sent; with one the message goes to exactly the given address, from KataraLM, with its purpose's subject and code |
| Db.Database.constructor | backend/app/db.py:7-62 | starts with empty tables and every id counter at 1 |
| Db.RowChangesConsistent | backend/app/db.py:7-17 | rewriting rows of `users` and `email_otps` without new ids keeps the tables consistent when the users stay unique |
| Db.RewriteUserUnique | backend/app/db.py:9-10 | rewriting one user with its e-mail and a username no other user holds keeps e-mails and usernames unique |
| Db.LowestUser | backend/app/db.py:7-17 | the lowest matching id in a range, or no match in that range |
| Db.FindUser | backend/app/db.py:7-17 | a found row matches the clause, and when none is found no row matches |
| Db.FindByEmailUnique | backend/app/db.py:9 | with unique e-mails the user found by e-mail is the only one with it |
| Db.LatestOtp | backend/app/routers/auth.py:135-138 | `ORDER BY id DESC LIMIT 1`: the newest row of the e-mail and purpose, or none |
| Db.DropOtps | backend/app/routers/auth.py:45 | deletes exactly the rows of that e-mail and purpose and keeps the others as they were |
| Db.Select | backend/app/routers/points.py:14 | a scan of a range returns at most as many rows as the range has ids |
| Db.SelectRows | backend/app/routers/points.py:14 | every scanned entry is a selected row of the table in range |
| Db.SelectComplete | backend/app/routers/points.py:14 | every selected row is scanned, in increasing id order |
| Db.SelectEmpty | backend/app/routers/points.py:14 | the scan is empty exactly when no row in range is selected |
| Db.SelectSnoc | backend/app/routers/points.py:61-63 | extending the range by one id appends that row when it is selected |
| Db.SelectOutside | backend/app/routers/points.py:61 | rows outside the range do not affect the scan |
| Db.SelectFirst | backend/app/routers/chats.py:45 | the first entry has the lowest selected id (`ORDER BY id LIMIT 1`) |
| Auth.AfterMail | backend/app/routers/auth.py:117-129 | the answer is a 500 exactly when a mail was handed over and the mail service raised, after the commit; otherwise the handler's body |
| Auth.MarkVerified | backend/app/routers/auth.py:157 | exactly the users with the e-mail become verified with the new `updated_at`; the others are unchanged |
| Auth.SetPassword | backend/app/routers/auth.py:273 | exactly the users with the e-mail get the new hash and `updated_at`; the others are unchanged |
| Auth.CheckCode | backend/app/routers/auth.py:135-150 | the checks of the newest code; a wrong or right code names a stored row |
| Auth.IssueOtp | backend/app/routers/auth.py:45-49 | issuing a code deletes the e-mail's codes of that purpose, then inserts the new one |
| Auth.SendCode | backend/app/routers/auth.py:40-64 | the code step leaves the tables, answer and mail that `IssueCode` says |
| Auth.Register | backend/app/routers/auth.py:85-129 | the method's tables, answer and mail are those of `RegisterOutcome` |
| Auth.ResendVerification | backend/app/routers/auth.py:28-65 | the method's tables, answer and mail are those of `ResendOutcome` |
| Auth.Forgot | backend/app/routers/auth.py:209-245 | the method's tables, answer and mail are those of `ForgotOutcome` |
| Auth.VerifyEmail | backend/app/routers/auth.py:131-168 | the method's tables and answer are those of `VerifyOutcome` |
| Auth.Reset | backend/app/routers/auth.py:247-277 | the method's tables and answer are those of `ResetOutcome` |
| Auth.Login | backend/app/routers/auth.py:170-196 | the method's tables and answer are those of the corrected `LoginOutcome` |
| Auth.Refresh | backend/app/routers/auth.py:198-207 | the method's tables and answer are those of the corrected `RefreshOutcome` |
| Auth.WithOtpConsistent | backend/app/routers/auth.py:45-49 | issuing a code keeps the tables consistent |
| Auth.IssueCodeConsistent | backend/app/routers/auth.py:40-64 | the code step keeps the tables consistent |
| Auth.SignInConsistent | backend/app/routers/auth.py:190-195 | storing a sign-in's refresh token keeps the tables consistent |
| Auth.RegisterConsistent | backend/app/routers/auth.py:85-129 | `register` keeps e-mails and usernames unique and the tables consistent |
| Auth.InsertUserUnique | backend/app/routers/auth.py:90-102 | a user whose e-mail and username no row has can be added under the next id |
| Auth.ResendConsistent | backend/app/routers/auth.py:28-65 | `resend_verification` keeps the tables consistent |
| Auth.ForgotConsistent | backend/app/routers/auth.py:209-245 | `forgot` keeps the tables consistent |
| Auth.UserUpdatesUnique | backend/app/routers/auth.py:157 | marking users verified or changing passwords keeps e-mails and usernames unique |
| Auth.VerifyConsistent | backend/app/routers/auth.py:131-168 | `verify_email` keeps the tables consistent |
| Auth.ResetConsistent | backend/app/routers/auth.py:247-277 | `reset` keeps the tables consistent |
| Auth.LoginConsistent | backend/app/routers/auth.py:170-196 | `login` keeps the tables consistent |
| Auth.RefreshConsistent | backend/app/routers/auth.py:198-207 | `refresh` keeps the tables consistent |
| Auth.OneCodePerPurpose | backend/app/routers/auth.py:45-49 | after a code is issued it is the only row of its e-mail and purpose, the newest one, with no attempts and a ten-minute expiry; other rows are kept |
| Auth.IssuedCodeChecked | backend/app/routers/auth.py:142-150 | a code just issued is judged right exactly when it is the mailed code, for the e-mail in any letter case, until it expires |
| Auth.LatestAfterCount | backend/app/routers/auth.py:151 | counting an attempt keeps which row is the newest |
| Auth.WrongGuessesCount | backend/app/routers/auth.py:145-154 | each wrong guess at a live code costs one attempt, up to eight; the newest code stays the same and no user or token changes |
| Auth.CodeLocked | backend/app/routers/auth.py:145-147 | a live code with eight attempts refuses every submission with 429, the right code included, and changes nothing |
| Auth.EightWrongGuessesLock | backend/app/routers/auth.py:145-154 | eight wrong guesses at a fresh code lock it: the mailed code is refused afterwards |
| Auth.RegisterChecks | backend/app/routers/auth.py:90-129 | `register` checks the field rules, then the lower-cased e-mail, then the username, storing nothing on these errors; otherwise one unverified user with the lower-cased e-mail is added under the next id and a fresh code is mailed to the address as typed |
| Auth.VerifyIssuedCode | backend/app/routers/auth.py:131-168 | submitting a code just issued, within ten minutes and with the e-mail in any case, verifies the owner, uses the code up and signs the owner in |
| Auth.RegisterThenVerify | backend/app/routers/auth.py:85-168 | registering and then submitting the mailed code verifies the new user and signs the user in |
| Auth.VerifySignsIn | backend/app/routers/auth.py:156-168 | a successful verification marks the owner verified, deletes the code used, and returns an accepted access token and a stored refresh token for that user; other users are unchanged |
| Auth.LoginOrder | backend/app/routers/auth.py:180-196 | an unknown identifier and a wrong password give the same 401; an unverified account gives 403 whatever the password; only a verified account with its password signs in; no failure changes a table |
| Auth.LoginFindsAnyCase | backend/app/routers/auth.py:174-178 | corrected: a verified user signs in with the username or e-mail in any letter case and with surrounding spaces, unless an older account folds to the same text |
| Auth.NanduKey | backend/app/routers/auth.py:174 | the identifier `Ñandú` is looked up as `ñandú` |
| Auth.NanduAsciiMiss | backend/app/routers/auth.py:175-177 | SQLite's ASCII `lower()` leaves `Ñandú` unchanged, so the lookup finds no one |
| Auth.LoginAsciiCounterexample | backend/app/routers/auth.py:174-182 | as written, the user `Ñandú` never signs in by username, even typed exactly; the corrected login signs the user in |
| Auth.RefreshAsWrittenReplays | backend/app/routers/auth.py:198-207 | as written, a refresh token refreshed in the second it was made is re-issued identically and still refreshes |
| Auth.RefreshRotates | backend/app/routers/auth.py:201-206 | corrected: a refreshed token never refreshes again, the new one differs from it and refreshes for the same user; a failed refresh changes nothing |
| Auth.ResendCases | backend/app/routers/auth.py:32-65 | nothing for an unknown e-mail; a note and nothing else for a verified account; a fresh code otherwise |
| Auth.ForgotHidesAccounts | backend/app/routers/auth.py:213-245 | `forgot` answers the same for a registered and an unknown e-mail; only a registered e-mail gets a reset code |
| Auth.ResetReplacesPassword | backend/app/routers/auth.py:265-277 | a successful reset sets the new password of the account and changes no other field or user; the code is deleted; the new password then passes the login check |
| Chats.LastN | backend/app/routers/chats.py:140-141 | the last `n` elements, or all when there are fewer, as a suffix of the input |
| Chats.Recency | backend/app/routers/chats.py:57 | one keyed entry per row, with its id and title, keyed by `updated_at` descending |
| Chats.Listing | backend/app/routers/chats.py:85-91 | one answer row per message, in order |
| Chats.Turns | backend/app/routers/chats.py:149-151 | the turns are never more than the history rows |
| Chats.ContextHead | backend/app/routers/chats.py:143-147 | the list starts with the system prompt and has at most three system entries |
| Chats.EnsureDefaultChat | backend/app/routers/chats.py:44-51 | the method's tables and chat id are those of `EnsureDefault` |
| Chats.ListChats | backend/app/routers/chats.py:53-62 | the method's tables and list are those of `ListOutcome` |
| Chats.ChatTitle | backend/app/routers/chats.py:64-65 | the stored title is never empty: the one sent when it is non-empty, `Katara` otherwise |
| Chats.CreateChat | backend/app/routers/chats.py:64-73 | the method's tables and id are those of `CreateOutcome` |
| Chats.RenderMessages | backend/app/routers/chats.py:85-91 | the loop builds one answer row per message, in order |
| Chats.GetMessages | backend/app/routers/chats.py:75-91 | the method's answer is that of `MessagesOutcome` |
| Chats.PostMessage | backend/app/routers/chats.py:132-136 | one message is inserted and the chat's `updated_at` is bumped |
| Chats.BuildContext | backend/app/routers/chats.py:143-154 | the appends and the loop build exactly the context list `Context` describes |
| Chats.SendMessage | backend/app/routers/chats.py:93-167 | the method's tables, answer, written path and model input are those of `SendOutcome` |
| Chats.DefaultMessage | backend/app/routers/chats.py:169-182 | the method's result is that of `DefaultMessageOutcome` |
| Chats.DefaultHistory | backend/app/routers/chats.py:184-197 | the method's tables and answer are those of `DefaultHistoryOutcome` |
| Chats.EnsureDefaultChatFound | backend/app/routers/chats.py:49-51 | after the insert the re-query finds the new chat as the user's only one |
| Chats.EnsureDefaultLowest | backend/app/routers/chats.py:44-51 | the default chat is the user's lowest-id chat; tables change only when the user had none, by one chat `Katara`; asking again gives the same chat and changes nothing |
| Chats.NewestRows | backend/app/routers/chats.py:57 | every listed entry is one of the user's chats |
| Chats.NewestComplete | backend/app/routers/chats.py:57 | every chat of the user is listed |
| Chats.NewestProperties | backend/app/routers/chats.py:57 | the listing holds exactly the user's chats, each once, with titles, most recently updated first |
| Chats.ListChatsContents | backend/app/routers/chats.py:53-62 | `list_chats` never answers an empty list and lists exactly the user's chats of the tables after it, most recently updated first |
| Chats.CreateThenList | backend/app/routers/chats.py:64-73 | a chat just created is listed with the title sent, or `Katara` when the title was left out or sent empty, and listing does not change the tables |
| Chats.ListingAt | backend/app/routers/chats.py:86-90 | answer row `k` shows message `k` of the scan |
| Chats.MessagesShown | backend/app/routers/chats.py:83-91 | every answer row shows one of the chat's messages, in increasing id order |
| Chats.MessagesComplete | backend/app/routers/chats.py:83-91 | every message of the chat has an answer row |
| Chats.GetMessagesContents | backend/app/routers/chats.py:75-91 | 404 exactly when the chat is not the user's; otherwise every message once, in id order, with role, content, time and an image URL exactly when an image path is stored |
| Chats.SendRejections | backend/app/routers/chats.py:104-118 | a chat not owned and an image over 10 MiB are refused and change nothing; every other message is accepted and changes the tables |
| Chats.AnsweredStores | backend/app/routers/chats.py:156-167 | the model's answer is stored as the assistant's message, or nothing when the model raised |
| Chats.SendStores | backend/app/routers/chats.py:132-160 | an accepted message stores the text (or `(imagen)`) with the image path, then the answer, under the next two ids, and bumps the chat; a failing model leaves only the user's message |
| Chats.HistoryEndsWithPost | backend/app/routers/chats.py:132-141 | after a message is stored the history ends with it |
| Chats.TurnsEndWithUser | backend/app/routers/chats.py:149-151 | the turns end with the user's message just stored |
| Chats.TurnsRoles | backend/app/routers/chats.py:150 | every turn has the role `user` or `assistant` |
| Chats.ContextShape | backend/app/routers/chats.py:143-154 | the system prompt first; the analysis exactly when there is one; the location exactly when both coordinates came; then the turns; the default question exactly for an image without text |
| Chats.AskedShape | backend/app/routers/chats.py:139-154 | the list built after storing the user's message has that shape, with at most the twenty newest turns |
| Chats.SendContext | backend/app/routers/chats.py:139-156 | an accepted message asks the model with a list of that shape |
| Chats.UploadPathNames | backend/app/routers/chats.py:117-118 | the stored image path ends in the written file's name |
| Chats.SendImageUrl | backend/app/routers/chats.py:163-167 | a successful message with an image answers with the public URL of the file written, and `get_messages` then shows the message with the same URL |
| Chats.DefaultMessageOwned | backend/app/routers/chats.py:169-182 | the default endpoints never answer 404: the default chat belongs to the user |
| Chats.AddChatConsistent | backend/app/routers/chats.py:49 | adding a chat keeps the tables consistent |
| Chats.PostConsistent | backend/app/routers/chats.py:132-136 | storing a message keeps the tables consistent |
| Chats.EnsureDefaultConsistent | backend/app/routers/chats.py:44-51 | `_ensure_default_chat` keeps the tables consistent |
| Chats.ListConsistent | backend/app/routers/chats.py:53-62 | `list_chats` keeps the tables consistent |
| Chats.CreateConsistent | backend/app/routers/chats.py:64-73 | `create_chat` keeps the tables consistent |
| Chats.SendConsistent | backend/app/routers/chats.py:93-167 | `send_message` keeps the tables consistent |
| Chats.DefaultMessageConsistent | backend/app/routers/chats.py:169-182 | `default_message` keeps the tables consistent |
| Users.Me | backend/app/routers/users.py:24-38 | the method's answer is that of `MeOutcome` |
| Http.FormField | backend/app/routers/users.py:42-43 | a form field reaches the handler exactly when it was sent and not empty |
| Users.UpdateMe | backend/app/routers/users.py:40-80 | the method's tables, answer and written path are those of `UpdateOutcome` |
| Users.ChangePassword | backend/app/routers/users.py:86-101 | the method's tables and answer are those of `ChangeOutcome` |
| Users.MeContents | backend/app/routers/users.py:28-38 | 404 exactly for a missing user; otherwise the stored profile, with an avatar URL exactly when an avatar path is stored |
| Users.CombinedEqualsSeparate | backend/app/routers/users.py:68-76 | the one combined `UPDATE` and the three separate ones leave the same row |
| Users.UpdateGuards | backend/app/routers/users.py:50-61 | a username held by another user is refused first, an avatar over 8 MiB next; these are the only refusals, and a refusal changes nothing and writes no file |
| Users.UpdateFields | backend/app/routers/users.py:62-76 | an accepted update changes only the user's row: the username and bio that came, the avatar path when an avatar came, and `updated_at` exactly when one did |
| Users.AvatarPathBasename | backend/app/routers/users.py:62-63 | the stored avatar path ends in the avatar's file name |
| Users.AvatarShown | backend/app/routers/users.py:32-34 | the avatar stored by an update is the one `me` shows: its URL names the file written |
| Users.UpdateConsistent | backend/app/routers/users.py:50-80 | an update keeps usernames unique and the tables consistent |
| Users.PepperCancels | backend/app/routers/users.py:94-97 | the same pepper appended to two passwords keeps them apart |
| Users.ChangeGuards | backend/app/routers/users.py:82-96 | a new password of the wrong length, then a missing user, then a wrong current password are refused, and a refusal changes nothing |
| Users.ChangeTakesEffect | backend/app/routers/users.py:97-98 | afterwards exactly the new password matches the stored hash, and only the hash and `updated_at` changed |
| Users.ChangeConsistent | backend/app/routers/users.py:86-101 | `change_password` keeps the tables consistent |
| Sorting.Insert | backend/app/routers/points.py:50 | inserting one pair into a list makes it one longer |
| Sorting.SortByKey | backend/app/routers/points.py:50 | the sort keeps the length |
| Sorting.InsertProperties | backend/app/routers/points.py:50 | inserting into a sorted list keeps it sorted and adds exactly the one element |
| Sorting.InsertWithKey | backend/app/routers/points.py:50 | insertion adds the element in front of the others of its key and leaves the other keys' elements alone |
| Sorting.SortProperties | backend/app/routers/points.py:50 | the result is sorted by key and a permutation of the input |
| Sorting.SortStable | backend/app/routers/points.py:50 | the elements of each key keep their input order |
| Sorting.SortMember | backend/app/routers/points.py:50 | every element of the result is one of the input |
| Sorting.SortHolds | backend/app/routers/points.py:50 | every element of the input is in the result |
| Sorting.InsertPos | backend/app/routers/points.py:50 | the insertion position lies within the list |
| Sorting.InsertShape | backend/app/routers/points.py:50 | insertion puts the element after every smaller key and before the rest |
| Sorting.SpliceAt | backend/app/routers/points.py:50 | the elements of a splice, by position |
| Sorting.SortTies | backend/app/routers/points.py:50 | two elements of equal key leave the sort in their input order |
| Sorting.Values | backend/app/routers/points.py:51 | the second components, one per pair, in order |
| Sorting.Take | backend/app/routers/points.py:51 | Python's `[:k]`, negative `k` counting from the end |
| Sorting.TakeClosest | backend/app/routers/points.py:50-51 | an element left out of the first `k` of the sorted list has a key no smaller than every element kept |
| Url.Hex | backend/app/routers/points.py:43 | one upper-case hexadecimal digit |
| Url.Escape | backend/app/routers/points.py:43 | a byte escape is `%` and two characters |
| Url.Utf8 | backend/app/routers/points.py:43 | the UTF-8 encoding is one to four bytes |
| Url.EscapeAll | backend/app/routers/points.py:43 | three characters per byte |
| Url.HexRoundTrip | backend/app/routers/points.py:43 | each hexadecimal digit reads back as its value |
| Url.EscapeRoundTrip | backend/app/routers/points.py:43 | each escape reads back as its byte |
| Url.SixBits | backend/app/routers/points.py:43 | the split into the low six bits |
| Url.DivTwice | backend/app/routers/points.py:43 | repeated division by 64 |
| Url.Utf8RoundTrip | backend/app/routers/points.py:43 | the UTF-8 encoding reads back as the character |
| Url.EscapeAllChars | backend/app/routers/points.py:43 | escapes consist of `%` and hexadecimal digits |
| Url.QuoteSafe | backend/app/routers/points.py:43-44 | the quoted address holds only unreserved characters and `%`, so it can stand in the query |
| Url.QuoteUnreserved | backend/app/routers/points.py:43 | unreserved text is not changed |
| Url.QuoteCons | backend/app/routers/points.py:43 | quoting reads one character at a time |
| Url.QuoteAppend | backend/app/routers/points.py:43 | quoting distributes over concatenation |
| Points.Listing | backend/app/routers/points.py:14-16 | one answer row per point, in order |
| Points.Scored | backend/app/routers/points.py:34-49 | one scored item per row, in row order |
| Points.Nearest | backend/app/routers/points.py:27-51 | for the query's `k` (10 when absent, `DefaultK`), the scoring loop, sort and slice give exactly `NearestOutcome` |
| Points.GeoRunStaysFailed | backend/app/routers/points.py:63-64 | once a lookup raised, the rest of the rows does not matter |
| Points.GeocodeMissing | backend/app/routers/points.py:53-70 | the method's tables and answer are those of `GeocodeOutcome` |
| Points.ListPointsContents | backend/app/routers/points.py:14-16 | `list_points` shows every stored point once, in increasing id order |
| Points.ItemDistance | backend/app/routers/points.py:36-41 | a point without coordinates gets the 1e9 sentinel and no `distance_km`; a located point gets its rounded distance while distances stay below 1e8 |
| Points.ItemUrls | backend/app/routers/points.py:43-48 | `directions_url` is the OpenStreetMap route from the position to the point when it has coordinates, else the search URL; the two differ exactly for located points |
| Points.NearLength | backend/app/routers/points.py:51 | the number of items follows Python's slice rule, negative `k` included |
| Points.NearRankedAt | backend/app/routers/points.py:50-51 | item `i` of the answer is the item of entry `i` of the ranking, whose key is that item's distance |
| Points.RankedEntry | backend/app/routers/points.py:49-50 | every ranked entry is the score of one of the rows |
| Points.NearOrdered | backend/app/routers/points.py:50-51 | every item is the item of a row, nearest first |
| Points.NearClosest | backend/app/routers/points.py:50-51 | no row left out is nearer than an item returned |
| Points.NearTies | backend/app/routers/points.py:50 | items at the same distance keep the row order |
| Points.NearLocatedFirst | backend/app/routers/points.py:36-39 | every located point ranks before every point without coordinates |
| Points.NearestRanking | backend/app/routers/points.py:27-51 | over the stored points: the slice rule for `k`, nearest first, ties in id order, no left-out point nearer than one returned |
| Points.GeoRunUpTo | backend/app/routers/points.py:61-67 | the loop fails exactly when a lookup raises; otherwise it fills exactly the points whose lookup gave both coordinates and counts them |
| Points.GeocodeGuards | backend/app/routers/points.py:56-59 | a wrong admin key is refused first, a disabled service next; neither touches the tables |
| Points.GeocodeEffect | backend/app/routers/points.py:60-70 | past the guards, the request stores nothing exactly when a lookup raises; otherwise it fills exactly the fillable points with the request time and answers their number |
| Points.GeocodeWithoutKey | backend/app/services/arcgis.py:5-7 | with geocoding on but no key every lookup answers nothing, so the tables are unchanged and the answer reports 0 updated |
| Points.GeocodeConsistent | backend/app/routers/points.py:53-70 | `geocode_missing` keeps the tables consistent |
| Points.MapConfigAnswer | backend/app/routers/points.py:73-81 | the answer names the `arcgis` provider, the basemap style URL and the tile URL; its key is "" when none is configured, otherwise the key's first six characters and `...` |
| Points.MapConfigHidesSettings | backend/app/routers/points.py:73-81 | two servers whose keys share their first six characters give the same answer |
| Points.MaskShape | backend/app/routers/points.py:78 | no key gives ""; a key gives its first six characters (all of a shorter key) and `...` |
| Points.MaskHidesRest | backend/app/routers/points.py:78 | nothing past the sixth character of the key reaches the client |
| Shell.Ids | android/app/src/main/java/online/wiccagirl/kataralm/MainActivity.kt:79-93 | one entry per value delivered to a callback, naming that callback, in order |
| Shell.Activity.constructor | android/app/src/main/java/online/wiccagirl/kataralm/MainActivity.kt:48-52 | both callback slots start empty, with nothing delivered |
| Shell.Activity.OpenExternal | android/app/src/main/java/online/wiccagirl/kataralm/MainActivity.kt:325-331 | the link is launched when an app handles it, otherwise a toast says there is none |
| Shell.Activity.ShouldOverrideUrlLoading | android/app/src/main/java/online/wiccagirl/kataralm/MainActivity.kt:184-205 | the answer is the routing rule, and the link is opened externally exactly when it is true |
| Shell.Activity.CancelWaitingFile | android/app/src/main/java/online/wiccagirl/kataralm/MainActivity.kt:232 | the waiting file callback, if any, receives null and leaves the slot |
| Shell.Activity.OnShowFileChooser | android/app/src/main/java/online/wiccagirl/kataralm/MainActivity.kt:226-265 | a waiting callback first receives null; the new callback takes the slot; a launch failure empties the slot, toasts and returns false |
| Shell.Activity.OnChooserResult | android/app/src/main/java/online/wiccagirl/kataralm/MainActivity.kt:54-80 | the waiting callback is taken out of the slot and receives the chosen URIs, and the camera URI is cleared; without a waiting callback nothing changes |
| Shell.Activity.OnGeolocationPrompt | android/app/src/main/java/online/wiccagirl/kataralm/MainActivity.kt:267-285 | with permission held the callback is answered at once with allow and never stored; otherwise it waits in the slot |
| Shell.Activity.OnLocationPermissionResult | android/app/src/main/java/online/wiccagirl/kataralm/MainActivity.kt:82-97 | the waiting callback is taken out of the slot and answered with whether fine or coarse location was granted; a refusal is toasted |
| Shell.Activity.OnProgressChanged | android/app/src/main/java/online/wiccagirl/kataralm/MainActivity.kt:217-224 | from 80 a delayed hide is posted, below 80 the overlay is shown |
| Shell.Activity.RunPostedHide | android/app/src/main/java/online/wiccagirl/kataralm/MainActivity.kt:220 | a posted hide runs and hides the overlay |
| Shell.Activity.WebViewNavigated | android/app/src/main/java/online/wiccagirl/kataralm/MainActivity.kt:195-196 | a page the WebView loads itself adds one history entry and changes nothing else |
| Shell.Activity.HandleBack | android/app/src/main/java/online/wiccagirl/kataralm/MainActivity.kt:123-131 | back goes one page back when the WebView can, otherwise the activity finishes |
| Shell.RouteRule | android/app/src/main/java/online/wiccagirl/kataralm/MainActivity.kt:184-205 | the WebView loads a link itself exactly when it has no scheme, or it is on the app host, does not mention `katara.pages.dev`, and is http or https in any case |
| Shell.ExternalSiteLeaves | android/app/src/main/java/online/wiccagirl/kataralm/MainActivity.kt:190-193 | a link mentioning the external site leaves the app whatever its host |
| Shell.AppPagesStay | android/app/src/main/java/online/wiccagirl/kataralm/MainActivity.kt:195-196 | the app's http and https pages stay in the WebView whatever the case of the scheme |
| Shell.OtherSchemesLeave | android/app/src/main/java/online/wiccagirl/kataralm/MainActivity.kt:197-204 | `mailto:`, `tel:`, `geo:` and other schemes leave the app even on its own host |
| Shell.ChosenCases | android/app/src/main/java/online/wiccagirl/kataralm/MainActivity.kt:62-76 | a cancelled result gives null; a missing URI gives the camera photo or null; otherwise the clip items in order when there are any, else the single URI; a delivered array is never empty |
| Shell.IdsSnoc | android/app/src/main/java/online/wiccagirl/kataralm/MainActivity.kt:79-93 | delivering one more value appends its callback |
| Shell.OneShotDeliver | android/app/src/main/java/online/wiccagirl/kataralm/MainActivity.kt:57-60 | handing the waiting callback its value and emptying the slot keeps the slot one-shot |
| Shell.OneShotDraw | android/app/src/main/java/online/wiccagirl/kataralm/MainActivity.kt:271-277 | a new callback keeps the slot one-shot, whether it waits or is answered at once |
| Shell.OneShotSkip | android/app/src/main/java/online/wiccagirl/kataralm/MainActivity.kt:233 | callbacks of the other slot do not disturb a slot |
| Shell.DeliveredOnce | android/app/src/main/java/online/wiccagirl/kataralm/MainActivity.kt:57-60 | no callback ever receives two values |
| Text.Lower | android/app/src/main/assets/webapp/js/app.js:817 | lower-casing keeps the length |
| Text.LowerAt | android/app/src/main/assets/webapp/js/app.js:817 | lower-casing maps each character on its own |
| Text.LowerIdempotent | android/app/src/main/assets/webapp/js/app.js:890 | lower-casing twice changes nothing more |
| Text.LowerAppend | android/app/src/main/assets/webapp/js/app.js:892 | lower-casing distributes over concatenation |
| Text.LowerAscii | backend/app/routers/auth.py:176 | SQLite's `lower()` maps only A-Z and keeps the length |
| Text.TrimStartProperties | webapp/js/config.js:21 | exactly the leading whitespace is dropped |
| Text.TrimEndProperties | webapp/js/config.js:21 | exactly the trailing whitespace is dropped |
| Text.TrimProperties | backend/app/settings.py:57 | a trimmed text is a part of the input with no whitespace at either end |
| Text.TrimIdempotent | backend/app/settings.py:57 | trimming twice changes nothing more |
| Text.TrimOfTrimmed | backend/app/settings.py:57 | a text with no outer whitespace trims to itself |
| Text.ContainsIff | android/app/src/main/assets/webapp/js/app.js:893 | `includes` holds exactly when the query occurs somewhere in the text |
| Text.ContainsEmpty | android/app/src/main/assets/webapp/js/app.js:893 | every text contains the empty query |
| Text.Split | backend/app/settings.py:57 | a split has one more piece than separators, none holding the separator |
| Text.JoinSplit | backend/app/settings.py:57 | joining the pieces of a split gives the text back |
| Text.SplitJoin | backend/app/settings.py:57 | splitting a join of separator-free parts gives the parts back |
| Text.SplitAfter | backend/app/settings.py:57 | splitting `a,b` with no separator in `a` gives `a` and then the pieces of `b` |
| Text.SplitNoSep | backend/app/settings.py:57 | a text without the separator splits into itself |
| Text.Basename | backend/app/routers/chats.py:89 | `os.path.basename` holds no `/` and ends the path |
| Text.BasenameOfJoin | backend/app/routers/users.py:63 | a directory joined with a slash-free name has that name as basename |
| Text.BasenameAfterSlash | backend/app/routers/users.py:63 | a directory part ending in `/` leaves the rest as basename |
| Text.BasenameOfPathJoin | backend/app/routers/chats.py:118 | `os.path.join(dir, name)` with a slash-free name has `name` as basename |
| Decimal.NatToString | backend/app/utils/tokens.py:17 | a rendering is a non-empty run of digits |
| Decimal.ParseNat | backend/app/utils/otp.py:6 | parsing succeeds exactly on a non-empty run of digits |
| Decimal.NatRoundTrip | backend/app/utils/tokens.py:17 | parsing a rendered number gives it back |
| Decimal.NatToStringInjective | backend/app/utils/tokens.py:17 | distinct numbers render differently |
| Decimal.ZeroPadProperties | backend/app/utils/otp.py:6 | `f"{n:06d}"` for `n < 10^6` is exactly six digits and parses back to `n` |
| Decimal.IntToString | backend/app/utils/tokens.py:17 | `str(i)` is an optional minus sign and digits |
| Decimal.ParseGrouped | backend/app/settings.py:68-69 | `int()`'s digits: it succeeds exactly on digits with single underscores between them, and its value is that of the digits alone |
| Decimal.GroupedCases | backend/app/settings.py:68-69 | `3_0` reads as 30; a leading, trailing or doubled underscore is refused |
| Decimal.ParseIntGrouped | backend/app/settings.py:68-69 | `int("3_0") == 30` and `int("3__0")` raises |
| Decimal.IntRoundTrip | backend/app/utils/tokens.py:54 | `int(str(i)) == i` |
| Decimal.IntToStringNoSlash | backend/app/routers/users.py:62 | a rendered integer holds no path separator |

## Left out

- Network clients: the chat and vision models (`groq.py`), the geocoder (`arcgis.py`, `geocodeArcGIS`) and the HTTP post of `send_email` are oracle parameters. Their failures are modelled as a raise or a None answer.
- Floating point: `_haversine_km`, `round(d, 2)` and the text of a float are the parameters `Points.Numerics`. Distances are reals, and the 1e8 bound is a hypothesis of `Points.ItemDistance`.
- Cryptography: JWT signing, SHA-256 and bcrypt are injective constructors. The bcrypt 72-byte input limit is not modelled. Neither is `secrets.randbelow`, whose draw is a parameter.
- Time is whole seconds. ISO-8601 text is not modelled, so `expires_at < now` compares integers.
- Request validation: `EmailStr` normalisation is left out. The e-mail is taken as typed.
- Http.FormField: FastAPI hands an optional form field sent as "" to the handler as missing, so the field's declared default applies. `update_me` therefore cannot clear a bio, and its `if username:` acts like `is not None`, because an empty username never reaches the handler. `create_chat` stores `Katara` for an empty title (`Chats.ChatTitle`).
- File writes of uploads are recorded as the path written, and `os.makedirs` is left out.
- The year in the mail template and the Jinja2 rendering are left out. The template is its fields (`Mailer.Html`).
- `list_chats` orders by `updated_at` only. Rows with the same time are taken in id order, which SQLite does not promise.
- `nearest` and `geocode_missing` select without `ORDER BY`, and the rows are taken in id order.
- Text.Lower: JavaScript `toLowerCase`, Python `lower` and Kotlin `lowercase(Locale.US)` are modelled on ASCII and Latin-1 only.
- Concurrency: parallel `apiFetch` refreshes, interleaved SQLite writers and async scheduling are left out. Every flow is sequential.
- Client page builders, Leaflet markers, `toast`, `mdToHtml`, `showImageModal`, `fmtTime`, the random greeting and `sleep` are left out: they are UI or timing.
- `ensureMe` and the rendering after the guard are left out; only the guard decision (`AppView.Render`) is modelled.
- Android platform glue is left out:
  - `onCreate` insets, WebView settings, swipe-to-refresh and `onPageFinished`;
  - `startDownload`, `saveState` and the camera temp file with its exceptions.
  - `createCameraIntent` is the `photo` parameter of `Shell.Activity.OnShowFileChooser`.
- Shell.Activity.OnGeolocationPrompt: a callback still waiting when a new prompt arrives is overwritten and never answered, as in the source.
- Shell.Activity.ShouldOverrideUrlLoading: `Uri` parsing is left out. A link is its already-parsed scheme, host and text.
- Shell.Activity.OnChooserResult: when `data.data` is null the result's clip items are ignored, as in the source.
- Settings.Load: Python's `int()` also accepts decimal digits from other scripts, such as the Arabic-Indic `٣٠`. The model reads only ASCII digits (`Decimal.ParseInt`), so such a token lifetime fails the load in the model but loads in the source. The same holds for a token subject read by `Tokens.VerifyAccess` and `Tokens.VerifyRefresh`.
- AppView.CacheKey: `.slice(0, 160)` counts UTF-16 code units, but the model cuts 160 characters (code points). The key of an address with characters outside the Basic Multilingual Plane, such as emoji, can differ. A string split inside a surrogate pair has no `char` value in the model.
- Ui.El: three DOM details are not modelled. `appendChild` of a node already in the tree moves it. `setAttribute` lower-cases the names of attributes on HTML elements. Children appended after `html` follow the nodes parsed from that markup, which the model keeps as text.
- Chats.SendMessage: the `lat` and `lon` form fields are `Optional[float]`, so FastAPI answers 422 for non-numeric text before the handler runs. The model starts after that check: it takes each coordinate as the text that the parsed float renders to in the prompt. The same holds for `Chats.DefaultMessage`.
- AppState.SendChatMessage: the model ends when the chat's message cache is dropped (app.js:587). The `await drawMessages()` that follows (app.js:588) redraws the chat and reloads its messages into the cache through `loadMessages`. That reload is `AppState.LoadMessages` called on its own, not part of this method.
- Shell.Activity.WebViewNavigated: the WebView's own history is reduced to its depth. Any page the WebView loads itself adds one entry.
- `backend/app/routers/contact.py`, `seed.py`, `server.py`, `main.py`, `legal.py` and the connection pragmas of `db.py` are wiring and are not part of this model.

## Findings

| source | as written | input that shows it | evidently intended | confidence | as-written member | corrected member |
|---|---|---|---|---|---|---|
| backend/app/routers/auth.py:174-178 | the identifier is lower-cased by Python, and the stored e-mail and username by SQLite's `lower()`, which folds only ASCII | a verified user named `Ñandú` signs in with identifier `Ñandú`: Python gives `ñandú`, SQLite keeps `Ñandú`, and the answer is 401 | both sides folded the same way, so a user can sign in with their own username | not executed | Auth.LoginAsWritten, Auth.LoginAsciiCounterexample | Auth.LoginOutcome, Auth.LoginFindsAnyCase |
| backend/app/routers/auth.py:198-207 | the new refresh token carries only `sub`, `iss`, `exp` and `typ`, with `exp` in whole seconds | a refresh in the same second the token was made re-issues the identical token. It is revoked and stored again, so the presented token still refreshes | every rotation yields a new token, so a refreshed token cannot be used again | not executed | Auth.RefreshAsWritten, Auth.RefreshAsWrittenReplays | Auth.RefreshOutcome, Auth.RefreshRotates |
