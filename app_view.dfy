/** The pure view logic of the client application (`app.js`): hash routing, the
    authentication redirect guard, the page table, the geocode cache key, HTML
    escaping and the collection-point search filter. */
module AppView {
  import opened Wrappers
  import Text

  // ---------------------------------------------------------------- routing

  /** `route()`: `location.hash` with a leading `#` or `#/` replaced by `/`; `""` and `"/"` give `"/"`. */
  function Route(hash: string): (r: string)
    ensures r != ""
  {
    var replaced :=
      if Text.StartsWith(hash, "#/") then "/" + hash[2..]
      else if Text.StartsWith(hash, "#") then "/" + hash[1..]
      else hash;
    if replaced == "" || replaced == "/" then "/" else replaced
  }

  /** A position where `s` and `p` differ rules out `p` as a prefix of `s`. */
  lemma NotPrefix(s: string, p: string, i: nat)
    requires i < |p| && i < |s| && s[i] != p[i]
    ensures !Text.StartsWith(s, p)
  {
  }

  /** The route table of the hash forms the client produces. */
  lemma RouteForms(x: string)
    ensures Route("") == "/" && Route("#") == "/" && Route("#/") == "/"
    ensures x != "" && x[0] != '/' ==> Route("#/" + x) == "/" + x && Route("#" + x) == "/" + x
  {
    assert "#/"[..2] == "#/" && "#/"[2..] == "" && "#"[1..] == "";
    if x != "" && x[0] != '/' {
      assert ("#/" + x)[..2] == "#/" && ("#/" + x)[2..] == x;
      assert ("#" + x)[1] == x[0];
      NotPrefix("#" + x, "#/", 1);
      assert ("#" + x)[..1] == "#" && ("#" + x)[1..] == x;
    }
  }

  /** A routed hash always starts with a slash when the hash starts with `#`. */
  lemma RouteStartsWithSlash(hash: string)
    requires hash == "" || hash[0] == '#'
    ensures Route(hash)[0] == '/'
  {
  }

  /** What `render()` does for a route and the signed-in flag. */
  datatype RenderAction = Redirect(hash: string) | ShowAuth | ShowShell(path: string)

  function Render(hash: string, authed: bool): (a: RenderAction)
    ensures a.Redirect? <==> (!authed && Route(hash) != "/auth") || (authed && Route(hash) == "/auth")
    ensures a.Redirect? ==> a.hash == (if authed then "#/" else "#/auth")
    ensures a == ShowAuth <==> !authed && Route(hash) == "/auth"
    ensures a.ShowShell? ==> authed && a.path == Route(hash) && a.path != "/auth"
  {
    var r := Route(hash);
    if !authed && r != "/auth" then Redirect("#/auth")
    else if authed && r == "/auth" then Redirect("#/")
    else if r == "/auth" then ShowAuth
    else ShowShell(r)
  }

  /** The guard settles in one step: rendering again at the hash a redirect set never redirects,
      and a signed-out client lands on the sign-in view. */
  lemma {:induction false} RedirectSettles(hash: string, authed: bool)
    requires Render(hash, authed).Redirect?
    ensures !Render(Render(hash, authed).hash, authed).Redirect?
    ensures !authed ==> Render(Render(hash, authed).hash, authed) == ShowAuth
    ensures authed ==> Render(Render(hash, authed).hash, authed) == ShowShell("/")
  {
    RouteForms("auth");
  }

  // ------------------------------------------------------------- page table

  datatype PageKind = Dashboard | ChatPage | Recognition | PointsPage | Profile | SettingsPage | About | NotFound

  /** `Page(path)`. */
  function Page(path: string): PageKind {
    if path == "/" || path == "/dashboard" then Dashboard
    else if path == "/chat" then ChatPage
    else if path == "/recognition" then Recognition
    else if path == "/points" then PointsPage
    else if path == "/profile" then Profile
    else if path == "/settings" then SettingsPage
    else if path == "/about" then About
    else NotFound
  }

  /** The path each page is linked under. */
  function PathOf(k: PageKind): string
    requires k != NotFound
  {
    match k
    case Dashboard => "/"
    case ChatPage => "/chat"
    case Recognition => "/recognition"
    case PointsPage => "/points"
    case Profile => "/profile"
    case SettingsPage => "/settings"
    case About => "/about"
  }

  const KnownPaths: set<string> := {"/", "/dashboard", "/chat", "/recognition", "/points", "/profile", "/settings", "/about"}

  /** Each page is reached from its own path, `/dashboard` is the dashboard too,
      and exactly the unlisted paths give the not-found card. */
  lemma PageTable(path: string, k: PageKind)
    ensures k != NotFound ==> Page(PathOf(k)) == k
    ensures Page("/dashboard") == Dashboard
    ensures Page(path) == NotFound <==> path !in KnownPaths
  {
  }

  // -------------------------------------------------------------- cache key

  /** `s.replace(/\s+/g, " ")`: every maximal whitespace run becomes one space. */
  function Collapse(s: string): string {
    CollapseFrom(s, false)
  }

  function CollapseFrom(s: string, afterSpace: bool): (r: string)
    ensures |r| <= |s|
    ensures forall i :: 0 <= i < |r| ==> (Text.IsJsSpace(r[i]) ==> r[i] == ' ')
    ensures r != [] && r[0] == ' ' ==> !afterSpace
    ensures forall i :: 0 <= i < |r| - 1 ==> !(r[i] == ' ' && r[i + 1] == ' ')
    decreases |s|
  {
    if s == [] then []
    else if Text.IsJsSpace(s[0]) then
      if afterSpace then CollapseFrom(s[1..], true) else " " + CollapseFrom(s[1..], true)
    else [s[0]] + CollapseFrom(s[1..], false)
  }

  /** `cacheKey(addr)`: `"addr_"` and the lower-cased, trimmed, collapsed address cut to 160 characters. */
  function CacheKey(addr: Option<string>): string {
    var a := if addr.Some? then addr.value else "";
    var t := Collapse(Text.Trim(Text.Js, Text.Lower(a)));
    "addr_" + (if |t| <= 160 then t else t[..160])
  }

  /** A normalised address: no upper case, no whitespace but single spaces, no leading space. */
  predicate NormalForm(t: string) {
    && (forall i :: 0 <= i < |t| ==> !Text.IsUpper(t[i]) && (Text.IsJsSpace(t[i]) ==> t[i] == ' '))
    && (forall i :: 0 <= i < |t| - 1 ==> !(t[i] == ' ' && t[i + 1] == ' '))
    && (t != [] ==> t[0] != ' ')
  }

  lemma {:induction false} CollapseKeepsLower(s: string, afterSpace: bool)
    requires forall i :: 0 <= i < |s| ==> !Text.IsUpper(s[i])
    ensures forall i :: 0 <= i < |CollapseFrom(s, afterSpace)| ==> !Text.IsUpper(CollapseFrom(s, afterSpace)[i])
    decreases |s|
  {
    if s != [] {
      CollapseKeepsLower(s[1..], true);
      CollapseKeepsLower(s[1..], false);
    }
  }

  /** Lower-casing then trimming leaves no upper-case letter and no leading space. */
  lemma LowerTrimmed(a: string)
    ensures var tr := Text.Trim(Text.Js, Text.Lower(a));
      (forall i :: 0 <= i < |tr| ==> !Text.IsUpper(tr[i])) && (tr != [] ==> !Text.IsJsSpace(tr[0]))
  {
    var low := Text.Lower(a);
    var ts := Text.TrimStart(Text.Js, low);
    var tr := Text.TrimEnd(Text.Js, ts);
    Text.TrimStartProperties(Text.Js, low);
    Text.TrimEndProperties(Text.Js, ts);
    Text.LowerAt(a);
    forall i | 0 <= i < |tr| ensures !Text.IsUpper(tr[i]) {
      assert tr[i] == ts[i] == low[|low| - |ts| + i];
    }
    if tr != [] {
      assert tr[0] == ts[0];
    }
  }

  /** Collapsing a lower-case text without a leading space gives a normal form, and so does any prefix of it. */
  lemma CollapsedNormal(tr: string, n: nat)
    requires forall i :: 0 <= i < |tr| ==> !Text.IsUpper(tr[i])
    requires tr != [] ==> !Text.IsJsSpace(tr[0])
    ensures var t := Collapse(tr); NormalForm(if |t| <= n then t else t[..n])
  {
    CollapseKeepsLower(tr, false);
    var t := Collapse(tr);
    if tr != [] {
      assert t[0] == tr[0];
    }
  }

  /** The key is `"addr_"` followed by at most 160 characters in normal form. */
  lemma CacheKeyShape(addr: string)
    ensures var k := CacheKey(Some(addr));
      Text.StartsWith(k, "addr_") && |k| <= 165 && NormalForm(k[5..])
  {
    LowerTrimmed(addr);
    var tr := Text.Trim(Text.Js, Text.Lower(addr));
    CollapsedNormal(tr, 160);
    var t := Collapse(tr);
    var cut := if |t| <= 160 then t else t[..160];
    assert CacheKey(Some(addr)) == "addr_" + cut;
    assert ("addr_" + cut)[5..] == cut;
  }

  /** Case never matters, so addresses that differ only in letter case share a cache
      entry; a missing address keys like an empty one. */
  lemma CacheKeyIgnoresCase(addr: string)
    ensures CacheKey(Some(Text.Lower(addr))) == CacheKey(Some(addr))
    ensures CacheKey(None) == CacheKey(Some("")) == "addr_"
  {
    Text.LowerIdempotent(addr);
    assert Text.Lower("") == "";
  }

  /** A text already in normal form collapses to itself. */
  lemma {:induction false} CollapseOfNormal(s: string, afterSpace: bool)
    requires forall i :: 0 <= i < |s| ==> (Text.IsJsSpace(s[i]) ==> s[i] == ' ')
    requires forall i :: 0 <= i < |s| - 1 ==> !(s[i] == ' ' && s[i + 1] == ' ')
    requires afterSpace && s != [] ==> s[0] != ' '
    ensures CollapseFrom(s, afterSpace) == s
    decreases |s|
  {
    if s != [] {
      if |s| > 1 {
        assert s[0] == ' ' ==> s[1] != ' ';
      }
      CollapseOfNormal(s[1..], Text.IsJsSpace(s[0]));
      assert s == [s[0]] + s[1..];
    }
  }

  /** After a space, a further run of whitespace collapses to nothing. */
  lemma {:induction false} CollapseSkipsRun(w: string, y: string)
    requires forall i :: 0 <= i < |w| ==> Text.IsJsSpace(w[i])
    ensures CollapseFrom(w + y, true) == CollapseFrom(y, true)
    decreases |w|
  {
    if w != [] {
      assert (w + y)[0] == w[0] && (w + y)[1..] == w[1..] + y;
      assert Text.IsJsSpace(w[0]);
      assert CollapseFrom(w + y, true) == CollapseFrom(w[1..] + y, true);
      CollapseSkipsRun(w[1..], y);
    } else {
      assert w + y == y;
    }
  }

  /** Any non-empty run of whitespace collapses like one plain space. */
  lemma {:induction false} CollapseRun(x: string, w: string, y: string, afterSpace: bool)
    requires w != [] && forall i :: 0 <= i < |w| ==> Text.IsJsSpace(w[i])
    ensures CollapseFrom(x + w + y, afterSpace) == CollapseFrom(x + " " + y, afterSpace)
    decreases |x|
  {
    if x == [] {
      assert x + w + y == [w[0]] + (w[1..] + y) && x + " " + y == [' '] + y;
      CollapseSkipsRun(w[1..], y);
    } else {
      assert (x + w + y)[0] == x[0] && (x + w + y)[1..] == x[1..] + w + y;
      assert (x + " " + y)[0] == x[0] && (x + " " + y)[1..] == x[1..] + " " + y;
      CollapseRun(x[1..], w, y, Text.IsJsSpace(x[0]));
    }
  }

  /** Lower-casing keeps whitespace and every character that is not an upper-case letter. */
  lemma LowerKeeps(s: string)
    requires forall i :: 0 <= i < |s| ==> !Text.IsUpper(s[i])
    ensures Text.Lower(s) == s
  {
    Text.LowerAt(s);
  }

  /** An address already in normal form, with no trailing space and at most 160 characters,
      keys as `"addr_"` followed by the address itself. */
  lemma CacheKeyOfNormal(t: string)
    requires NormalForm(t) && (t != [] ==> t[|t| - 1] != ' ') && |t| <= 160
    ensures CacheKey(Some(t)) == "addr_" + t
  {
    LowerKeeps(t);
    Text.TrimOfTrimmed(Text.Js, t);
    CollapseOfNormal(t, false);
  }

  /** A whitespace character and the letter-case of the rest. */
  lemma LowerSpace(c: char)
    requires Text.IsJsSpace(c)
    ensures Text.Lower([c]) == [c]
  {
  }

  /** Trimming a text with one more whitespace character at its end. */
  lemma {:induction false} TrimStartSnoc(s: string, c: char)
    requires Text.IsJsSpace(c)
    ensures Text.TrimStart(Text.Js, s + [c]) ==
      if Text.TrimStart(Text.Js, s) == [] then [] else Text.TrimStart(Text.Js, s) + [c]
    decreases |s|
  {
    if s == [] {
      assert Text.TrimStart(Text.Js, [c]) == Text.TrimStart(Text.Js, []);
    } else {
      assert (s + [c])[0] == s[0] && (s + [c])[1..] == s[1..] + [c];
      if Text.IsJsSpace(s[0]) {
        TrimStartSnoc(s[1..], c);
      }
    }
  }

  /** Whitespace before or after the address does not change its key. */
  lemma CacheKeyOuterSpace(a: string, c: char)
    requires Text.IsJsSpace(c)
    ensures CacheKey(Some([c] + a)) == CacheKey(Some(a))
    ensures CacheKey(Some(a + [c])) == CacheKey(Some(a))
  {
    var low := Text.Lower(a);
    LowerSpace(c);
    Text.LowerAppend([c], a);
    Text.LowerAppend(a, [c]);
    assert ([c] + low)[1..] == low;
    assert Text.TrimStart(Text.Js, [c] + low) == Text.TrimStart(Text.Js, low);
    TrimStartSnoc(low, c);
    var ts := Text.TrimStart(Text.Js, low);
    if ts != [] {
      assert (ts + [c])[..|ts|] == ts;
      assert Text.TrimEnd(Text.Js, ts + [c]) == Text.TrimEnd(Text.Js, ts);
    }
  }

  /** A lower-cased character is whitespace exactly when the character is. */
  lemma LowerCharSpace(c: char)
    ensures Text.IsJsSpace(Text.LowerChar(c)) <==> Text.IsJsSpace(c)
  {
  }

  /** Inside the address, any run of whitespace keys like one plain space, so addresses
      that differ only in the spacing between their words share a cache entry. */
  lemma CacheKeyInnerSpace(x: string, w: string, y: string)
    requires x != [] && !Text.IsJsSpace(x[0]) && y != [] && !Text.IsJsSpace(y[|y| - 1])
    requires w != [] && forall i :: 0 <= i < |w| ==> Text.IsJsSpace(w[i])
    ensures CacheKey(Some(x + w + y)) == CacheKey(Some(x + " " + y))
  {
    var lx, ly := Text.Lower(x), Text.Lower(y);
    Text.LowerAt(x);
    Text.LowerAt(y);
    Text.LowerAt(w);
    LowerCharSpace(x[0]);
    LowerCharSpace(y[|y| - 1]);
    var lw := Text.Lower(w);
    assert lw == w;
    Text.LowerAppend(x, w);
    Text.LowerAppend(x + w, y);
    Text.LowerAppend(x, " ");
    Text.LowerAppend(x + " ", y);
    assert Text.Lower(" ") == " ";
    var l1 := lx + w + ly;
    var l2 := lx + " " + ly;
    assert Text.Lower(x + w + y) == l1 && Text.Lower(x + " " + y) == l2;
    assert l1[0] == lx[0] && l1[|l1| - 1] == ly[|ly| - 1];
    assert l2[0] == lx[0] && l2[|l2| - 1] == ly[|ly| - 1];
    Text.TrimOfTrimmed(Text.Js, l1);
    Text.TrimOfTrimmed(Text.Js, l2);
    CollapseRun(lx, w, ly, false);
  }

  // ------------------------------------------------------------ HTML escape

  function EscapeChar(c: char): string {
    if c == '&' then "&amp;"
    else if c == '<' then "&lt;"
    else if c == '>' then "&gt;"
    else if c == '"' then "&quot;"
    else [c]
  }

  /** The four characters `escapeHtml` replaces. */
  predicate Special(c: char) { c == '&' || c == '<' || c == '>' || c == '"' }

  /** `escapeHtml(s)`: None stands for a null or undefined argument, and reads as "". */
  function EscapeHtml(s: Option<string>): string {
    if s.Some? then Escape(s.value) else ""
  }

  function Escape(s: string): (r: string)
    ensures forall i :: 0 <= i < |r| ==> r[i] != '<' && r[i] != '>' && r[i] != '"'
    ensures (forall i :: 0 <= i < |s| ==> !Special(s[i])) ==> r == s
    decreases |s|
  {
    if s == [] then "" else EscapeChar(s[0]) + Escape(s[1..])
  }

  /** Decoding the four entities (the inverse `escapeHtml` is checked against). */
  function Unescape(s: string): string
    decreases |s|
  {
    if s == [] then ""
    else if Text.StartsWith(s, "&amp;") then "&" + Unescape(s[5..])
    else if Text.StartsWith(s, "&lt;") then "<" + Unescape(s[4..])
    else if Text.StartsWith(s, "&gt;") then ">" + Unescape(s[4..])
    else if Text.StartsWith(s, "&quot;") then "\"" + Unescape(s[6..])
    else [s[0]] + Unescape(s[1..])
  }

  lemma UnescapeChar(c: char, rest: string)
    ensures Unescape(EscapeChar(c) + rest) == [c] + Unescape(rest)
  {
    var e := EscapeChar(c) + rest;
    if c == '&' {
      assert e[..5] == "&amp;" && e[5..] == rest;
    } else if c == '<' {
      assert e[..4] == "&lt;" && e[4..] == rest;
      NotPrefix(e, "&amp;", 1);
    } else if c == '>' {
      assert e[..4] == "&gt;" && e[4..] == rest;
      NotPrefix(e, "&amp;", 1);
      NotPrefix(e, "&lt;", 1);
    } else if c == '"' {
      assert e[..6] == "&quot;" && e[6..] == rest;
      NotPrefix(e, "&amp;", 1);
      NotPrefix(e, "&lt;", 1);
      NotPrefix(e, "&gt;", 1);
    } else {
      assert e[0] == c && e[1..] == rest;
      NotPrefix(e, "&amp;", 0);
      NotPrefix(e, "&lt;", 0);
      NotPrefix(e, "&gt;", 0);
      NotPrefix(e, "&quot;", 0);
    }
  }

  /** Escaping loses nothing: decoding the entities gives the original text back. */
  lemma {:induction false} EscapeRoundTrip(s: string)
    ensures Unescape(Escape(s)) == s
    decreases |s|
  {
    if s != [] {
      EscapeRoundTrip(s[1..]);
      UnescapeChar(s[0], Escape(s[1..]));
      assert [s[0]] + s[1..] == s;
    }
  }

  /** Escaping distributes over concatenation, character by character. */
  lemma {:induction false} EscapeAppend(a: string, b: string)
    ensures Escape(a + b) == Escape(a) + Escape(b)
    decreases |a|
  {
    if a != [] {
      var ab := a + b;
      assert ab != [] && ab[0] == a[0] && ab[1..] == a[1..] + b;
      assert Escape(ab) == EscapeChar(a[0]) + Escape(a[1..] + b);
      EscapeAppend(a[1..], b);
      assert Escape(a) == EscapeChar(a[0]) + Escape(a[1..]);
    } else {
      assert a + b == b;
    }
  }

  // ------------------------------------------------------------ search filter

  /** A collection point as the client holds it. `lat`/`lon` are the JSON numbers as text;
      None stands for null or undefined. */
  datatype ClientPoint = ClientPoint(id: int, name: string, address: string, category: Option<string>,
                                     notes: Option<string>, lat: Option<string>, lon: Option<string>)

  function OrEmpty(s: Option<string>): string {
    if s.Some? then s.value else ""
  }

  /** The lower-cased text a point is searched in. */
  function Haystack(p: ClientPoint): string {
    Text.Lower(p.name + " " + p.address + " " + OrEmpty(p.category) + " " + OrEmpty(p.notes))
  }

  /** The search query: lower-cased, then trimmed. */
  function Query(search: string): string {
    Text.Trim(Text.Js, Text.Lower(search))
  }

  predicate Matches(p: ClientPoint, q: string) {
    q == "" || Text.Contains(Haystack(p), q)
  }

  /** The filter inside `apply()`, with the query already normalised. */
  function FilterBy(points: seq<ClientPoint>, q: string): (r: seq<ClientPoint>)
    ensures |r| <= |points|
    ensures forall i :: 0 <= i < |r| ==> r[i] in points && Matches(r[i], q)
    decreases |points|
  {
    if points == [] then []
    else
      var rest := FilterBy(points[1..], q);
      if Matches(points[0], q) then [points[0]] + rest else rest
  }

  /** `state.points.filter(...)` for the text in the search box. */
  function FilterPoints(points: seq<ClientPoint>, search: string): seq<ClientPoint> {
    FilterBy(points, Query(search))
  }

  /** An empty (or all-blank) query keeps every point, in order. */
  lemma EmptyQueryKeepsAll(points: seq<ClientPoint>, search: string)
    requires Query(search) == ""
    ensures FilterPoints(points, search) == points
  {
    KeepsAll(points, "");
  }

  lemma {:induction false} KeepsAll(points: seq<ClientPoint>, q: string)
    requires q == ""
    ensures FilterBy(points, q) == points
    decreases |points|
  {
    if points != [] {
      KeepsAll(points[1..], q);
      assert [points[0]] + points[1..] == points;
    }
  }

  /** A point is kept exactly when its text contains the query (or the query is empty). */
  lemma {:induction false} FilterComplete(points: seq<ClientPoint>, q: string, p: ClientPoint)
    requires p in points
    ensures p in FilterBy(points, q) <==> Matches(p, q)
    decreases |points|
  {
    if points[0] != p {
      assert p in points[1..];
      FilterComplete(points[1..], q, p);
    }
  }

  /** Filtering keeps the input order: the result for `a + b` is that for `a`, then that for `b`. */
  lemma {:induction false} FilterAppend(a: seq<ClientPoint>, b: seq<ClientPoint>, q: string)
    ensures FilterBy(a + b, q) == FilterBy(a, q) + FilterBy(b, q)
    decreases |a|
  {
    if a == [] {
      assert a + b == b;
    } else {
      assert (a + b)[0] == a[0];
      assert (a + b)[1..] == a[1..] + b;
      FilterAppend(a[1..], b, q);
    }
  }

  /** The search is case-insensitive in the query. */
  lemma QueryIgnoresCase(search: string)
    ensures Query(Text.Lower(search)) == Query(search)
  {
    Text.LowerIdempotent(search);
  }
}
