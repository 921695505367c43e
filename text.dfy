/** String helpers shared by the client (JavaScript) and server (Python) code.
    Whitespace follows each language exactly: JavaScript's `trim()` and `\s`,
    Python's `str.isspace()`. Case mapping covers ASCII and Latin-1 letters. */
module Text {
  import opened Wrappers

  /** Which language's notion of whitespace a trim or collapse uses. */
  datatype Lang = Js | Py

  /** JavaScript WhiteSpace and LineTerminator code points (`trim()`, `/\s/`). */
  predicate IsJsSpace(c: char) {
    c == ' ' || c == '\t' || c == '\n' || c == '\r' || c == '\U{000B}' || c == '\U{000C}'
    || c == '\U{00A0}' || c == '\U{1680}' || ('\U{2000}' <= c <= '\U{200A}')
    || c == '\U{2028}' || c == '\U{2029}' || c == '\U{202F}' || c == '\U{205F}'
    || c == '\U{3000}' || c == '\U{FEFF}'
  }

  /** Python's `str.isspace()` code points (used by `strip()`). */
  predicate IsPySpace(c: char) {
    c == ' ' || ('\U{0009}' <= c <= '\U{000D}') || ('\U{001C}' <= c <= '\U{001F}')
    || c == '\U{0085}' || c == '\U{00A0}' || c == '\U{1680}' || ('\U{2000}' <= c <= '\U{200A}')
    || c == '\U{2028}' || c == '\U{2029}' || c == '\U{202F}' || c == '\U{205F}' || c == '\U{3000}'
  }

  predicate IsSpace(lang: Lang, c: char) {
    match lang
    case Js => IsJsSpace(c)
    case Py => IsPySpace(c)
  }

  /** Upper-case letters of ASCII and Latin-1 (U+00C0..U+00DE without U+00D7). */
  predicate IsUpper(c: char) {
    ('A' <= c <= 'Z') || ('\U{00C0}' <= c <= '\U{00DE}' && c != '\U{00D7}')
  }

  function LowerChar(c: char): (r: char)
    ensures !IsUpper(r)
    ensures !IsUpper(c) ==> r == c
    ensures IsUpper(c) ==> r as int == c as int + 32
  {
    if IsUpper(c) then (c as int + 32) as char else c
  }

  /** `toLowerCase()` / `lower()` restricted to ASCII and Latin-1. */
  function Lower(s: string): (r: string)
    ensures |r| == |s|
  {
    if s == [] then [] else [LowerChar(s[0])] + Lower(s[1..])
  }

  /** Lower-casing maps every character on its own. */
  lemma {:induction false} LowerAt(s: string)
    ensures forall i :: 0 <= i < |s| ==> Lower(s)[i] == LowerChar(s[i])
    decreases |s|
  {
    if s != [] {
      LowerAt(s[1..]);
    }
  }

  lemma LowerIdempotent(s: string)
    ensures Lower(Lower(s)) == Lower(s)
  {
    LowerAt(s);
    LowerAt(Lower(s));
  }

  lemma LowerAppend(a: string, b: string)
    ensures Lower(a + b) == Lower(a) + Lower(b)
  {
    LowerAt(a);
    LowerAt(b);
    LowerAt(a + b);
  }

  /** SQLite's built-in `lower()`: only the ASCII letters A-Z are mapped. */
  function LowerAscii(s: string): (r: string)
    ensures |r| == |s|
  {
    if s == [] then []
    else [if 'A' <= s[0] <= 'Z' then (s[0] as int + 32) as char else s[0]] + LowerAscii(s[1..])
  }

  function TrimStart(lang: Lang, s: string): (r: string)
    ensures |r| <= |s|
  {
    if s != [] && IsSpace(lang, s[0]) then TrimStart(lang, s[1..]) else s
  }

  /** `TrimStart` drops exactly the leading whitespace: what is left is a suffix that does
      not start with a space, and everything dropped is a space. */
  lemma {:induction false} TrimStartProperties(lang: Lang, s: string)
    ensures var r := TrimStart(lang, s);
      && r == s[|s| - |r|..]
      && (r != [] ==> !IsSpace(lang, r[0]))
      && (forall i :: 0 <= i < |s| - |r| ==> IsSpace(lang, s[i]))
    decreases |s|
  {
    if s != [] && IsSpace(lang, s[0]) {
      TrimStartProperties(lang, s[1..]);
      var r := TrimStart(lang, s);
      assert s[1..][|s| - 1 - |r|..] == s[|s| - |r|..];
      forall i | 1 <= i < |s| - |r| ensures IsSpace(lang, s[i]) {
        assert s[1..][i - 1] == s[i];
      }
    }
  }

  function TrimEnd(lang: Lang, s: string): (r: string)
    ensures |r| <= |s|
  {
    if s != [] && IsSpace(lang, s[|s| - 1]) then TrimEnd(lang, s[..|s| - 1]) else s
  }

  /** `TrimEnd` drops exactly the trailing whitespace. */
  lemma {:induction false} TrimEndProperties(lang: Lang, s: string)
    ensures var r := TrimEnd(lang, s);
      && r == s[..|r|]
      && (r != [] ==> !IsSpace(lang, r[|r| - 1]))
      && (forall i :: |r| <= i < |s| ==> IsSpace(lang, s[i]))
    decreases |s|
  {
    if s != [] && IsSpace(lang, s[|s| - 1]) {
      TrimEndProperties(lang, s[..|s| - 1]);
      var r := TrimEnd(lang, s);
      assert s[..|s| - 1][..|r|] == s[..|r|];
      forall i | |r| <= i < |s| - 1 ensures IsSpace(lang, s[i]) {
        assert s[..|s| - 1][i] == s[i];
      }
    }
  }

  /** `s.trim()` (Js) or `s.strip()` (Py). */
  function Trim(lang: Lang, s: string): (r: string) {
    TrimEnd(lang, TrimStart(lang, s))
  }

  /** No leading or trailing whitespace. */
  predicate IsTrimmed(lang: Lang, s: string) {
    s == [] || (!IsSpace(lang, s[0]) && !IsSpace(lang, s[|s| - 1]))
  }

  lemma TrimProperties(lang: Lang, s: string)
    ensures IsTrimmed(lang, Trim(lang, s))
    ensures |Trim(lang, s)| <= |s|
    ensures (forall i :: 0 <= i < |s| ==> !IsSpace(lang, s[i])) ==> Trim(lang, s) == s
    ensures Trim(lang, s) == [] <==> forall i :: 0 <= i < |s| ==> IsSpace(lang, s[i])
  {
    var t := TrimStart(lang, s);
    var r := TrimEnd(lang, t);
    TrimStartProperties(lang, s);
    TrimEndProperties(lang, t);
    if r != [] {
      assert r[0] == t[0];
    }
    if r == [] {
      forall i | 0 <= i < |s| ensures IsSpace(lang, s[i]) {
      }
    }
  }

  lemma TrimIdempotent(lang: Lang, s: string)
    ensures Trim(lang, Trim(lang, s)) == Trim(lang, s)
  {
    var r := Trim(lang, s);
    TrimProperties(lang, s);
    TrimStartProperties(lang, s);
    TrimEndProperties(lang, TrimStart(lang, s));
    if r != [] {
      assert TrimStart(lang, r) == r;
      assert TrimEnd(lang, r) == r;
    }
  }

  /** A string without leading or trailing whitespace trims to itself. */
  lemma TrimOfTrimmed(lang: Lang, s: string)
    requires IsTrimmed(lang, s)
    ensures Trim(lang, s) == s
  {
  }

  function StartsWith(s: string, p: string): bool {
    |p| <= |s| && s[..|p|] == p
  }

  function EndsWith(s: string, p: string): bool {
    |p| <= |s| && s[|s| - |p|..] == p
  }

  /** JavaScript `s.includes(q)` / Python `q in s`. */
  function Contains(s: string, q: string): (b: bool)
    decreases |s|
  {
    StartsWith(s, q) || (s != [] && Contains(s[1..], q))
  }

  ghost predicate OccursAt(s: string, q: string, i: int) {
    0 <= i && i + |q| <= |s| && s[i..i + |q|] == q
  }

  /** `Contains` holds exactly when `q` occurs somewhere in `s`. */
  lemma {:induction false} ContainsIff(s: string, q: string)
    ensures Contains(s, q) <==> exists i :: OccursAt(s, q, i)
    decreases |s|
  {
    if StartsWith(s, q) {
      assert OccursAt(s, q, 0);
    } else if s == [] {
      assert !OccursAt(s, q, 0);
    } else {
      ContainsIff(s[1..], q);
      if Contains(s[1..], q) {
        var i :| OccursAt(s[1..], q, i);
        assert s[1..][i..i + |q|] == s[i + 1..i + 1 + |q|];
        assert OccursAt(s, q, i + 1);
      } else {
        forall i | OccursAt(s, q, i) ensures false {
          if i != 0 {
            assert s[1..][i - 1..i - 1 + |q|] == s[i..i + |q|];
            assert OccursAt(s[1..], q, i - 1);
          }
        }
      }
    }
  }

  /** Every string contains the empty string. */
  lemma ContainsEmpty(s: string)
    ensures Contains(s, "")
  {
  }

  /** Python `s.split(sep)` for a one-character separator. */
  function Split(s: string, sep: char): (parts: seq<string>)
    ensures |parts| >= 1
    ensures forall k :: 0 <= k < |parts| ==> sep !in parts[k]
    decreases |s|
  {
    if s == [] then [""]
    else
      var rest := Split(s[1..], sep);
      if s[0] == sep then [""] + rest else [[s[0]] + rest[0]] + rest[1..]
  }

  /** `sep.join(parts)`. */
  function Join(parts: seq<string>, sep: char): string
    decreases |parts|
  {
    if parts == [] then ""
    else if |parts| == 1 then parts[0]
    else parts[0] + [sep] + Join(parts[1..], sep)
  }

  /** Joining the pieces of a split gives back the original string. */
  lemma {:induction false} JoinSplit(s: string, sep: char)
    ensures Join(Split(s, sep), sep) == s
    decreases |s|
  {
    if s != [] {
      JoinSplit(s[1..], sep);
      var rest := Split(s[1..], sep);
      if s[0] == sep {
        assert Split(s, sep) == [""] + rest;
        assert ([""] + rest)[1..] == rest;
      } else {
        var parts := [[s[0]] + rest[0]] + rest[1..];
        assert Split(s, sep) == parts;
        if |rest| == 1 {
          assert parts == [[s[0]] + rest[0]];
        } else {
          assert parts[1..] == rest[1..];
          assert Join(rest, sep) == rest[0] + [sep] + Join(rest[1..], sep);
        }
      }
    }
  }

  /** Splitting a join of separator-free parts gives the parts back. */
  lemma {:induction false} SplitJoin(parts: seq<string>, sep: char)
    requires |parts| >= 1
    requires forall k :: 0 <= k < |parts| ==> sep !in parts[k]
    ensures Split(Join(parts, sep), sep) == parts
    decreases |parts|
  {
    if |parts| == 1 {
      SplitNoSep(parts[0], sep);
    } else {
      SplitJoin(parts[1..], sep);
      SplitAfter(parts[0], Join(parts[1..], sep), sep);
      assert [parts[0]] + parts[1..] == parts;
    }
  }

  /** Splitting `a + [sep] + b`, with no separator in `a`, gives `a` and then the pieces of `b`. */
  lemma {:induction false} SplitAfter(a: string, b: string, sep: char)
    requires sep !in a
    ensures Split(a + [sep] + b, sep) == [a] + Split(b, sep)
    decreases |a|
  {
    var s := a + [sep] + b;
    if a == [] {
      assert s[0] == sep && s[1..] == b;
    } else {
      assert s[0] == a[0] && s[1..] == a[1..] + [sep] + b;
      SplitAfter(a[1..], b, sep);
      assert [a[0]] + a[1..] == a;
    }
  }

  /** A string without the separator splits into itself alone. */
  lemma {:induction false} SplitNoSep(s: string, sep: char)
    requires sep !in s
    ensures Split(s, sep) == [s]
    decreases |s|
  {
    if s != [] {
      SplitNoSep(s[1..], sep);
      assert [s[0]] + s[1..] == s;
    }
  }

  /** The part of `path` after its last `/` (Python `os.path.basename`). */
  function Basename(path: string): (r: string)
    ensures '/' !in r
    ensures EndsWith(path, r)
    ensures '/' !in path ==> r == path
    decreases |path|
  {
    if path == [] then ""
    else if path[|path| - 1] == '/' then ""
    else
      var b := Basename(path[..|path| - 1]);
      assert path[..|path| - 1][|path| - 1 - |b|..] == b;
      assert path[|path| - (|b| + 1)..] == b + [path[|path| - 1]];
      b + [path[|path| - 1]]
  }

  /** A directory joined with a slash-free file name has that name as its basename. */
  lemma BasenameOfJoin(dir: string, name: string)
    requires '/' !in name
    ensures Basename(dir + "/" + name) == name
  {
    BasenameAfterSlash(dir + "/", name);
  }

  /** A path whose directory part ends in a slash has the slash-free rest as its basename. */
  lemma {:induction false} BasenameAfterSlash(dir: string, name: string)
    requires dir != [] && dir[|dir| - 1] == '/' && '/' !in name
    ensures Basename(dir + name) == name
    decreases |name|
  {
    if name == [] {
      assert dir + name == dir;
    } else {
      var p := dir + name;
      var init := name[..|name| - 1];
      var last := name[|name| - 1];
      assert p[..|p| - 1] == dir + init;
      assert p[|p| - 1] == last && last != '/';
      assert Basename(p) == Basename(dir + init) + [last];
      BasenameAfterSlash(dir, init);
      assert init + [last] == name;
    }
  }

  /** `os.path.join(dir, name)`. */
  function PathJoin(dir: string, name: string): string {
    if name != [] && name[0] == '/' then name
    else if dir == [] || dir[|dir| - 1] == '/' then dir + name
    else dir + "/" + name
  }

  /** A slash-free name joined to any directory is the basename of the result. */
  lemma BasenameOfPathJoin(dir: string, name: string)
    requires '/' !in name
    ensures Basename(PathJoin(dir, name)) == name
  {
    if dir == [] {
      assert dir + name == name;
    } else if dir[|dir| - 1] == '/' {
      BasenameAfterSlash(dir, name);
    } else {
      BasenameOfJoin(dir, name);
    }
  }

  /** Python truthiness of an optional text: present and not empty. */
  predicate Truthy(v: Option<string>) {
    v.Some? && v.value != ""
  }
}
