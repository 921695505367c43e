/** Upload file names (`files.py`): `safe_name` and `unique_filename`. */
module Files {
  import opened Wrappers
  import Text
  import Decimal

  /** The characters of `[a-zA-Z0-9._-]`. */
  predicate SafeChar(c: char) {
    ('a' <= c <= 'z') || ('A' <= c <= 'Z') || ('0' <= c <= '9') || c == '.' || c == '_' || c == '-'
  }

  predicate AllSafe(s: string) {
    forall i :: 0 <= i < |s| ==> SafeChar(s[i])
  }

  /** `SAFE.sub("_", s)` reading from the front; `inRun` says the previous character was
      unsafe, so its run already produced its `_`. */
  function SubFrom(s: string, inRun: bool): (r: string)
    ensures |r| <= |s|
    ensures s != [] && !inRun ==> r != []
    decreases |s|
  {
    if s == [] then []
    else if SafeChar(s[0]) then [s[0]] + SubFrom(s[1..], false)
    else (if inRun then [] else "_") + SubFrom(s[1..], true)
  }

  /** Every character the substitution writes is safe. */
  lemma {:induction false} SubFromSafe(s: string, inRun: bool)
    ensures AllSafe(SubFrom(s, inRun))
    decreases |s|
  {
    if s != [] {
      SubFromSafe(s[1..], !SafeChar(s[0]));
    }
  }

  /** `SAFE.sub("_", s)`. */
  function Sub(s: string): (r: string)
    ensures AllSafe(r)
  {
    SubFromSafe(s, false);
    SubFrom(s, false)
  }

  const MaxNameLength: nat := 120

  /** `safe_name(name)`; None stands for a missing name. */
  function SafeName(name: Option<string>): (r: string)
    ensures AllSafe(r) && |r| <= MaxNameLength
    ensures r != []
  {
    var n := if name.None? || name.value == "" then "file" else name.value;
    var t := Sub(n);
    if |t| <= MaxNameLength then t else t[..MaxNameLength]
  }

  /** The run state after reading `x`. */
  function RunAfter(x: string, inRun: bool): bool {
    if x == [] then inRun else !SafeChar(x[|x| - 1])
  }

  /** What `SubFrom` writes for one character `c`. */
  function SubChar(c: char, inRun: bool): string {
    if SafeChar(c) then [c] else if inRun then [] else "_"
  }

  /** `SubFrom` consumes its input one character at a time. */
  lemma SubFromCons(c: char, s: string, inRun: bool)
    ensures SubFrom([c] + s, inRun) == SubChar(c, inRun) + SubFrom(s, !SafeChar(c))
  {
    assert ([c] + s)[0] == c && ([c] + s)[1..] == s;
  }

  lemma {:induction false} SubAppend(x: string, y: string, inRun: bool)
    ensures SubFrom(x + y, inRun) == SubFrom(x, inRun) + SubFrom(y, RunAfter(x, inRun))
    decreases |x|
  {
    if x == [] {
      assert x + y == y;
    } else {
      var c, rest := x[0], x[1..];
      var run := !SafeChar(c);
      assert x == [c] + rest;
      assert x + y == [c] + (rest + y);
      assert RunAfter(rest, run) == RunAfter(x, inRun) by {
        if rest != [] {
          assert rest[|rest| - 1] == x[|x| - 1];
        }
      }
      calc {
        SubFrom(x + y, inRun);
        SubFrom([c] + (rest + y), inRun);
        { SubFromCons(c, rest + y, inRun); }
        SubChar(c, inRun) + SubFrom(rest + y, run);
        { SubAppend(rest, y, run); }
        SubChar(c, inRun) + (SubFrom(rest, run) + SubFrom(y, RunAfter(x, inRun)));
        (SubChar(c, inRun) + SubFrom(rest, run)) + SubFrom(y, RunAfter(x, inRun));
        { SubFromCons(c, rest, inRun); }
        SubFrom([c] + rest, inRun) + SubFrom(y, RunAfter(x, inRun));
        SubFrom(x, inRun) + SubFrom(y, RunAfter(x, inRun));
      }
    }
  }

  /** A non-empty run of unsafe characters becomes one `_`, or nothing when a run is going on. */
  lemma {:induction false} SubOfRun(u: string, inRun: bool)
    requires u != [] && forall i :: 0 <= i < |u| ==> !SafeChar(u[i])
    ensures SubFrom(u, inRun) == (if inRun then [] else "_")
    decreases |u|
  {
    if |u| > 1 {
      SubOfRun(u[1..], true);
    } else {
      assert u[1..] == [];
    }
  }

  /** Safe text is copied whatever the run state. */
  lemma {:induction false} SubOfSafe(s: string, inRun: bool)
    requires AllSafe(s)
    ensures SubFrom(s, inRun) == s
    decreases |s|
  {
    if s != [] {
      SubOfSafe(s[1..], false);
    }
  }

  /** A text that starts with a safe character is copied the same way whatever the run state. */
  lemma SubStart(b: string)
    requires b == [] || SafeChar(b[0])
    ensures SubFrom(b, true) == SubFrom(b, false)
  {
  }

  /** Each maximal run of unsafe characters becomes a single `_`: when the run `u` sits
      between a safe character (or the start) and a safe character (or the end), the
      substitution of `a + u + b` is that of `a`, one `_`, then that of `b`. */
  lemma ReplacesMaximalRun(a: string, u: string, b: string)
    requires a == [] || SafeChar(a[|a| - 1])
    requires u != [] && forall i :: 0 <= i < |u| ==> !SafeChar(u[i])
    requires b == [] || SafeChar(b[0])
    ensures Sub(a + u + b) == Sub(a) + "_" + Sub(b)
  {
    var ub := u + b;
    assert a + u + b == a + ub;
    assert !RunAfter(a, false);
    SubAppend(a, ub, false);
    RunThenSafe(u, b);
  }

  /** A run of unsafe characters followed by a safe character (or the end) gives one `_`
      and then the substitution of the rest. */
  lemma RunThenSafe(u: string, b: string)
    requires u != [] && forall i :: 0 <= i < |u| ==> !SafeChar(u[i])
    requires b == [] || SafeChar(b[0])
    ensures SubFrom(u + b, false) == "_" + SubFrom(b, false)
  {
    assert RunAfter(u, false) by {
      assert !SafeChar(u[|u| - 1]);
    }
    SubAppend(u, b, false);
    SubOfRun(u, false);
    SubStart(b);
  }

  /** A name made of safe characters only, at most 120 long, is unchanged; an empty or
      missing name becomes `"file"`. */
  lemma SafeNameKeepsSafe(n: string)
    requires n != [] && AllSafe(n) && |n| <= MaxNameLength
    ensures SafeName(Some(n)) == n
    ensures SafeName(None) == "file" && SafeName(Some("")) == "file"
  {
    SubOfSafe(n, false);
    SubOfSafe("file", false);
  }

  /** `safe_name` is idempotent. */
  lemma SafeNameIdempotent(name: Option<string>)
    ensures SafeName(Some(SafeName(name))) == SafeName(name)
  {
    SafeNameKeepsSafe(SafeName(name));
  }

  /** The names `safe_name` produces contain no `/`, so they are plain file names. */
  lemma SafeNameNoSlash(name: Option<string>)
    ensures '/' !in SafeName(name)
  {
  }

  /** `unique_filename(prefix, original)` at the timestamp `ts` (whole seconds). */
  function UniqueFilename(prefix: string, original: Option<string>, ts: int): (r: string)
    ensures Text.EndsWith(r, "_" + SafeName(original))
  {
    var base := SafeName(original);
    var r := prefix + "_" + Decimal.IntToString(ts) + "_" + base;
    assert r[|r| - |"_" + base|..] == "_" + base;
    r
  }

  /** With a slash-free prefix, a unique file name is a plain file name. */
  lemma UniqueFilenameNoSlash(prefix: string, original: Option<string>, ts: int)
    requires '/' !in prefix
    ensures '/' !in UniqueFilename(prefix, original, ts)
  {
    SafeNameNoSlash(original);
    Decimal.IntToStringNoSlash(ts);
    assert UniqueFilename(prefix, original, ts) == prefix + "_" + Decimal.IntToString(ts) + "_" + SafeName(original);
  }

  /** The upload path `os.path.join(dir, name)` gives back `name` as its basename, for a
      prefix without slashes, so the public URL of an upload names the file that was written. */
  lemma UploadBasename(dir: string, prefix: string, original: Option<string>, ts: int)
    requires '/' !in prefix
    ensures Text.Basename(Text.PathJoin(dir, UniqueFilename(prefix, original, ts))) == UniqueFilename(prefix, original, ts)
  {
    UniqueFilenameNoSlash(prefix, original, ts);
    Text.BasenameOfPathJoin(dir, UniqueFilename(prefix, original, ts));
  }
}
