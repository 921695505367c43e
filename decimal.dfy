/** Decimal rendering and parsing of integers: Python `str(n)` / `int(s)`,
    JavaScript `String(n)`, and the zero-padded `f"{n:06d}"` format. */
module Decimal {
  import opened Wrappers
  import Text

  predicate IsDigit(c: char) { '0' <= c <= '9' }

  predicate AllDigits(s: string) { forall i :: 0 <= i < |s| ==> IsDigit(s[i]) }

  function DigitChar(d: nat): (c: char)
    requires d < 10
    ensures IsDigit(c) && c as int - '0' as int == d
  {
    ('0' as int + d) as char
  }

  /** Shortest decimal rendering of a natural number. */
  function NatToString(n: nat): (s: string)
    ensures |s| >= 1 && AllDigits(s)
    ensures |s| > 1 ==> s[0] != '0'
    decreases n
  {
    if n < 10 then [DigitChar(n)] else NatToString(n / 10) + [DigitChar(n % 10)]
  }

  /** Value of a string of decimal digits (leading zeros allowed). */
  function DigitsValue(s: string): nat
    requires AllDigits(s)
    decreases |s|
  {
    if s == [] then 0 else DigitsValue(s[..|s| - 1]) * 10 + (s[|s| - 1] as int - '0' as int)
  }

  /** A non-empty run of digits, else nothing. */
  function ParseNat(s: string): (r: Option<nat>)
    ensures r.Some? <==> (s != [] && AllDigits(s))
  {
    if s != [] && AllDigits(s) then Some(DigitsValue(s)) else None
  }

  lemma {:induction false} DigitsValueOfNat(n: nat)
    ensures DigitsValue(NatToString(n)) == n
    decreases n
  {
    if n >= 10 {
      DigitsValueOfNat(n / 10);
      var s := NatToString(n);
      assert s[..|s| - 1] == NatToString(n / 10);
    }
  }

  /** Parsing a rendered natural number gives it back. */
  lemma NatRoundTrip(n: nat)
    ensures ParseNat(NatToString(n)) == Some(n)
  {
    DigitsValueOfNat(n);
  }

  /** Rendering is injective. */
  lemma NatToStringInjective(m: nat, n: nat)
    requires NatToString(m) == NatToString(n)
    ensures m == n
  {
    NatRoundTrip(m);
    NatRoundTrip(n);
  }

  lemma {:induction false} LeadingZeros(k: nat, s: string)
    requires AllDigits(s)
    ensures AllDigits(Zeros(k) + s) && DigitsValue(Zeros(k) + s) == DigitsValue(s)
    decreases |s|
  {
    var t := Zeros(k) + s;
    if s == [] {
      assert t == Zeros(k);
      ZerosValue(k);
    } else {
      assert t[..|t| - 1] == Zeros(k) + s[..|s| - 1];
      LeadingZeros(k, s[..|s| - 1]);
    }
  }

  lemma {:induction false} ZerosValue(k: nat)
    ensures AllDigits(Zeros(k)) && DigitsValue(Zeros(k)) == 0
    decreases k
  {
    if k > 0 {
      ZerosValue(k - 1);
      assert Zeros(k)[..k - 1] == Zeros(k - 1);
    }
  }

  function Zeros(k: nat): (z: string)
    ensures |z| == k && forall i :: 0 <= i < k ==> z[i] == '0'
  {
    if k == 0 then "" else Zeros(k - 1) + "0"
  }

  lemma {:induction false} NatToStringLength(n: nat, w: nat)
    requires n < Pow10(w) && w >= 1
    ensures |NatToString(n)| <= w
    decreases w
  {
    if n >= 10 {
      assert w >= 2;
      NatToStringLength(n / 10, w - 1);
    }
  }

  function Pow10(w: nat): (p: nat)
    ensures p >= 1
  {
    if w == 0 then 1 else 10 * Pow10(w - 1)
  }

  /** Python `f"{n:0{w}d}"` for a natural number: left-padded with zeros to width `w`. */
  function ZeroPad(n: nat, w: nat): (s: string)
  {
    var d := NatToString(n);
    if |d| >= w then d else Zeros(w - |d|) + d
  }

  /** For `n < 10^w` the padded rendering has exactly `w` digits and parses back to `n`. */
  lemma ZeroPadProperties(n: nat, w: nat)
    requires 1 <= w && n < Pow10(w)
    ensures |ZeroPad(n, w)| == w && AllDigits(ZeroPad(n, w))
    ensures ParseNat(ZeroPad(n, w)) == Some(n)
  {
    NatToStringLength(n, w);
    var d := NatToString(n);
    var z := ZeroPad(n, w);
    DigitsValueOfNat(n);
    if |d| < w {
      LeadingZeros(w - |d|, d);
      assert z == Zeros(w - |d|) + d;
      assert AllDigits(z) && DigitsValue(z) == n;
    } else {
      assert z == d;
    }
    assert ParseNat(z) == Some(DigitsValue(z));
  }

  /** Python `str(i)` / JavaScript `String(i)` for an integer. */
  function IntToString(i: int): (s: string)
    ensures i >= 0 ==> s == NatToString(i)
    ensures i < 0 ==> s == "-" + NatToString(-i)
  {
    if i >= 0 then NatToString(i) else "-" + NatToString(-i)
  }

  /** The digits of Python's `int()`: decimal digits, with single underscores allowed
      between two digits (`3_0`), none first, last or doubled. */
  predicate Grouped(s: string) {
    && s != [] && IsDigit(s[0]) && IsDigit(s[|s| - 1])
    && (forall i :: 0 <= i < |s| ==> IsDigit(s[i]) || s[i] == '_')
    && (forall i :: 0 <= i < |s| - 1 && s[i] == '_' ==> s[i + 1] != '_')
  }

  /** The digits with the group underscores dropped. */
  function Ungroup(s: string): (r: string)
    requires forall i :: 0 <= i < |s| ==> IsDigit(s[i]) || s[i] == '_'
    ensures AllDigits(r) && |r| <= |s|
    ensures AllDigits(s) ==> r == s
    ensures s != [] && IsDigit(s[0]) ==> r != [] && r[0] == s[0]
    decreases |s|
  {
    if s == [] then []
    else (if s[0] == '_' then [] else [s[0]]) + Ungroup(s[1..])
  }

  /** The value of grouped digits; nothing for anything else. */
  function ParseGrouped(s: string): (r: Option<nat>)
    ensures r.Some? <==> Grouped(s)
    ensures r.Some? ==> r == ParseNat(Ungroup(s))
    ensures AllDigits(s) ==> r == ParseNat(s)
  {
    if Grouped(s) then Some(DigitsValue(Ungroup(s))) else None
  }

  /** Python `int(s)`: surrounding whitespace, an optional sign, then grouped decimal digits.
      (Non-ASCII digits are not modelled.) */
  function ParseInt(s: string): (r: Option<int>)
  {
    var t := Text.Trim(Text.Py, s);
    if t != [] && (t[0] == '-' || t[0] == '+') then
      match ParseGrouped(t[1..])
      case Some(n) => Some(if t[0] == '-' then -(n as int) else n as int)
      case None => None
    else
      match ParseGrouped(t)
      case Some(n) => Some(n)
      case None => None
  }

  /** Underscores group digits but do not change the value; a leading, trailing or doubled
      underscore is refused. */
  lemma GroupedCases()
    ensures ParseGrouped("3_0") == Some(30)
    ensures ParseGrouped("_30") == None && ParseGrouped("30_") == None && ParseGrouped("3__0") == None
  {
    var g := "3_0";
    assert forall i :: 0 <= i < |g| ==> IsDigit(g[i]) || g[i] == '_';
    assert forall i :: 0 <= i < |g| - 1 && g[i] == '_' ==> g[i + 1] != '_';
    assert Grouped(g);
    assert Ungroup(g[2..]) == "0";
    assert Ungroup(g[1..]) == "0";
    assert Ungroup(g) == "30";
    assert "30"[..1] == "3";
    assert DigitsValue("30") == 30;
    assert !Grouped("3__0") by { assert "3__0"[1] == '_' && "3__0"[2] == '_'; }
  }

  /** `int("3_0") == 30` and `int("3__0")` raises: a text without whitespace is parsed as it
      stands. */
  lemma ParseIntGrouped()
    ensures ParseInt("3_0") == Some(30)
    ensures ParseInt("3__0") == None
  {
    GroupedCases();
    Text.TrimProperties(Text.Py, "3_0");
    Text.TrimProperties(Text.Py, "3__0");
    assert Text.Trim(Text.Py, "3__0") == "3__0";
  }

  /** A plain run of digits is read by `int()` as it stands. */
  lemma ParseIntOfDigits(s: string)
    requires s != [] && AllDigits(s)
    ensures ParseInt(s) == ParseNat(s)
  {
    Text.TrimProperties(Text.Py, s);
    assert Text.Trim(Text.Py, s) == s;
  }

  /** `int(str(i)) == i`. */
  lemma IntRoundTrip(i: int)
    ensures ParseInt(IntToString(i)) == Some(i)
  {
    var s := IntToString(i);
    Text.TrimProperties(Text.Py, s);
    if i >= 0 {
      NatRoundTrip(i);
      assert Text.Trim(Text.Py, s) == s;
    } else {
      NatRoundTrip(-i);
      assert Text.Trim(Text.Py, s) == s;
      assert s[1..] == NatToString(-i);
    }
  }

  /** A rendered integer is a sign and digits, so it holds no path separator. */
  lemma IntToStringNoSlash(i: int)
    ensures '/' !in IntToString(i)
  {
    var digits := NatToString(if i >= 0 then i else -i);
    assert IntToString(i) == digits || IntToString(i) == "-" + digits;
  }
}
