/** `urllib.parse.quote(s)` with its default `safe="/"`: letters, digits, `_.-~` and `/`
    are kept, every other character is written as the `%XX` escapes of its UTF-8 bytes,
    with upper-case hexadecimal digits. */
module Url {

  /** The characters `quote` leaves as they are. */
  predicate Unreserved(c: char) {
    ('a' <= c <= 'z') || ('A' <= c <= 'Z') || ('0' <= c <= '9') || c == '_' || c == '.' || c == '-' || c == '~' || c == '/'
  }

  /** An upper-case hexadecimal digit. */
  function Hex(n: int): (r: char)
    requires 0 <= n < 16
    ensures ('0' <= r <= '9') || ('A' <= r <= 'F')
  {
    if n < 10 then ('0' as int + n) as char else ('A' as int + n - 10) as char
  }

  /** The value of an upper-case hexadecimal digit. */
  function HexValue(c: char): int {
    if '0' <= c <= '9' then c as int - '0' as int
    else if 'A' <= c <= 'F' then c as int - 'A' as int + 10
    else 0
  }

  /** A byte: an integer in `[0, 256)`. */
  predicate IsByte(b: int) {
    0 <= b < 256
  }

  /** `%XX` for one byte. */
  function Escape(b: int): (r: string)
    requires IsByte(b)
    ensures |r| == 3 && r[0] == '%'
  {
    ['%', Hex(b / 16), Hex(b % 16)]
  }

  /** The UTF-8 encoding of a character. */
  function Utf8(c: char): (r: seq<int>)
    ensures 1 <= |r| <= 4
    ensures forall i :: 0 <= i < |r| ==> IsByte(r[i])
  {
    var n := c as int;
    if n < 0x80 then [n]
    else if n < 0x800 then [0xC0 + n / 64, 0x80 + n % 64]
    else if n < 0x10000 then [0xE0 + n / 4096, 0x80 + (n / 64) % 64, 0x80 + n % 64]
    else [0xF0 + n / 262144, 0x80 + (n / 4096) % 64, 0x80 + (n / 64) % 64, 0x80 + n % 64]
  }

  /** Reads back the code point of a UTF-8 sequence of one to four bytes. */
  function Utf8Value(b: seq<int>): int {
    if |b| == 1 then b[0]
    else if |b| == 2 then (b[0] - 0xC0) * 64 + (b[1] - 0x80)
    else if |b| == 3 then (b[0] - 0xE0) * 4096 + (b[1] - 0x80) * 64 + (b[2] - 0x80)
    else if |b| == 4 then (b[0] - 0xF0) * 262144 + (b[1] - 0x80) * 4096 + (b[2] - 0x80) * 64 + (b[3] - 0x80)
    else 0
  }

  /** The escapes of a sequence of bytes. */
  function EscapeAll(bs: seq<int>): (r: string)
    requires forall i :: 0 <= i < |bs| ==> IsByte(bs[i])
    ensures |r| == 3 * |bs|
  {
    if bs == [] then [] else Escape(bs[0]) + EscapeAll(bs[1..])
  }

  /** What `quote` writes for one character. */
  function QuoteChar(c: char): string {
    if Unreserved(c) then [c] else EscapeAll(Utf8(c))
  }

  function Quote(s: string): string
    decreases |s|
  {
    if s == [] then [] else QuoteChar(s[0]) + Quote(s[1..])
  }

  // ------------------------------------------------------------------ properties

  /** Every hexadecimal digit reads back as its value. */
  lemma HexRoundTrip(n: int)
    requires 0 <= n < 16
    ensures HexValue(Hex(n)) == n
  {
  }

  /** Each escape reads back as its byte. */
  lemma EscapeRoundTrip(b: int)
    requires IsByte(b)
    ensures var e := Escape(b); 16 * HexValue(e[1]) + HexValue(e[2]) == b
  {
    HexRoundTrip(b / 16);
    HexRoundTrip(b % 16);
  }

  /** Splitting off the low six bits. */
  lemma SixBits(n: int)
    requires n >= 0
    ensures n == (n / 64) * 64 + n % 64 && 0 <= n % 64 < 64
  {
  }

  /** Dividing twice by 64 divides by 4096, three times by 262144. */
  lemma DivTwice(n: int)
    requires n >= 0
    ensures (n / 64) / 64 == n / 4096 && (n / 4096) / 64 == n / 262144
  {
  }

  /** The UTF-8 encoding of a character reads back as the character. */
  lemma Utf8RoundTrip(c: char)
    ensures Utf8Value(Utf8(c)) == c as int
  {
    var n := c as int;
    SixBits(n);
    SixBits(n / 64);
    SixBits(n / 4096);
    DivTwice(n);
    if n < 0x80 {
    } else if n < 0x800 {
      assert Utf8(c) == [0xC0 + n / 64, 0x80 + n % 64];
    } else if n < 0x10000 {
      assert Utf8(c) == [0xE0 + n / 4096, 0x80 + (n / 64) % 64, 0x80 + n % 64];
      assert n / 64 == (n / 4096) * 64 + (n / 64) % 64;
    } else {
      assert Utf8(c) == [0xF0 + n / 262144, 0x80 + (n / 4096) % 64, 0x80 + (n / 64) % 64, 0x80 + n % 64];
      assert n / 64 == (n / 4096) * 64 + (n / 64) % 64;
      assert n / 4096 == (n / 262144) * 64 + (n / 4096) % 64;
    }
  }

  /** Escapes are made of `%` and hexadecimal digits only. */
  lemma {:induction false} EscapeAllChars(bs: seq<int>)
    requires forall i :: 0 <= i < |bs| ==> IsByte(bs[i])
    ensures forall i :: 0 <= i < |EscapeAll(bs)| ==> EscapeAll(bs)[i] == '%' || Unreserved(EscapeAll(bs)[i])
    decreases |bs|
  {
    if bs != [] {
      EscapeAllChars(bs[1..]);
      var e := Escape(bs[0]);
      var rest := EscapeAll(bs[1..]);
      forall i | 0 <= i < |e + rest| ensures (e + rest)[i] == '%' || Unreserved((e + rest)[i]) {
        if i >= 3 {
          assert (e + rest)[i] == rest[i - 3];
        }
      }
    }
  }

  /** The quoted text has only unreserved characters and `%`, so it can stand in a URL query. */
  lemma {:induction false} QuoteSafe(s: string)
    ensures forall i :: 0 <= i < |Quote(s)| ==> Quote(s)[i] == '%' || Unreserved(Quote(s)[i])
    decreases |s|
  {
    if s != [] {
      QuoteSafe(s[1..]);
      var q := QuoteChar(s[0]);
      var rest := Quote(s[1..]);
      if !Unreserved(s[0]) {
        EscapeAllChars(Utf8(s[0]));
      }
      forall i | 0 <= i < |q + rest| ensures (q + rest)[i] == '%' || Unreserved((q + rest)[i]) {
        if i >= |q| {
          assert (q + rest)[i] == rest[i - |q|];
        }
      }
    }
  }

  /** Text made of unreserved characters is not changed. */
  lemma {:induction false} QuoteUnreserved(s: string)
    requires forall i :: 0 <= i < |s| ==> Unreserved(s[i])
    ensures Quote(s) == s
    decreases |s|
  {
    if s != [] {
      QuoteUnreserved(s[1..]);
      assert s == [s[0]] + s[1..];
    }
  }

  /** `Quote` reads one character at a time. */
  lemma QuoteCons(c: char, s: string)
    ensures Quote([c] + s) == QuoteChar(c) + Quote(s)
  {
    assert ([c] + s)[0] == c && ([c] + s)[1..] == s;
  }

  /** Quoting works character by character. */
  lemma {:induction false} QuoteAppend(a: string, b: string)
    ensures Quote(a + b) == Quote(a) + Quote(b)
    decreases |a|
  {
    if a == [] {
      assert a + b == b;
    } else {
      var c, rest := a[0], a[1..];
      assert a == [c] + rest;
      assert a + b == [c] + (rest + b);
      calc {
        Quote(a + b);
        Quote([c] + (rest + b));
        { QuoteCons(c, rest + b); }
        QuoteChar(c) + Quote(rest + b);
        { QuoteAppend(rest, b); }
        QuoteChar(c) + (Quote(rest) + Quote(b));
        (QuoteChar(c) + Quote(rest)) + Quote(b);
        { QuoteCons(c, rest); }
        Quote(a) + Quote(b);
      }
    }
  }
}
