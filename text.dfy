/**
 * String helpers shared by the model: the parts of JavaScript's String
 * behaviour that the chat application relies on (`toLowerCase`, `trim`,
 * `indexOf`/`includes`, `startsWith`, number-to-string and `padStart`).
 * A `string` here is a sequence of code points; `length` and cursor offsets,
 * which JavaScript counts in UTF-16 code units, are computed explicitly.
 */
module Text {
  import opened Options

  /* ---------- UTF-16 length ---------- */

  /** The UTF-16 code units of one code point: two (a surrogate pair) above U+FFFF. */
  function Utf16Units(c: char): nat {
    if c as int > 0xFFFF then 2 else 1
  }

  /** `s.length`: the number of UTF-16 code units. */
  function Utf16Length(s: string): (n: nat)
    ensures |s| <= n <= 2 * |s|
  {
    if s == [] then 0 else Utf16Units(s[0]) + Utf16Length(s[1..])
  }

  /** A prefix is no longer than the whole string. */
  lemma {:induction false} Utf16LengthOfPrefix(s: string, k: nat)
    requires k <= |s|
    ensures Utf16Length(s[..k]) <= Utf16Length(s)
  {
    if k > 0 {
      assert s[..k][1..] == s[1..][..k - 1];
      Utf16LengthOfPrefix(s[1..], k - 1);
    }
  }

  /**
   * The code-point position of a UTF-16 offset: the longest prefix that
   * fits in `units` code units, so an offset past the end is clamped to it.
   */
  function CodePointIndex(s: string, units: nat): (k: nat)
    ensures k <= |s|
  {
    if s == [] || units < Utf16Units(s[0]) then 0
    else 1 + CodePointIndex(s[1..], units - Utf16Units(s[0]))
  }

  /** The prefix before the position fits in the offset, and one more code point would not. */
  lemma {:induction false} CodePointIndexFits(s: string, units: nat)
    ensures var k := CodePointIndex(s, units);
      Utf16Length(s[..k]) <= units && (k < |s| ==> units < Utf16Length(s[..k + 1]))
  {
    var k := CodePointIndex(s, units);
    if s == [] || units < Utf16Units(s[0]) {
      assert s != [] ==> s[..1] == [s[0]] && s[..1][1..] == [];
    } else {
      CodePointIndexFits(s[1..], units - Utf16Units(s[0]));
      assert s[..k][1..] == s[1..][..k - 1];
      assert k < |s| ==> s[..k + 1][1..] == s[1..][..k];
    }
  }

  /** An offset that falls between code points finds that code point's position. */
  lemma {:induction false} CodePointIndexOfPrefix(s: string, k: nat)
    requires k <= |s|
    ensures CodePointIndex(s, Utf16Length(s[..k])) == k
  {
    if k > 0 {
      var rest := s[1..][..k - 1];
      assert s[..k][1..] == rest;
      assert Utf16Length(s[..k]) == Utf16Units(s[0]) + Utf16Length(rest);
      CodePointIndexOfPrefix(s[1..], k - 1);
    }
  }

  /* ---------- case ---------- */

  /** Lower-cases one character (ASCII letters only). */
  function LowerChar(c: char): char {
    if 'A' <= c <= 'Z' then (c as int + 32) as char else c
  }

  /** `s.toLowerCase()`, on ASCII letters. */
  function ToLower(s: string): (r: string)
    ensures |r| == |s|
    ensures forall i :: 0 <= i < |s| ==> r[i] == LowerChar(s[i])
  {
    seq(|s|, i requires 0 <= i < |s| => LowerChar(s[i]))
  }

  lemma ToLowerIdempotent(s: string)
    ensures ToLower(ToLower(s)) == ToLower(s)
  {
  }

  lemma ToLowerAppend(a: string, b: string)
    ensures ToLower(a + b) == ToLower(a) + ToLower(b)
  {
  }

  /** `a.toLowerCase() === b.toLowerCase()`. */
  predicate EqualsIgnoreCase(a: string, b: string) {
    ToLower(a) == ToLower(b)
  }

  /* ---------- whitespace and trim ---------- */

  /** The characters JavaScript's `trim` removes (WhiteSpace and LineTerminator). */
  predicate IsWhite(c: char) {
    c == ' ' || c == '\t' || c == '\n' || c == '\r' || c == '\U{000B}' || c == '\U{000C}'
    || c == '\U{00A0}' || c == '\U{1680}' || ('\U{2000}' <= c <= '\U{200A}')
    || c == '\U{2028}' || c == '\U{2029}' || c == '\U{202F}' || c == '\U{205F}'
    || c == '\U{3000}' || c == '\U{FEFF}'
  }

  function TrimStart(s: string): (r: string)
    ensures |r| <= |s| && r == s[|s| - |r|..]
    ensures r == [] || !IsWhite(r[0])
    ensures forall i :: 0 <= i < |s| - |r| ==> IsWhite(s[i])
  {
    if s == [] || !IsWhite(s[0]) then s else TrimStart(s[1..])
  }

  function TrimEnd(s: string): (r: string)
    ensures |r| <= |s| && r == s[..|r|]
    ensures r == [] || !IsWhite(r[|r| - 1])
    ensures forall i :: |r| <= i < |s| ==> IsWhite(s[i])
  {
    if s == [] || !IsWhite(s[|s| - 1]) then s else TrimEnd(s[..|s| - 1])
  }

  /** `s.trim()`. */
  function Trim(s: string): string {
    TrimEnd(TrimStart(s))
  }

  /** `!s.trim()`: the string is empty after trimming. */
  predicate IsBlank(s: string) {
    Trim(s) == []
  }

  /** A string is blank exactly when every character is whitespace. */
  lemma BlankIffAllWhite(s: string)
    ensures IsBlank(s) <==> forall i :: 0 <= i < |s| ==> IsWhite(s[i])
  {
    var t := TrimStart(s);
    if IsBlank(s) {
      assert t == [];
    }
  }

  /** Case does not change blankness: strings equal up to case are blank together. */
  lemma BlankIgnoresCase(a: string, b: string)
    requires ToLower(a) == ToLower(b)
    ensures IsBlank(a) == IsBlank(b)
  {
    BlankIffAllWhite(a);
    BlankIffAllWhite(b);
    assert |a| == |b|;
    forall i | 0 <= i < |a| ensures IsWhite(a[i]) == IsWhite(b[i]) {
      assert ToLower(a)[i] == ToLower(b)[i];
      WhiteIgnoresCase(a[i], b[i]);
    }
  }

  /** Only letters change case, and no letter is whitespace. */
  lemma WhiteIgnoresCase(c: char, d: char)
    requires LowerChar(c) == LowerChar(d)
    ensures IsWhite(c) == IsWhite(d)
  {
    if 'A' <= c <= 'Z' {
      assert !IsWhite(c) && !IsWhite(d);
    } else if 'A' <= d <= 'Z' {
      assert !IsWhite(c) && !IsWhite(d);
    } else {
      assert c == d;
    }
  }

  /* ---------- searching ---------- */

  /** `t` occurs in `s` at position `j`. */
  predicate OccursAt(s: string, t: string, j: int) {
    0 <= j && j + |t| <= |s| && s[j..j + |t|] == t
  }

  /** `s.indexOf(t, from)`: the first occurrence of `t` at or after `from`. */
  function IndexOfFrom(s: string, t: string, from: nat): (r: Option<nat>)
    requires from <= |s|
    ensures r.Some? ==> from <= r.value && OccursAt(s, t, r.value)
    ensures r.Some? ==> forall j :: from <= j < r.value ==> !OccursAt(s, t, j)
    ensures r.None? ==> forall j :: from <= j ==> !OccursAt(s, t, j)
    decreases |s| - from
  {
    if from + |t| > |s| then None
    else if s[from..from + |t|] == t then Some(from)
    else IndexOfFrom(s, t, from + 1)
  }

  /** `s.indexOf(t)`, with -1 as None. */
  function IndexOf(s: string, t: string): (r: Option<nat>)
    ensures r.Some? ==> OccursAt(s, t, r.value) && forall j :: 0 <= j < r.value ==> !OccursAt(s, t, j)
    ensures r.None? <==> forall j :: !OccursAt(s, t, j)
  {
    IndexOfFrom(s, t, 0)
  }

  /** `s.includes(t)`. */
  predicate Contains(s: string, t: string) {
    IndexOf(s, t).Some?
  }

  /** `s.toLowerCase().includes(t.toLowerCase())`. */
  predicate ContainsIgnoreCase(s: string, t: string) {
    Contains(ToLower(s), ToLower(t))
  }

  /** Whatever occurs in a substring of `s` occurs in `s`. */
  lemma ContainsTransitive(s: string, t: string, u: string, k: nat)
    requires Contains(s, t) && OccursAt(t, u, k)
    ensures Contains(s, u)
  {
    var j := IndexOf(s, t).value;
    assert s[j..j + |t|] == t;
    forall m | 0 <= m < |u|
      ensures s[j + k + m] == u[m]
    {
      assert u[m] == t[k..k + |u|][m] == t[k + m];
      assert t[k + m] == s[j..j + |t|][k + m] == s[j + k + m];
    }
    assert s[j + k..j + k + |u|] == u;
    assert OccursAt(s, u, j + k);
  }

  /** `s.startsWith(p)`. */
  predicate StartsWith(s: string, p: string) {
    |p| <= |s| && s[..|p|] == p
  }

  /* ---------- URI encoding ---------- */

  /** The characters `encodeURIComponent` leaves as they are. */
  predicate UriUnreserved(c: char) {
    ('A' <= c <= 'Z') || ('a' <= c <= 'z') || ('0' <= c <= '9')
    || c == '-' || c == '_' || c == '.' || c == '!' || c == '~' || c == '*' || c == '\'' || c == '(' || c == ')'
  }

  predicate UpperHexDigit(c: char) {
    ('0' <= c <= '9') || ('A' <= c <= 'F')
  }

  /** The UTF-8 encoding of one code point, as bytes. */
  function Utf8(c: char): (bytes: seq<int>)
    ensures 1 <= |bytes| <= 4
    ensures forall i :: 0 <= i < |bytes| ==> 0 <= bytes[i] < 256
    ensures c as int < 0x80 ==> bytes == [c as int]
  {
    var cp := c as int;
    if cp < 0x80 then [cp]
    else if cp < 0x800 then [0xC0 + cp / 64, 0x80 + cp % 64]
    else if cp < 0x10000 then [0xE0 + cp / 4096, 0x80 + (cp / 64) % 64, 0x80 + cp % 64]
    else [0xF0 + cp / 262144, 0x80 + (cp / 4096) % 64, 0x80 + (cp / 64) % 64, 0x80 + cp % 64]
  }

  function HexUpper(d: int): (c: char)
    requires 0 <= d < 16
    ensures UpperHexDigit(c)
  {
    if d < 10 then ('0' as int + d) as char else ('A' as int + d - 10) as char
  }

  /** `%XX` for one byte, in upper-case hexadecimal. */
  function PercentBytes(bytes: seq<int>): (r: string)
    requires forall i :: 0 <= i < |bytes| ==> 0 <= bytes[i] < 256
    ensures |r| == 3 * |bytes|
    ensures forall i :: 0 <= i < |r| ==> (if i % 3 == 0 then r[i] == '%' else UpperHexDigit(r[i]))
  {
    if bytes == [] then ""
    else
      var rest := PercentBytes(bytes[1..]);
      var head := ['%', HexUpper(bytes[0] / 16), HexUpper(bytes[0] % 16)];
      assert forall i :: 3 <= i < 3 + |rest| ==> (head + rest)[i] == rest[i - 3];
      head + rest
  }

  function EncodeChar(c: char): string {
    if UriUnreserved(c) then [c] else PercentBytes(Utf8(c))
  }

  /** `encodeURIComponent(s)`: every character outside the unreserved set becomes its UTF-8 bytes as `%XX`. */
  function EncodeUriComponent(s: string): (r: string)
    ensures forall i :: 0 <= i < |r| ==> UriUnreserved(r[i]) || r[i] == '%' || UpperHexDigit(r[i])
  {
    if s == [] then ""
    else
      var head, rest := EncodeChar(s[0]), EncodeUriComponent(s[1..]);
      assert forall i :: |head| <= i < |head| + |rest| ==> (head + rest)[i] == rest[i - |head|];
      head + rest
  }

  /** A string of unreserved characters is its own encoding. */
  lemma {:induction false} UnreservedUnencoded(s: string)
    requires forall i :: 0 <= i < |s| ==> UriUnreserved(s[i])
    ensures EncodeUriComponent(s) == s
  {
    if s != [] {
      UnreservedUnencoded(s[1..]);
    }
  }

  /** Encoding works character by character, so it distributes over concatenation. */
  lemma {:induction false} EncodeAppend(a: string, b: string)
    ensures EncodeUriComponent(a + b) == EncodeUriComponent(a) + EncodeUriComponent(b)
  {
    if a == [] {
      assert a + b == b;
    } else {
      assert (a + b)[0] == a[0] && (a + b)[1..] == a[1..] + b;
      EncodeAppend(a[1..], b);
      calc {
        EncodeUriComponent(a + b);
        EncodeChar(a[0]) + EncodeUriComponent(a[1..] + b);
        EncodeChar(a[0]) + (EncodeUriComponent(a[1..]) + EncodeUriComponent(b));
        (EncodeChar(a[0]) + EncodeUriComponent(a[1..])) + EncodeUriComponent(b);
        EncodeUriComponent(a) + EncodeUriComponent(b);
      }
    }
  }

  /** A space is sent as `%20`. */
  lemma EncodeSpaceExample()
    ensures EncodeUriComponent(" ") == "%20"
  {
    assert EncodeChar(' ') == "%20";
  }

  /** A letter outside ASCII is sent as its two UTF-8 bytes. */
  lemma EncodeTwoByteExample()
    ensures EncodeUriComponent("\U{00E9}") == "%C3%A9"
  {
    assert Utf8('\U{00E9}') == [0xC3, 0xA9];
    assert EncodeChar('\U{00E9}') == "%C3%A9";
  }

  /* ---------- numbers ---------- */

  function DigitChar(d: nat): char
    requires d < 10
  {
    ('0' as int + d) as char
  }

  predicate IsDigit(c: char) {
    '0' <= c <= '9'
  }

  predicate AllDigits(s: string) {
    forall i :: 0 <= i < |s| ==> IsDigit(s[i])
  }

  /** The decimal numeral of `n`, as `String(n)` writes it. */
  function NatToString(n: nat): (r: string)
    ensures |r| >= 1 && AllDigits(r)
    ensures n < 10 <==> |r| == 1
    ensures n < 100 ==> |r| <= 2
  {
    if n < 10 then [DigitChar(n)] else NatToString(n / 10) + [DigitChar(n % 10)]
  }

  /** `String(i)` for an integer, with a leading `-` for negatives. */
  function IntToString(i: int): string {
    if i < 0 then "-" + NatToString(-i) else NatToString(i)
  }

  /** The value of a string of decimal digits (the inverse of NatToString). */
  function Value(s: string): nat
    requires AllDigits(s)
  {
    if s == [] then 0 else 10 * Value(s[..|s| - 1]) + (s[|s| - 1] as int - '0' as int)
  }

  lemma {:induction false} ValueOfNatToString(n: nat)
    ensures Value(NatToString(n)) == n
  {
    if n >= 10 {
      var s := NatToString(n);
      assert s[..|s| - 1] == NatToString(n / 10);
      ValueOfNatToString(n / 10);
    }
  }

  /** `s.padStart(2, "0")` for a non-empty string. */
  function PadStart2(s: string): (r: string)
    requires |s| >= 1
    ensures |r| == if |s| < 2 then 2 else |s|
  {
    if |s| < 2 then "0" + s else s
  }

  lemma {:induction false} ValueIgnoresLeadingZero(s: string)
    requires AllDigits(s)
    ensures AllDigits("0" + s) && Value("0" + s) == Value(s)
  {
    if s != [] {
      assert ("0" + s)[..|"0" + s| - 1] == "0" + s[..|s| - 1];
      ValueIgnoresLeadingZero(s[..|s| - 1]);
    }
  }

  /**
   * `${Math.floor(t / 60)}:${(t % 60).toString().padStart(2, '0')}`:
   * whole minutes, a colon, and the seconds as two digits.
   */
  function FormatMinSec(t: nat): (r: string)
    ensures |r| >= 4 && r[|r| - 3] == ':'
    ensures AllDigits(r[..|r| - 3]) && AllDigits(r[|r| - 2..])
  {
    NatToString(t / 60) + ":" + PadStart2(NatToString(t % 60))
  }

  /** Reads an `m:ss` label back into seconds; None when it is not one. */
  function ParseMinSec(r: string): Option<nat> {
    if |r| >= 4 && r[|r| - 3] == ':' && AllDigits(r[..|r| - 3]) && AllDigits(r[|r| - 2..])
       && Value(r[|r| - 2..]) < 60
    then Some(60 * Value(r[..|r| - 3]) + Value(r[|r| - 2..]))
    else None
  }

  /** An `m:ss` label loses nothing: reading it back gives the seconds. */
  lemma FormatMinSecRoundTrip(t: nat)
    ensures ParseMinSec(FormatMinSec(t)) == Some(t)
  {
    var m := NatToString(t / 60);
    var s := NatToString(t % 60);
    var r := FormatMinSec(t);
    assert r[..|r| - 3] == m;
    assert r[|r| - 2..] == PadStart2(s);
    ValueOfNatToString(t / 60);
    ValueOfNatToString(t % 60);
    if |s| < 2 { ValueIgnoresLeadingZero(s); }
  }
}
