/** String helpers the services rely on: `startsWith`, the two length measures of a
    string (`String.length` counts UTF-16 code units, `new Blob([s]).size` counts UTF-8
    bytes), the decimal text of an integer (`${n}` for a `getTime()` value and the
    inverse parse), and `split`/`join` on one separator character. */
module Text {
  import opened Types

  predicate StartsWith(s: string, prefix: string) {
    |prefix| <= |s| && s[..|prefix|] == prefix
  }

  // ---------------------------------------------------------------------------
  // Length measures

  /** Code units one character takes in UTF-16: two for characters beyond the BMP. */
  function Utf16Units(c: char): nat {
    if c as int > 0xFFFF then 2 else 1
  }

  /** `s.length` in JavaScript. */
  function Utf16Length(s: string): (n: nat)
    ensures |s| <= n <= 2 * |s|
  {
    if s == [] then 0 else Utf16Units(s[0]) + Utf16Length(s[1..])
  }

  /** Bytes one character takes in UTF-8. */
  function Utf8Bytes(c: char): nat {
    if c as int < 0x80 then 1
    else if c as int < 0x800 then 2
    else if c as int < 0x10000 then 3
    else 4
  }

  /** The byte size of `new Blob([s])`, which encodes `s` as UTF-8. It is never below
      the UTF-16 length `String.length` reports, and at most four bytes per character. */
  function Utf8Length(s: string): (n: nat)
    ensures Utf16Length(s) <= n <= 4 * |s|
  {
    if s == [] then 0 else Utf8Bytes(s[0]) + Utf8Length(s[1..])
  }

  predicate IsAscii(s: string) {
    forall i :: 0 <= i < |s| ==> s[i] as int < 0x80
  }

  lemma {:induction false} Utf8LengthOfAscii(s: string)
    requires IsAscii(s)
    ensures Utf8Length(s) == |s| == Utf16Length(s)
  {
    if s != [] {
      Utf8LengthOfAscii(s[1..]);
    }
  }

  lemma {:induction false} Utf8LengthAppend(s: string, t: string)
    ensures Utf8Length(s + t) == Utf8Length(s) + Utf8Length(t)
  {
    if s == [] {
      assert s + t == t;
    } else {
      assert (s + t)[0] == s[0] && (s + t)[1..] == s[1..] + t;
      Utf8LengthAppend(s[1..], t);
    }
  }

  /** A string with a character outside ASCII takes strictly more UTF-8 bytes than
      UTF-16 code units, so a budget counted in `String.length` under-counts it. */
  lemma {:induction false} Utf8ExceedsUtf16WhenNotAscii(s: string)
    requires !IsAscii(s)
    ensures Utf16Length(s) < Utf8Length(s)
  {
    if s[0] as int < 0x80 {
      assert !IsAscii(s[1..]) by {
        var i :| 0 <= i < |s| && s[i] as int >= 0x80;
        assert s[1..][i - 1] == s[i];
      }
      Utf8ExceedsUtf16WhenNotAscii(s[1..]);
    }
  }

  // ---------------------------------------------------------------------------
  // Decimal text of integers

  predicate IsDigit(c: char) {
    '0' <= c <= '9'
  }

  predicate AllDigits(s: string) {
    forall i :: 0 <= i < |s| ==> IsDigit(s[i])
  }

  function DigitChar(d: nat): (c: char)
    requires d < 10
    ensures IsDigit(c)
  {
    ('0' as int + d) as char
  }

  function DigitValue(c: char): (d: nat)
    requires IsDigit(c)
    ensures d < 10
  {
    c as int - '0' as int
  }

  /** The decimal digits of `n`, most significant first, without leading zeros. */
  function NatDigits(n: nat): (r: string)
    ensures r != [] && AllDigits(r)
    ensures r[0] == '0' ==> n == 0
  {
    if n < 10 then [DigitChar(n)] else NatDigits(n / 10) + [DigitChar(n % 10)]
  }

  /** The number a string of decimal digits denotes. */
  function DigitsValue(ds: string): nat
    requires AllDigits(ds)
  {
    if ds == [] then 0 else DigitsValue(ds[..|ds| - 1]) * 10 + DigitValue(ds[|ds| - 1])
  }

  lemma {:induction false} DigitsValueOfNatDigits(n: nat)
    ensures DigitsValue(NatDigits(n)) == n
  {
    if n >= 10 {
      var ds := NatDigits(n / 10);
      DigitsValueOfNatDigits(n / 10);
      assert (ds + [DigitChar(n % 10)])[..|ds|] == ds;
    }
  }

  /** Length of the run of digits at the front of `s`. */
  function DigitSpan(s: string): (k: nat)
    ensures k <= |s|
    ensures forall i :: 0 <= i < k ==> IsDigit(s[i])
    ensures k < |s| ==> !IsDigit(s[k])
  {
    if s != [] && IsDigit(s[0]) then 1 + DigitSpan(s[1..]) else 0
  }

  lemma {:induction false} DigitSpanAppend(ds: string, rest: string)
    requires AllDigits(ds) && NumberEnds(rest)
    ensures DigitSpan(ds + rest) == |ds|
  {
    if ds == [] {
      assert ds + rest == rest;
    } else {
      assert (ds + rest)[0] == ds[0] && (ds + rest)[1..] == ds[1..] + rest;
      DigitSpanAppend(ds[1..], rest);
    }
  }

  /** Reads a non-empty run of digits; the rest of the text is returned with it. */
  function ParseNat(s: string): (r: Option<(nat, string)>)
    ensures r.Some? ==> |r.value.1| < |s|
  {
    var k := DigitSpan(s);
    if k == 0 then None else Some((DigitsValue(s[..k]), s[k..]))
  }

  /** `${n}` for an integer `n`. */
  function RenderInt(n: int): string {
    if n < 0 then "-" + NatDigits(-n) else NatDigits(n)
  }

  function ParseInt(s: string): (r: Option<(int, string)>)
    ensures r.Some? ==> |r.value.1| < |s|
  {
    if s != [] && s[0] == '-' then
      match ParseNat(s[1..])
      case None => None
      case Some((v, rest)) => Some((-(v as int), rest))
    else ParseNat(s)
  }

  /** What may follow a number so that its digits end where the number does. */
  predicate NumberEnds(rest: string) {
    rest == [] || !IsDigit(rest[0])
  }

  lemma {:induction false} ParseNatRoundTrip(n: nat, rest: string)
    requires NumberEnds(rest)
    ensures ParseNat(NatDigits(n) + rest) == Some((n, rest))
  {
    var ds := NatDigits(n);
    var s := ds + rest;
    DigitSpanAppend(ds, rest);
    assert s[..|ds|] == ds && s[|ds|..] == rest;
    DigitsValueOfNatDigits(n);
  }

  lemma {:induction false} ParseIntRoundTrip(n: int, rest: string)
    requires NumberEnds(rest)
    ensures ParseInt(RenderInt(n) + rest) == Some((n, rest))
  {
    if n < 0 {
      var ds := NatDigits(-n);
      var s := "-" + ds + rest;
      assert RenderInt(n) + rest == s;
      assert s[0] == '-' && s[1..] == ds + rest;
      ParseNatRoundTrip(-n, rest);
      assert ParseNat(s[1..]) == Some((-n, rest));
    } else {
      var ds := NatDigits(n);
      var s := ds + rest;
      assert RenderInt(n) + rest == s;
      assert s[0] == ds[0] && IsDigit(ds[0]);
      ParseNatRoundTrip(n, rest);
      assert ParseNat(s) == Some((n, rest));
    }
  }

  // ---------------------------------------------------------------------------
  // Date text

  /** The text a `Date` is stored as. The model writes the millisecond count in
      decimal; the calendar layout of an ISO-8601 string is not modelled. */
  function RenderDate(t: Timestamp): string {
    RenderInt(t)
  }

  /** `new Date(text).getTime()`; `None` stands for an invalid date. */
  function ParseDate(text: string): Option<Timestamp> {
    match ParseInt(text)
    case Some((t, rest)) => if rest == [] then Some(t) else None
    case None => None
  }

  lemma DateRoundTrip(t: Timestamp)
    ensures ParseDate(RenderDate(t)) == Some(t)
  {
    ParseIntRoundTrip(t, []);
    assert RenderInt(t) + [] == RenderInt(t);
  }

  // ---------------------------------------------------------------------------
  // split / join on one separator character

  /** Position of the first `c` in `s`. */
  function IndexOf(s: string, c: char): (i: nat)
    requires c in s
    ensures i < |s| && s[i] == c && c !in s[..i]
  {
    if s[0] == c then 0
    else
      var j := IndexOf(s[1..], c);
      assert s[..j + 1] == [s[0]] + s[1..][..j];
      j + 1
  }

  /** `s.split(sep)`: the pieces between separators, empty pieces included. */
  function Split(s: string, sep: char): (parts: seq<string>)
    ensures |parts| >= 1
    ensures forall i :: 0 <= i < |parts| ==> sep !in parts[i]
    decreases |s|
  {
    if sep !in s then [s]
    else
      var i := IndexOf(s, sep);
      [s[..i]] + Split(s[i + 1..], sep)
  }

  /** `parts.join(sep)`. */
  function Join(parts: seq<string>, sep: char): string {
    if parts == [] then ""
    else if |parts| == 1 then parts[0]
    else parts[0] + [sep] + Join(parts[1..], sep)
  }

  lemma {:induction false} JoinSplit(s: string, sep: char)
    ensures Join(Split(s, sep), sep) == s
    decreases |s|
  {
    if sep in s {
      var i := IndexOf(s, sep);
      var tail := Split(s[i + 1..], sep);
      JoinSplit(s[i + 1..], sep);
      assert Split(s, sep)[1..] == tail;
      assert s == s[..i] + [sep] + s[i + 1..];
    }
  }

  lemma {:induction false} SplitJoin(parts: seq<string>, sep: char)
    requires |parts| >= 1
    requires forall i :: 0 <= i < |parts| ==> sep !in parts[i]
    ensures Split(Join(parts, sep), sep) == parts
  {
    if |parts| > 1 {
      var s := Join(parts, sep);
      var tail := Join(parts[1..], sep);
      assert s == parts[0] + [sep] + tail;
      assert s[|parts[0]|] == sep;
      var i := IndexOf(s, sep);
      assert i == |parts[0]|;
      assert s[..i] == parts[0];
      assert s[i + 1..] == tail;
      SplitJoin(parts[1..], sep);
    }
  }
}
