/** Percent-decoding of request paths, in place (http_api_server.cpp; RFC 3986 sections 2.1 and 2.4). */
module PercentDecoding {
  import opened Tasks

  type Byte = x: int | 0 <= x < 256

  const PERCENT: Byte := 37

  /** The value of a hexadecimal digit, in either case. */
  function Hex(c: Byte): Option<nat> {
    if 48 <= c <= 57 then Some(c - 48)
    else if 97 <= c <= 102 then Some(c - 97 + 10)
    else if 65 <= c <= 70 then Some(c - 65 + 10)
    else None
  }

  /** The byte written by two hexadecimal digits, if they are digits. */
  function HexPair(hi: Byte, lo: Byte): Option<Byte> {
    if Hex(hi).Some? && Hex(lo).Some? then Some(16 * Hex(hi).value + Hex(lo).value) else None
  }

  predicate StartsWithEscape(s: seq<Byte>) {
    |s| >= 3 && s[0] == PERCENT && HexPair(s[1], s[2]).Some?
  }

  /** One pass from the left: an escape becomes its byte, anything else stays. */
  function Decode(s: seq<Byte>): seq<Byte> {
    if s == [] then []
    else if StartsWithEscape(s) then [HexPair(s[1], s[2]).value] + Decode(s[3..])
    else [s[0]] + Decode(s[1..])
  }

  /** How many escapes the pass meets. */
  function Escapes(s: seq<Byte>): nat {
    if s == [] then 0 else if StartsWithEscape(s) then 1 + Escapes(s[3..]) else Escapes(s[1..])
  }

  lemma {:induction false} ShortIsUnchanged(s: seq<Byte>)
    requires |s| < 3
    ensures Decode(s) == s
  {
    if s != [] {
      ShortIsUnchanged(s[1..]);
    }
  }

  /** The string after the loop body has handled position i. */
  function Collapse(r: seq<Byte>, i: nat, b: Byte): seq<Byte>
    requires i + 2 < |r|
  {
    r[..i] + [b] + r[i + 3..]
  }

  lemma EscapeStep(r: seq<Byte>, i: nat)
    requires i + 2 < |r| && StartsWithEscape(r[i..])
    ensures var r' := Collapse(r, i, HexPair(r[i + 1], r[i + 2]).value);
      r'[..i + 1] + Decode(r'[i + 1..]) == r[..i] + Decode(r[i..])
  {
    var b := HexPair(r[i + 1], r[i + 2]).value;
    var r' := Collapse(r, i, b);
    assert r'[i + 1..] == r[i..][3..];
    assert r'[..i + 1] == r[..i] + [b];
    assert (r[..i] + [b]) + Decode(r'[i + 1..]) == r[..i] + ([b] + Decode(r'[i + 1..]));
  }

  lemma PlainStep(r: seq<Byte>, i: nat)
    requires i < |r| && !StartsWithEscape(r[i..])
    ensures r[..i + 1] + Decode(r[i + 1..]) == r[..i] + Decode(r[i..])
  {
    assert r[i + 1..] == r[i..][1..];
    assert r[..i + 1] == r[..i] + [r[i]];
    assert (r[..i] + [r[i]]) + Decode(r[i + 1..]) == r[..i] + ([r[i]] + Decode(r[i + 1..]));
  }

  /** The index loop overwrites and erases in place, and equals the one-pass decoder. */
  method UrlDecode(value: seq<Byte>) returns (r: seq<Byte>)
    ensures r == Decode(value)
  {
    r := value;
    var i := 0;
    while i + 2 < |r|
      invariant 0 <= i <= |r|
      invariant r[..i] + Decode(r[i..]) == Decode(value)
      decreases |r| - i
    {
      var hi, lo := Hex(r[i + 1]), Hex(r[i + 2]);
      if r[i] == PERCENT && hi.Some? && lo.Some? {
        EscapeStep(r, i);
        r := Overwrite(r, i, 16 * hi.value + lo.value);
      } else {
        PlainStep(r, i);
      }
      i := i + 1;
    }
    ShortIsUnchanged(r[i..]);
    assert r[..i] + r[i..] == r;
  }

  /** value[i] = b; value.erase(i + 1, 2). */
  method Overwrite(value: seq<Byte>, i: nat, b: Byte) returns (r: seq<Byte>)
    requires i + 2 < |value|
    ensures r == Collapse(value, i, b)
  {
    r := value[i := b];
    r := r[..i + 1] + r[i + 3..];
  }

  /** Each escape shortens the string by exactly two bytes; without one nothing changes. */
  lemma {:induction false} DecodeShortensByTwoPerEscape(s: seq<Byte>)
    ensures |Decode(s)| == |s| - 2 * Escapes(s)
    ensures Decode(s) == s <==> Escapes(s) == 0
  {
    if s == [] {
    } else if StartsWithEscape(s) {
      DecodeShortensByTwoPerEscape(s[3..]);
    } else {
      DecodeShortensByTwoPerEscape(s[1..]);
      assert s == [s[0]] + s[1..];
    }
  }

  // ---- Encoders ----

  /** e writes each byte of s either as itself, unless it is a percent sign, or as an escape in either case. */
  predicate IsEncoding(e: seq<Byte>, s: seq<Byte>) {
    if s == [] then e == []
    else
      || (|e| >= 1 && e[0] != PERCENT && e[0] == s[0] && IsEncoding(e[1..], s[1..]))
      || (StartsWithEscape(e) && HexPair(e[1], e[2]) == Some(s[0]) && IsEncoding(e[3..], s[1..]))
  }

  /** Every percent sign that the pass meets starts an escape. */
  predicate WellFormed(e: seq<Byte>) {
    if e == [] then true
    else if StartsWithEscape(e) then WellFormed(e[3..])
    else e[0] != PERCENT && WellFormed(e[1..])
  }

  /** Decoding inverts every encoder, and well-formed strings are exactly the encodings of what they decode to. */
  lemma {:induction false} DecodeInvertsExactlyTheEncodings(e: seq<Byte>, s: seq<Byte>)
    ensures IsEncoding(e, s) <==> WellFormed(e) && Decode(e) == s
  {
    if e == [] {
    } else if StartsWithEscape(e) {
      var d := Decode(e);
      assert d[1..] == Decode(e[3..]);
      if s != [] {
        DecodeInvertsExactlyTheEncodings(e[3..], s[1..]);
        assert s == [s[0]] + s[1..];
      }
    } else {
      var d := Decode(e);
      assert d[1..] == Decode(e[1..]);
      if s != [] {
        DecodeInvertsExactlyTheEncodings(e[1..], s[1..]);
        assert s == [s[0]] + s[1..];
      }
    }
  }

  // ---- Decoding in pieces ----

  /** All of s is the beginning of an escape. */
  predicate Dangling(s: seq<Byte>) {
    && 1 <= |s| <= 2 && s[0] == PERCENT
    && (|s| == 2 ==> Hex(s[1]).Some?)
  }

  /** The pass does not end inside what could become an escape. */
  predicate Whole(p: seq<Byte>) {
    if p == [] then true
    else if StartsWithEscape(p) then Whole(p[3..])
    else !Dangling(p) && Whole(p[1..])
  }

  lemma {:induction false} WellFormedIsWhole(p: seq<Byte>)
    requires WellFormed(p)
    ensures Whole(p)
  {
    if p == [] {
    } else if StartsWithEscape(p) {
      WellFormedIsWhole(p[3..]);
    } else {
      WellFormedIsWhole(p[1..]);
    }
  }

  lemma PlainWithMore(p: seq<Byte>, s: seq<Byte>)
    requires p != [] && !StartsWithEscape(p) && !Dangling(p)
    ensures !StartsWithEscape(p + s)
  {
  }

  lemma Prepend(x: Byte, a: seq<Byte>, b: seq<Byte>)
    ensures [x] + (a + b) == ([x] + a) + b
  {
  }

  lemma {:induction false} WholeComposes(p: seq<Byte>, s: seq<Byte>)
    requires Whole(p)
    ensures Decode(p + s) == Decode(p) + Decode(s)
  {
    if p == [] {
      assert p + s == s;
    } else if StartsWithEscape(p) {
      assert (p + s)[3..] == p[3..] + s;
      WholeComposes(p[3..], s);
      Prepend(HexPair(p[1], p[2]).value, Decode(p[3..]), Decode(s));
    } else {
      assert (p + s)[1..] == p[1..] + s;
      PlainWithMore(p, s);
      WholeComposes(p[1..], s);
      Prepend(p[0], Decode(p[1..]), Decode(s));
    }
  }

  /** Two digits after a dangling end complete an escape. */
  lemma {:induction false} DanglingDoesNotCompose(p: seq<Byte>, s: seq<Byte>)
    requires !Whole(p) && s == [48, 48]
    ensures |Decode(p + s)| < |Decode(p)| + |Decode(s)|
  {
    ShortIsUnchanged(s);
    if StartsWithEscape(p) {
      assert (p + s)[3..] == p[3..] + s;
      DanglingDoesNotCompose(p[3..], s);
    } else if Dangling(p) {
      ShortIsUnchanged(p);
      assert StartsWithEscape(p + s);
      DecodeShortensByTwoPerEscape(p + s);
    } else {
      assert (p + s)[1..] == p[1..] + s;
      PlainWithMore(p, s);
      DanglingDoesNotCompose(p[1..], s);
    }
  }

  /**
   A string can be decoded in pieces, whatever follows the first one, exactly when the first one does not end inside
   an escape; well-formed ones never do. So a decoded byte is never read again, not even a percent sign.
   */
  lemma DecodeComposesIff(p: seq<Byte>)
    ensures (forall s :: Decode(p + s) == Decode(p) + Decode(s)) <==> Whole(p)
    ensures WellFormed(p) ==> forall s :: Decode(p + s) == Decode(p) + Decode(s)
  {
    if WellFormed(p) {
      WellFormedIsWhole(p);
    }
    if Whole(p) {
      forall s ensures Decode(p + s) == Decode(p) + Decode(s) {
        WholeComposes(p, s);
      }
    } else {
      DanglingDoesNotCompose(p, [48, 48]);
      assert |Decode(p) + Decode([48, 48])| == |Decode(p)| + |Decode([48, 48])|;
    }
  }

  // ---- The full encoder ----

  /** RFC 3986 section 2.3: letters, digits, hyphen, period, underscore and tilde stand for themselves. */
  predicate Unreserved(b: Byte) {
    || 65 <= b <= 90 || 97 <= b <= 122 || 48 <= b <= 57
    || b == 45 || b == 46 || b == 95 || b == 126
  }

  function HexDigit(n: nat): (c: Byte)
    requires n < 16
    ensures Hex(c) == Some(n)
  {
    if n < 10 then 48 + n else 55 + n
  }

  /** The full encoder of section 2.1, with upper-case digits. */
  function Encode(s: seq<Byte>): seq<Byte> {
    if s == [] then []
    else (if Unreserved(s[0]) then [s[0]] else [PERCENT, HexDigit(s[0] / 16), HexDigit(s[0] % 16)]) + Encode(s[1..])
  }

  lemma {:induction false} EncodeIsAnEncoding(s: seq<Byte>)
    ensures IsEncoding(Encode(s), s)
  {
    if s != [] {
      EncodeIsAnEncoding(s[1..]);
      var e := Encode(s);
      if Unreserved(s[0]) {
        assert e[1..] == Encode(s[1..]);
      } else {
        assert e[3..] == Encode(s[1..]);
      }
    }
  }

  /** The round trip, on every byte string. */
  lemma {:induction false} DecodeEncode(s: seq<Byte>)
    ensures Decode(Encode(s)) == s
  {
    EncodeIsAnEncoding(s);
    DecodeInvertsExactlyTheEncodings(Encode(s), s);
  }

  // ---- Digits in either case ----

  const LOWER := "0123456789abcdef"
  const UPPER := "0123456789ABCDEF"

  lemma TablesByCases(n: nat)
    requires n < 16
    ensures LOWER[n] as int == if n < 10 then 48 + n else 87 + n
    ensures UPPER[n] as int == if n < 10 then 48 + n else 55 + n
  {
    if n < 8 {
      if n < 4 {
        assert n == 0 || n == 1 || n == 2 || n == 3;
      } else {
        assert n == 4 || n == 5 || n == 6 || n == 7;
      }
    } else if n < 12 {
      assert n == 8 || n == 9 || n == 10 || n == 11;
    } else {
      assert n == 12 || n == 13 || n == 14 || n == 15;
    }
  }

  /** Hexadecimal digit n, from one of the two tables. */
  function Digit(n: nat, upper: bool): Byte
    requires n < 16
  {
    TablesByCases(n);
    if upper then UPPER[n] as int else LOWER[n] as int
  }

  /** The two tables hold exactly the digits, each with its number. */
  lemma HexIsByTable(c: Byte)
    ensures forall n: nat, upper :: n < 16 && c == Digit(n, upper) ==> Hex(c) == Some(n)
    ensures Hex(c).Some? ==> Hex(c).value < 16 && exists upper :: c == Digit(Hex(c).value, upper)
  {
    forall n: nat, upper | n < 16 && c == Digit(n, upper) ensures Hex(c) == Some(n) {
      TablesByCases(n);
    }
    if Hex(c).Some? {
      TablesByCases(Hex(c).value);
      assert c == Digit(Hex(c).value, true) || c == Digit(Hex(c).value, false);
    }
  }

  /** A percent sign is no digit, so an escape is met by the pass whatever stands before it. */
  lemma {:induction false} PassStopsAtPercent(p: seq<Byte>, s: seq<Byte>)
    requires s != [] && s[0] == PERCENT
    ensures Decode(p + s) == Decode(p) + Decode(s)
  {
    if p == [] {
      assert p + s == s;
    } else if StartsWithEscape(p) {
      assert (p + s)[3..] == p[3..] + s;
      PassStopsAtPercent(p[3..], s);
      Prepend(HexPair(p[1], p[2]).value, Decode(p[3..]), Decode(s));
    } else {
      assert (p + s)[1..] == p[1..] + s;
      PlainBeforePercent(p, s);
      PassStopsAtPercent(p[1..], s);
      Prepend(p[0], Decode(p[1..]), Decode(s));
    }
  }

  lemma PlainBeforePercent(p: seq<Byte>, s: seq<Byte>)
    requires p != [] && !StartsWithEscape(p) && s != [] && s[0] == PERCENT
    ensures !StartsWithEscape(p + s)
  {
  }

  /** Wherever it stands, an escape is decoded to the byte its two digits denote, in whichever case they are written. */
  lemma EscapeIsItsByte(p: seq<Byte>, hi: Byte, lo: Byte, rest: seq<Byte>, n: nat, m: nat)
    requires n < 16 && m < 16 && exists upper :: hi == Digit(n, upper)
    requires exists upper :: lo == Digit(m, upper)
    ensures Decode(p + ([PERCENT, hi, lo] + rest)) == Decode(p) + ([16 * n + m] + Decode(rest))
  {
    var s := [PERCENT, hi, lo] + rest;
    HexIsByTable(hi);
    HexIsByTable(lo);
    assert s[3..] == rest;
    PassStopsAtPercent(p, s);
  }

  /** Replacing the digits of an escape by the same digits in the other case never changes the decoded string. */
  lemma DigitCaseDoesNotMatter(p: seq<Byte>, hi: Byte, lo: Byte, hi': Byte, lo': Byte, rest: seq<Byte>, n: nat, m: nat)
    requires n < 16 && m < 16 && exists upper :: hi == Digit(n, upper)
    requires exists upper :: hi' == Digit(n, upper)
    requires exists upper :: lo == Digit(m, upper)
    requires exists upper :: lo' == Digit(m, upper)
    ensures Decode(p + ([PERCENT, hi, lo] + rest)) == Decode(p + ([PERCENT, hi', lo'] + rest))
  {
    EscapeIsItsByte(p, hi, lo, rest, n, m);
    EscapeIsItsByte(p, hi', lo', rest, n, m);
  }

  /** Three bytes are an escape exactly when they are a percent sign and two digits of the tables. */
  lemma OnlyDigitsAreDecoded(hi: Byte, lo: Byte)
    ensures Decode([PERCENT, hi, lo]) != [PERCENT, hi, lo] <==>
      && (exists n: nat, upper :: n < 16 && hi == Digit(n, upper))
      && (exists n: nat, upper :: n < 16 && lo == Digit(n, upper))
  {
    HexIsByTable(hi);
    HexIsByTable(lo);
    DecodeShortensByTwoPerEscape([PERCENT, hi, lo]);
    if Hex(hi).Some? && Hex(lo).Some? {
      assert StartsWithEscape([PERCENT, hi, lo]);
    } else {
      NotAnEscape(hi, lo);
    }
  }

  lemma NotAnEscape(hi: Byte, lo: Byte)
    requires Hex(hi).None? || Hex(lo).None?
    ensures Decode([PERCENT, hi, lo]) == [PERCENT, hi, lo]
  {
    var s := [PERCENT, hi, lo];
    assert s[1..] == [hi, lo];
    ShortIsUnchanged(s[1..]);
    assert [PERCENT] + [hi, lo] == s;
  }

  /** How an encoder writes a byte: as itself, or as an escape with each digit in either case. */
  datatype Form = Itself | Escaped(upperHigh: bool, upperLow: bool)

  function Write(x: Byte, form: Form): seq<Byte> {
    match form
    case Itself => [x]
    case Escaped(high, low) => [PERCENT, Digit(x / 16, high), Digit(x % 16, low)]
  }

  /** An encoder that writes each byte in the form chosen for it. */
  function EncodeAs(s: seq<Byte>, forms: seq<Form>): seq<Byte>
    requires |forms| == |s|
  {
    if s == [] then [] else Write(s[0], forms[0]) + EncodeAs(s[1..], forms[1..])
  }

  lemma WrittenIsDecoded(x: Byte, form: Form, rest: seq<Byte>)
    requires form.Itself? ==> x != PERCENT
    ensures Decode(Write(x, form) + rest) == [x] + Decode(rest)
  {
    var e := Write(x, form) + rest;
    match form {
      case Itself =>
        assert e[1..] == rest;
      case Escaped(high, low) =>
        assert e[3..] == rest;
        HexIsByTable(e[1]);
        HexIsByTable(e[2]);
    }
  }

  /** The round trip for every such encoder that escapes the percent sign, on every byte string. */
  lemma {:induction false} DecodeEncodeAs(s: seq<Byte>, forms: seq<Form>)
    requires |forms| == |s| && forall i :: 0 <= i < |s| && forms[i].Itself? ==> s[i] != PERCENT
    ensures Decode(EncodeAs(s, forms)) == s
  {
    if s != [] {
      DecodeEncodeAs(s[1..], forms[1..]);
      WrittenIsDecoded(s[0], forms[0], EncodeAs(s[1..], forms[1..]));
      assert s == [s[0]] + s[1..];
    }
  }

  /** Section 2.4: decoding twice is not the same as decoding once. */
  lemma DecodingTwiceDiffers()
    ensures exists s :: Decode(Decode(s)) != Decode(s)
  {
    var inner: seq<Byte> := [PERCENT, 52, 49];
    var s := Encode(inner);
    DecodeEncode(inner);
    DecodeShortensByTwoPerEscape(inner);
    assert StartsWithEscape(inner);
  }
}
