/**
 * base64url without padding (section 2 and Appendix C of RFC 7515, alphabet of section 5 of RFC 4648).
 * Decoding restores the padding and then runs the lenient decoder of the source's standard library: it skips
 * characters outside the alphabet and stops at a complete padding.
 */
module Base64Url {
  import opened Wrappers

  type Byte = b: nat | b < 256

  function Symbol(v: nat): (c: char)
    requires v < 64
    ensures c != '=' && c != '.' && c as int < 128
    ensures SymbolValue(c) == Some(v)
  {
    if v < 26 then 'A' + v as char
    else if v < 52 then 'a' + (v - 26) as char
    else if v < 62 then '0' + (v - 52) as char
    else if v == 62 then '-' else '_'
  }

  /** The value of a character; the decoder also understands the `+` and `/` of the plain alphabet. */
  function SymbolValue(c: char): (v: Option<nat>)
    ensures v.Some? ==> v.value < 64
  {
    if 'A' <= c <= 'Z' then Some(c as int - 'A' as int)
    else if 'a' <= c <= 'z' then Some(c as int - 'a' as int + 26)
    else if '0' <= c <= '9' then Some(c as int - '0' as int + 52)
    else if c == '-' || c == '+' then Some(62)
    else if c == '_' || c == '/' then Some(63)
    else None
  }

  function EncodePadded(raw: seq<Byte>): string {
    if raw == [] then ""
    else if |raw| == 1 then [Symbol(raw[0] / 4), Symbol(raw[0] % 4 * 16), '=', '=']
    else if |raw| == 2 then [Symbol(raw[0] / 4), Symbol(raw[0] % 4 * 16 + raw[1] / 16), Symbol(raw[1] % 16 * 4), '=']
    else Quad(raw[0], raw[1], raw[2]) + EncodePadded(raw[3..])
  }

  function Quad(a: Byte, b: Byte, c: Byte): string {
    [Symbol(a / 4), Symbol(a % 4 * 16 + b / 16), Symbol(b % 16 * 4 + c / 64), Symbol(c % 64)]
  }

  function StripPadding(s: string): string {
    if s != "" && s[|s| - 1] == '=' then StripPadding(s[..|s| - 1]) else s
  }

  function Encode(raw: seq<Byte>): string {
    StripPadding(EncodePadded(raw))
  }

  function Padding(n: nat): string {
    seq(n, i => '=')
  }

  /** "=" * (-len(s) % 4), appended. */
  function RestorePadding(s: string): string {
    s + Padding((4 - |s| % 4) % 4)
  }

  /**
   * The decoder's state machine: how many of the four characters of a group it has seen, the bits left over
   * from the last of them, and how many padding characters followed. None is a decoding error.
   */
  function DecodeFrom(s: string, quad: nat, left: nat, pads: nat): Option<seq<Byte>>
    requires quad < 4 && (quad == 1 ==> left < 64) && (quad == 2 ==> left < 16) && (quad == 3 ==> left < 4)
  {
    if s == "" then if quad == 0 then Some([]) else None
    else if s[0] == '=' then
      if quad >= 2 && quad + pads + 1 >= 4 then Some([])
      else DecodeFrom(s[1..], quad, left, if quad >= 2 then pads + 1 else pads)
    else
      match SymbolValue(s[0])
      case None => DecodeFrom(s[1..], quad, left, pads)
      case Some(v) =>
        if quad == 0 then DecodeFrom(s[1..], 1, v, 0)
        else if quad == 1 then Emit(left * 4 + v / 16, DecodeFrom(s[1..], 2, v % 16, 0))
        else if quad == 2 then Emit(left * 16 + v / 4, DecodeFrom(s[1..], 3, v % 4, 0))
        else Emit(left * 64 + v, DecodeFrom(s[1..], 0, 0, 0))
  }

  function Emit(b: Byte, rest: Option<seq<Byte>>): Option<seq<Byte>> {
    if rest.Some? then Some([b] + rest.value) else None
  }

  function Decode(s: string): Option<seq<Byte>> {
    DecodeFrom(RestorePadding(s), 0, 0, 0)
  }

  // ---------------------------------------------------------------------------------------------
  // Round trip
  // ---------------------------------------------------------------------------------------------

  /** The six-bit pieces of two neighbouring bytes, put together again. */
  lemma FirstTwo(a: Byte, b: Byte)
    ensures a % 4 * 16 + b / 16 < 64
    ensures a / 4 * 4 + (a % 4 * 16 + b / 16) / 16 == a
    ensures (a % 4 * 16 + b / 16) % 16 == b / 16
  {
    assert b / 16 < 16;
    assert a == a / 4 * 4 + a % 4;
  }

  lemma NextTwo(b: Byte, c: Byte)
    ensures b % 16 * 4 + c / 64 < 64
    ensures b / 16 * 16 + (b % 16 * 4 + c / 64) / 4 == b
    ensures (b % 16 * 4 + c / 64) % 4 == c / 64
    ensures c / 64 * 64 + c % 64 == c
  {
    assert c / 64 < 4;
    assert b == b / 16 * 16 + b % 16;
  }

  /** One data character, fed to the decoder in each of its four states. */
  lemma FeedFirst(v: nat, rest: string)
    requires v < 64
    ensures DecodeFrom([Symbol(v)] + rest, 0, 0, 0) == DecodeFrom(rest, 1, v, 0)
  {
    assert ([Symbol(v)] + rest)[1..] == rest;
  }

  lemma FeedSecond(v: nat, rest: string, left: nat, b: nat, next: nat)
    requires v < 64 && left < 64 && b == left * 4 + v / 16 && next == v % 16
    ensures DecodeFrom([Symbol(v)] + rest, 1, left, 0) == Emit(b, DecodeFrom(rest, 2, next, 0))
  {
    assert ([Symbol(v)] + rest)[1..] == rest;
  }

  lemma FeedThird(v: nat, rest: string, left: nat, b: nat, next: nat)
    requires v < 64 && left < 16 && b == left * 16 + v / 4 && next == v % 4
    ensures DecodeFrom([Symbol(v)] + rest, 2, left, 0) == Emit(b, DecodeFrom(rest, 3, next, 0))
  {
    assert ([Symbol(v)] + rest)[1..] == rest;
  }

  lemma FeedFourth(v: nat, rest: string, left: nat, b: nat)
    requires v < 64 && left < 4 && b == left * 64 + v
    ensures DecodeFrom([Symbol(v)] + rest, 3, left, 0) == Emit(b, DecodeFrom(rest, 0, 0, 0))
  {
    assert ([Symbol(v)] + rest)[1..] == rest;
  }

  lemma DecodeQuad(a: Byte, b: Byte, c: Byte, rest: string)
    ensures DecodeFrom(Quad(a, b, c) + rest, 0, 0, 0) == Emit(a, Emit(b, Emit(c, DecodeFrom(rest, 0, 0, 0))))
  {
    FirstTwo(a, b);
    NextTwo(b, c);
    var v0, v1, v2, v3 := a / 4, a % 4 * 16 + b / 16, b % 16 * 4 + c / 64, c % 64;
    FeedFour(v0, v1, v2, v3, rest, a, b, c, b / 16, c / 64);
    assert Quad(a, b, c) + rest == [Symbol(v0)] + ([Symbol(v1)] + ([Symbol(v2)] + ([Symbol(v3)] + rest)));
  }

  lemma FeedFour(v0: nat, v1: nat, v2: nat, v3: nat, rest: string, a: Byte, b: Byte, c: Byte, left2: nat, left3: nat)
    requires v0 < 64 && v1 < 64 && v2 < 64 && v3 < 64
    requires a == v0 * 4 + v1 / 16 && left2 == v1 % 16
    requires b == left2 * 16 + v2 / 4 && left3 == v2 % 4
    requires c == left3 * 64 + v3
    ensures DecodeFrom([Symbol(v0)] + ([Symbol(v1)] + ([Symbol(v2)] + ([Symbol(v3)] + rest))), 0, 0, 0)
         == Emit(a, Emit(b, Emit(c, DecodeFrom(rest, 0, 0, 0))))
  {
    FeedFirst(v0, [Symbol(v1)] + ([Symbol(v2)] + ([Symbol(v3)] + rest)));
    FeedSecond(v1, [Symbol(v2)] + ([Symbol(v3)] + rest), v0, a, left2);
    FeedThird(v2, [Symbol(v3)] + rest, left2, b, left3);
    FeedFourth(v3, rest, left3, c);
  }

  /** A complete padding ends the text: "==" after two characters of a group, "=" after three. */
  lemma PaddingEnds(left: nat)
    ensures left < 16 ==> DecodeFrom("==", 2, left, 0) == Some([])
    ensures left < 4 ==> DecodeFrom("=", 3, left, 0) == Some([])
  {
    assert "=="[1..] == "=";
    if left < 16 {
      assert DecodeFrom("=", 2, left, 1) == Some([]);
    }
  }

  lemma FeedTwo(v0: nat, v1: nat, a: Byte)
    requires v0 < 64 && v1 < 64 && a == v0 * 4 + v1 / 16 && v1 % 16 == 0
    ensures DecodeFrom([Symbol(v0)] + ([Symbol(v1)] + "=="), 0, 0, 0) == Some([a])
  {
    FeedFirst(v0, [Symbol(v1)] + "==");
    FeedSecond(v1, "==", v0, a, 0);
    PaddingEnds(0);
    assert [a] + [] == [a];
  }

  lemma FeedThree(v0: nat, v1: nat, v2: nat, a: Byte, b: Byte, left2: nat)
    requires v0 < 64 && v1 < 64 && v2 < 64
    requires a == v0 * 4 + v1 / 16 && left2 == v1 % 16
    requires b == left2 * 16 + v2 / 4 && v2 % 4 == 0
    ensures DecodeFrom([Symbol(v0)] + ([Symbol(v1)] + ([Symbol(v2)] + "=")), 0, 0, 0) == Some([a, b])
  {
    FeedFirst(v0, [Symbol(v1)] + ([Symbol(v2)] + "="));
    FeedSecond(v1, [Symbol(v2)] + "=", v0, a, left2);
    FeedThird(v2, "=", left2, b, 0);
    PaddingEnds(0);
    assert [a] + ([b] + []) == [a, b];
  }

  lemma DecodeOne(raw: seq<Byte>)
    requires |raw| == 1
    ensures DecodeFrom(EncodePadded(raw), 0, 0, 0) == Some(raw)
  {
    FirstTwo(raw[0], 0);
    var v0, v1 := raw[0] / 4, raw[0] % 4 * 16;
    FeedTwo(v0, v1, raw[0]);
    assert raw == [raw[0]];
    assert EncodePadded(raw) == [Symbol(v0)] + ([Symbol(v1)] + "==");
  }

  lemma DecodeTwo(raw: seq<Byte>)
    requires |raw| == 2
    ensures DecodeFrom(EncodePadded(raw), 0, 0, 0) == Some(raw)
  {
    var a, b := raw[0], raw[1];
    FirstTwo(a, b);
    NextTwo(b, 0);
    var v0, v1, v2 := a / 4, a % 4 * 16 + b / 16, b % 16 * 4;
    FeedThree(v0, v1, v2, a, b, b / 16);
    assert raw == [a, b];
    assert EncodePadded(raw) == [Symbol(v0)] + ([Symbol(v1)] + ([Symbol(v2)] + "="));
  }

  /** A whole group in front of text that decodes. */
  lemma DecodeGroup(raw: seq<Byte>, text: string, rest: string)
    requires |raw| >= 3 && DecodeFrom(rest, 0, 0, 0) == Some(raw[3..])
    requires DecodeFrom(text, 0, 0, 0) == Emit(raw[0], Emit(raw[1], Emit(raw[2], DecodeFrom(rest, 0, 0, 0))))
    ensures DecodeFrom(text, 0, 0, 0) == Some(raw)
  {
    assert raw == [raw[0]] + ([raw[1]] + ([raw[2]] + raw[3..]));
  }

  lemma {:induction false} DecodePadded(raw: seq<Byte>)
    ensures DecodeFrom(EncodePadded(raw), 0, 0, 0) == Some(raw)
  {
    if |raw| == 0 {
    } else if |raw| == 1 {
      DecodeOne(raw);
    } else if |raw| == 2 {
      DecodeTwo(raw);
    } else {
      var rest := EncodePadded(raw[3..]);
      DecodePadded(raw[3..]);
      DecodeQuad(raw[0], raw[1], raw[2], rest);
      DecodeGroup(raw, EncodePadded(raw), rest);
    }
  }

  function PadCount(n: nat): nat {
    if n % 3 == 0 then 0 else 3 - n % 3
  }

  /** The first n characters are data, the rest is padding. */
  ghost predicate DataThenPadding(s: string, n: nat) {
    && n <= |s|
    && (forall i | 0 <= i < n :: s[i] != '=' && s[i] != '.' && s[i] as int < 128)
    && (forall i | n <= i < |s| :: s[i] == '=')
  }

  lemma PrependGroup(quad: string, rest: string, n: nat)
    requires DataThenPadding(rest, n)
    requires DataThenPadding(quad, |quad|)
    ensures DataThenPadding(quad + rest, |quad| + n)
  {
  }

  lemma OneGroupMore(n: nat)
    ensures PadCount(n + 3) == PadCount(n)
    ensures 4 * ((n + 3 + 2) / 3) == 4 * ((n + 2) / 3) + 4
  {
    assert (n + 3) % 3 == n % 3 && (n + 3 + 2) / 3 == (n + 2) / 3 + 1;
  }

  lemma ShortShape(raw: seq<Byte>)
    requires |raw| < 3
    ensures var s := EncodePadded(raw);
            && |s| == 4 * ((|raw| + 2) / 3)
            && PadCount(|raw|) <= |s|
            && DataThenPadding(s, |s| - PadCount(|raw|))
  {
    if |raw| == 1 {
      assert PadCount(1) == 2;
    } else if |raw| == 2 {
      assert PadCount(2) == 1;
    }
  }

  /** Which characters the padded text has: whole groups, padding only at the very end. */
  lemma {:induction false} PaddedShape(raw: seq<Byte>)
    ensures var s := EncodePadded(raw);
            && |s| == 4 * ((|raw| + 2) / 3)
            && PadCount(|raw|) <= |s|
            && DataThenPadding(s, |s| - PadCount(|raw|))
  {
    if |raw| < 3 {
      ShortShape(raw);
    } else {
      PaddedShape(raw[3..]);
      var rest := EncodePadded(raw[3..]);
      var m := |raw| - 3;
      assert |raw[3..]| == m;
      OneGroupMore(m);
      PrependGroup(Quad(raw[0], raw[1], raw[2]), rest, |rest| - PadCount(m));
    }
  }

  lemma {:induction false} StripPaddingExact(s: string, n: nat)
    requires n <= |s|
    requires forall i | n <= i < |s| :: s[i] == '='
    requires n > 0 ==> s[n - 1] != '='
    ensures StripPadding(s) == s[..n]
  {
    if |s| == n {
      assert s[..n] == s;
    } else {
      StripPaddingExact(s[..|s| - 1], n);
      assert s[..|s| - 1][..n] == s[..n];
    }
  }

  /** Lengths of padded and unpadded text for n bytes. */
  lemma Lengths(n: nat)
    ensures var padded, pads := 4 * ((n + 2) / 3), PadCount(n);
            && pads <= padded
            && padded - pads == (4 * n + 2) / 3
            && (padded - pads) % 4 != 1
            && (4 - (padded - pads) % 4) % 4 == pads
  {
    var k, r := n / 3, n % 3;
    assert n == 3 * k + r;
    if r == 0 {
      assert (n + 2) / 3 == k && (4 * n + 2) / 3 == 4 * k;
    } else if r == 1 {
      assert (n + 2) / 3 == k + 1 && (4 * n + 2) / 3 == 4 * k + 2;
    } else {
      assert (n + 2) / 3 == k + 1 && (4 * n + 2) / 3 == 4 * k + 3;
    }
  }

  lemma RestoreStripped(padded: string, n: nat)
    requires DataThenPadding(padded, n)
    requires (4 - n % 4) % 4 == |padded| - n
    ensures |StripPadding(padded)| == n
    ensures RestorePadding(StripPadding(padded)) == padded
    ensures forall c <- StripPadding(padded) :: c != '=' && c != '.' && c as int < 128
  {
    StripPaddingExact(padded, n);
    DataOnly(padded, n);
    DataRestores(padded, n);
  }

  lemma DataRestores(padded: string, n: nat)
    requires DataThenPadding(padded, n)
    requires (4 - n % 4) % 4 == |padded| - n
    ensures RestorePadding(padded[..n]) == padded
  {
    OnlyPadding(padded[n..]);
    assert padded == padded[..n] + padded[n..];
  }

  lemma DataOnly(padded: string, n: nat)
    requires DataThenPadding(padded, n)
    ensures forall c <- padded[..n] :: c != '=' && c != '.' && c as int < 128
  {
  }

  lemma OnlyPadding(s: string)
    requires forall i | 0 <= i < |s| :: s[i] == '='
    ensures s == Padding(|s|)
  {
  }

  /** Encoding strips exactly the padding that decoding restores; its text is never one character over whole groups. */
  lemma EncodeShape(raw: seq<Byte>)
    ensures var s := Encode(raw);
            && RestorePadding(s) == EncodePadded(raw)
            && |s| == (4 * |raw| + 2) / 3
            && |s| % 4 != 1
            && (forall c <- s :: c != '=' && c != '.' && c as int < 128)
  {
    PaddedShape(raw);
    StrippedShape(EncodePadded(raw), |raw|);
  }

  lemma StrippedShape(padded: string, n: nat)
    requires |padded| == 4 * ((n + 2) / 3) && PadCount(n) <= |padded|
    requires DataThenPadding(padded, |padded| - PadCount(n))
    ensures var s := StripPadding(padded);
            && RestorePadding(s) == padded
            && |s| == (4 * n + 2) / 3
            && |s| % 4 != 1
            && (forall c <- s :: c != '=' && c != '.' && c as int < 128)
  {
    Lengths(n);
    RestoreStripped(padded, |padded| - PadCount(n));
  }

  lemma RoundTrip(raw: seq<Byte>)
    ensures Decode(Encode(raw)) == Some(raw)
  {
    EncodeShape(raw);
    DecodePadded(raw);
  }
}
