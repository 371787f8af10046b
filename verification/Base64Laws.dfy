/** The text of encoded bytes, read as numbers: sections 4 and 5 of RFC 4648. */
module Base64Laws {
  import opened Wrappers
  import opened Base64Url

  /** The URL-safe alphabet: capital letters, small letters, digits, hyphen and underscore, in this order. */
  lemma Alphabet(v: nat)
    requires v < 64
    ensures v < 26 ==> Symbol(v) as int == 65 + v
    ensures 26 <= v < 52 ==> Symbol(v) as int == 97 + (v - 26)
    ensures 52 <= v < 62 ==> Symbol(v) as int == 48 + (v - 52)
    ensures v == 62 ==> Symbol(v) == '-'
    ensures v == 63 ==> Symbol(v) == '_'
  {
  }

  type Digit = v: nat | v < 64

  /**
   * Three bytes are one number of twenty-four bits. The encoding starts with the four digits of that number in
   * base 64, most significant first, and the rest is encoded on its own.
   */
  lemma GroupSpells(a: nat, b: nat, c: nat, rest: seq<Byte>) returns (v0: Digit, v1: Digit, v2: Digit, v3: Digit)
    requires a < 256 && b < 256 && c < 256
    ensures EncodePadded([a, b, c] + rest) == [Symbol(v0), Symbol(v1), Symbol(v2), Symbol(v3)] + EncodePadded(rest)
    ensures (a * 256 + b) * 256 + c == ((v0 * 64 + v1) * 64 + v2) * 64 + v3
  {
    v0, v1, v2, v3 := Pieces(a, b, c);
    assert ([a, b, c] + rest)[3..] == rest;
  }

  /** The number cut into pieces of six bits. */
  lemma Pieces(a: nat, b: nat, c: nat) returns (v0: Digit, v1: Digit, v2: Digit, v3: Digit)
    requires a < 256 && b < 256 && c < 256
    ensures v0 == a / 4 && v1 == a % 4 * 16 + b / 16 && v2 == b % 16 * 4 + c / 64 && v3 == c % 64
    ensures (a * 256 + b) * 256 + c == ((v0 * 64 + v1) * 64 + v2) * 64 + v3
  {
    PieceBounds(a, b);
    PieceBounds(b, c);
    v0, v1, v2, v3 := a / 4, a % 4 * 16 + b / 16, b % 16 * 4 + c / 64, c % 64;
    GroupNumber(a, b, c, v0, v1, v2, v3);
  }

  lemma PieceBounds(a: nat, b: nat)
    requires a < 256 && b < 256
    ensures a / 4 < 64 && a % 4 * 16 + b / 16 < 64 && a % 16 * 4 + b / 64 < 64 && b % 64 < 64
  {
  }

  lemma GroupNumber(a: nat, b: nat, c: nat, v0: nat, v1: nat, v2: nat, v3: nat)
    requires v0 == a / 4 && v1 == a % 4 * 16 + b / 16 && v2 == b % 16 * 4 + c / 64 && v3 == c % 64
    ensures (a * 256 + b) * 256 + c == ((v0 * 64 + v1) * 64 + v2) * 64 + v3
  {
    assert a == a / 4 * 4 + a % 4 && b == b / 16 * 16 + b % 16 && c == c / 64 * 64 + c % 64;
  }

  /** One byte left over is filled up with four zero bits, and padded. */
  lemma OneByteSpells(a: nat) returns (v0: Digit, v1: Digit)
    requires a < 256
    ensures EncodePadded([a]) == [Symbol(v0), Symbol(v1), '=', '=']
    ensures a * 16 == v0 * 64 + v1
  {
    v0, v1 := a / 4, a % 4 * 16;
  }

  /** Two bytes left over are filled up with two zero bits, and padded. */
  lemma TwoBytesSpell(a: nat, b: nat) returns (v0: Digit, v1: Digit, v2: Digit)
    requires a < 256 && b < 256
    ensures EncodePadded([a, b]) == [Symbol(v0), Symbol(v1), Symbol(v2), '=']
    ensures (a * 256 + b) * 4 == (v0 * 64 + v1) * 64 + v2
  {
    var v3: Digit;
    v0, v1, v2, v3 := Pieces(a, b, 0);
  }

  /** What is sent is the padded text without its padding. */
  lemma EncodedIsPrefix(raw: seq<Byte>) returns (padding: string)
    ensures EncodePadded(raw) == Encode(raw) + padding
    ensures forall c <- padding :: c == '='
  {
    PaddedShape(raw);
    var padded := EncodePadded(raw);
    var n := |padded| - PadCount(|raw|);
    StripPaddingExact(padded, n);
    padding := padded[n..];
    assert padded == padded[..n] + padded[n..];
  }

  // ---------------------------------------------------------------------------------------------
  // Decoding what nobody encoded
  // ---------------------------------------------------------------------------------------------

  /** The decoder reads the two last digits in both alphabets, and no other character has a value. */
  lemma ValueOf(c: char)
    ensures var n := c as int;
            SymbolValue(c) == if 65 <= n <= 90 then Some(n - 65)
                              else if 97 <= n <= 122 then Some(n - 71)
                              else if 48 <= n <= 57 then Some(n + 4)
                              else if n == 45 || n == 43 then Some(62)
                              else if n == 95 || n == 47 then Some(63)
                              else None
  {
  }

  /** A text is filled up with equals signs to a multiple of four. */
  lemma FilledUp(s: string) returns (padding: string)
    ensures RestorePadding(s) == s + padding && |padding| < 4 && (|s| + |padding|) % 4 == 0
    ensures forall c <- padding :: c == '='
  {
    padding := RestorePadding(s)[|s|..];
  }

  /** Between groups a character without a value is skipped, an equals sign as well; inside a group only the former. */
  lemma Skipped(c: char, s: string, quad: nat, left: nat, pads: nat)
    requires quad < 4 && (quad == 1 ==> left < 64) && (quad == 2 ==> left < 16) && (quad == 3 ==> left < 4)
    requires SymbolValue(c).None?
    ensures c != '=' || quad < 2 ==> DecodeFrom([c] + s, quad, left, pads) == DecodeFrom(s, quad, left, pads)
  {
    assert ([c] + s)[1..] == s;
  }

  ghost predicate Spells(c: char, v: nat) { SymbolValue(c) == Some(v) }

  /** Four digits are one number of twenty-four bits, which three bytes make up; the rest is read on its own. */
  lemma GroupRead(c0: char, c1: char, c2: char, c3: char, v0: Digit, v1: Digit, v2: Digit, v3: Digit, s: string, pads: nat)
    returns (a: Byte, b: Byte, c: Byte)
    requires Spells(c0, v0) && Spells(c1, v1) && Spells(c2, v2) && Spells(c3, v3)
    ensures DecodeFrom([c0, c1, c2, c3] + s, 0, 0, pads) ==
              match DecodeFrom(s, 0, 0, 0)
              case Some(bytes) => Some([a, b, c] + bytes)
              case None => None
    ensures (a as int * 256 + b) * 256 + c == ((v0 * 64 + v1) * 64 + v2) * 64 + v3
  {
    a, b := TwoDigits(v0, v1), ThirdDigit(v1, v2);
    c := v2 % 4 * 64 + v3;
    ThreeDigits(c0, c1, c2, v0, v1, v2, [c3] + s, pads);
    Regroup(c0, c1, c2, c3, s);
    LastDigit(c3, v2, v3, s);
    if DecodeFrom(s, 0, 0, 0).Some? {
      Collected(a, b, c, DecodeFrom(s, 0, 0, 0).value);
    }
    GroupSum(v0, v1, v2, v3);
  }

  lemma Regroup(c0: char, c1: char, c2: char, c3: char, s: string)
    ensures [c0, c1, c2] + ([c3] + s) == [c0, c1, c2, c3] + s
    ensures [c0, c1] + ([c2, c3] + s) == [c0, c1, c2, c3] + s
  {
  }

  lemma Collected(a: Byte, b: Byte, c: Byte, bytes: seq<Byte>)
    ensures [a] + ([b] + ([c] + bytes)) == [a, b, c] + bytes
    ensures [a] + ([b] + []) == [a, b]
    ensures [a] + [] == [a]
  {
  }

  function TwoDigits(v0: Digit, v1: Digit): Byte { v0 * 4 + v1 / 16 }

  function ThirdDigit(v1: Digit, v2: Digit): Byte { v1 % 16 * 16 + v2 / 4 }

  lemma GroupSum(v0: Digit, v1: Digit, v2: Digit, v3: Digit)
    ensures (TwoDigits(v0, v1) as int * 256 + ThirdDigit(v1, v2)) * 256 + (v2 % 4 * 64 + v3)
         == ((v0 * 64 + v1) * 64 + v2) * 64 + v3
  {
    assert v1 == v1 / 16 * 16 + v1 % 16 && v2 == v2 / 4 * 4 + v2 % 4;
  }

  lemma FirstDigit(c: char, v: Digit, s: string, pads: nat)
    requires Spells(c, v)
    ensures DecodeFrom([c] + s, 0, 0, pads) == DecodeFrom(s, 1, v, 0)
  {
    assert ([c] + s)[1..] == s;
  }

  lemma SecondDigit(c: char, before: Digit, v: Digit, s: string)
    requires Spells(c, v)
    ensures DecodeFrom([c] + s, 1, before, 0) == Emit(TwoDigits(before, v), DecodeFrom(s, 2, v % 16, 0))
  {
    assert ([c] + s)[1..] == s;
  }

  lemma NextDigit(c: char, before: Digit, v: Digit, s: string)
    requires Spells(c, v)
    ensures DecodeFrom([c] + s, 2, before % 16, 0) == Emit(ThirdDigit(before, v), DecodeFrom(s, 3, v % 4, 0))
  {
    assert ([c] + s)[1..] == s;
  }

  lemma LastDigit(c: char, before: Digit, v: Digit, s: string)
    requires Spells(c, v)
    ensures DecodeFrom([c] + s, 3, before % 4, 0) == Emit(before % 4 * 64 + v, DecodeFrom(s, 0, 0, 0))
  {
    assert ([c] + s)[1..] == s;
  }

  /** Enough equals signs end the text, whatever follows. */
  lemma PaddingEnds(left: nat, s: string)
    ensures left < 4 ==> DecodeFrom(['='] + s, 3, left, 0) == Some([])
    ensures left < 16 ==> DecodeFrom(['=', '='] + s, 2, left, 0) == Some([])
  {
    var both := ['=', '='] + s;
    assert both[0] == '=' && both[1..] == ['='] + s;
  }

  /** Three digits and an equals sign end the text with two bytes; two bits are dropped, and all that follows. */
  lemma TwoBytesRead(c0: char, c1: char, c2: char, v0: Digit, v1: Digit, v2: Digit, s: string, pads: nat)
    returns (a: Byte, b: Byte, dropped: nat)
    requires Spells(c0, v0) && Spells(c1, v1) && Spells(c2, v2)
    ensures DecodeFrom([c0, c1, c2, '='] + s, 0, 0, pads) == Some([a, b])
    ensures (a as int * 256 + b) * 4 + dropped == (v0 * 64 + v1) * 64 + v2 && dropped < 4
    ensures DecodeFrom([c0, c1, c2], 0, 0, pads) == None
  {
    a, b, dropped := TwoDigits(v0, v1), ThirdDigit(v1, v2), v2 % 4;
    ThreeDigits(c0, c1, c2, v0, v1, v2, ['='] + s, pads);
    Regroup(c0, c1, c2, '=', s);
    PaddingEnds(v2 % 4, s);
    Collected(a, b, 0, []);
    ThreeDigits(c0, c1, c2, v0, v1, v2, "", pads);
    assert [c0, c1, c2] + "" == [c0, c1, c2];
    GroupSum(v0, v1, v2, 0);
  }

  lemma ThreeDigits(c0: char, c1: char, c2: char, v0: Digit, v1: Digit, v2: Digit, s: string, pads: nat)
    requires Spells(c0, v0) && Spells(c1, v1) && Spells(c2, v2)
    ensures DecodeFrom([c0, c1, c2] + s, 0, 0, pads)
         == Emit(TwoDigits(v0, v1), Emit(ThirdDigit(v1, v2), DecodeFrom(s, 3, v2 % 4, 0)))
  {
    FirstDigit(c0, v0, [c1, c2] + s, pads);
    assert [c0] + ([c1, c2] + s) == [c0, c1, c2] + s;
    SecondDigit(c1, v0, v1, [c2] + s);
    assert [c1] + ([c2] + s) == [c1, c2] + s;
    NextDigit(c2, v1, v2, s);
  }

  /** Two digits and two equals signs end the text with one byte; one digit on its own is an error. */
  lemma OneByteRead(c0: char, c1: char, v0: Digit, v1: Digit, s: string, pads: nat) returns (a: Byte, dropped: nat)
    requires Spells(c0, v0) && Spells(c1, v1)
    ensures DecodeFrom([c0, c1, '=', '='] + s, 0, 0, pads) == Some([a])
    ensures a as int * 16 + dropped == v0 * 64 + v1 && dropped < 16
    ensures DecodeFrom([c0, c1], 0, 0, pads) == None && DecodeFrom([c0], 0, 0, pads) == None
    ensures DecodeFrom("", 0, 0, pads) == Some([])
  {
    a, dropped := TwoDigits(v0, v1), v1 % 16;
    TwoDigitsRead(c0, c1, v0, v1, ['=', '='] + s, pads);
    Regroup(c0, c1, '=', '=', s);
    PaddingEnds(v1 % 16, s);
    Collected(a, 0, 0, []);
    TwoDigitsRead(c0, c1, v0, v1, "", pads);
    assert [c0, c1] + "" == [c0, c1];
    FirstDigit(c0, v0, "", pads);
    assert [c0] + "" == [c0];
  }

  lemma TwoDigitsRead(c0: char, c1: char, v0: Digit, v1: Digit, s: string, pads: nat)
    requires Spells(c0, v0) && Spells(c1, v1)
    ensures DecodeFrom([c0, c1] + s, 0, 0, pads) == Emit(TwoDigits(v0, v1), DecodeFrom(s, 2, v1 % 16, 0))
  {
    FirstDigit(c0, v0, [c1] + s, pads);
    assert [c0] + ([c1] + s) == [c0, c1] + s;
    SecondDigit(c1, v0, v1, s);
  }
}
