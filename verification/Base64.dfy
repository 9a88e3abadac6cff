/** Unpadded URL-safe base64 (section 5 of RFC 4648) as encoding/base64's RawURLEncoding does it. */
module Base64 {
  import opened Text

  type Sextet = x: int | 0 <= x < 64

  function Letter(d: Sextet): (c: char)
    ensures Value(c) == Some(d)
  {
    if d < 26 then ('A' as int + d) as char
    else if d < 52 then ('a' as int + d - 26) as char
    else if d < 62 then ('0' as int + d - 52) as char
    else if d == 62 then '-' else '_'
  }

  function Value(c: char): Option<Sextet> {
    if 'A' <= c <= 'Z' then Some(c as int - 'A' as int)
    else if 'a' <= c <= 'z' then Some(c as int - 'a' as int + 26)
    else if '0' <= c <= '9' then Some(c as int - '0' as int + 52)
    else if c == '-' then Some(62)
    else if c == '_' then Some(63)
    else None
  }

  /** Three bytes make four letters; one or two left over make two or three, padded with zero bits. */
  function Encode(b: Bytes): (s: string)
    ensures forall i :: 0 <= i < |s| ==> Value(s[i]).Some?
    ensures |s| == (8 * |b| + 5) / 6
  {
    if b == [] then ""
    else if |b| == 1 then [Letter(b[0] / 4), Letter(b[0] % 4 * 16)]
    else if |b| == 2 then [Letter(b[0] / 4), Letter(b[0] % 4 * 16 + b[1] / 16), Letter(b[1] % 16 * 4)]
    else
      [Letter(b[0] / 4), Letter(b[0] % 4 * 16 + b[1] / 16), Letter(b[1] % 16 * 4 + b[2] / 64), Letter(b[2] % 64)]
      + Encode(b[3..])
  }

  /** The decoder passes over line breaks, */
  function WithoutBreaks(s: string): string {
    if s == [] then ""
    else (if s[0] == '\r' || s[0] == '\n' then "" else [s[0]]) + WithoutBreaks(s[1..])
  }

  /** refuses other letters and a single one left over, and ignores left-over bits. */
  function DecodeLetters(t: string): Option<Bytes> {
    if t == [] then Some([])
    else if |t| == 1 || Value(t[0]).None? || Value(t[1]).None? then None
    else
      var x, y := Value(t[0]).value, Value(t[1]).value;
      var first := x * 4 + y / 16;
      if |t| == 2 then Some([first])
      else if Value(t[2]).None? then None
      else
        var z := Value(t[2]).value;
        var second := y % 16 * 16 + z / 4;
        if |t| == 3 then Some([first, second])
        else if Value(t[3]).None? || DecodeLetters(t[4..]).None? then None
        else Some([first, second, z % 4 * 64 + Value(t[3]).value] + DecodeLetters(t[4..]).value)
  }

  function Decode(s: string): Option<Bytes> {
    DecodeLetters(WithoutBreaks(s))
  }

  lemma {:induction false} LettersAreNoBreaks(s: string)
    requires forall i :: 0 <= i < |s| ==> Value(s[i]).Some?
    ensures WithoutBreaks(s) == s
  {
    if s != [] {
      assert Value(s[0]).Some?;
      LettersAreNoBreaks(s[1..]);
    }
  }

  lemma Regroup(x: Byte, y: Byte, z: Byte)
    ensures x / 4 * 4 + (x % 4 * 16 + y / 16) / 16 == x
    ensures (x % 4 * 16 + y / 16) % 16 * 16 + (y % 16 * 4 + z / 64) / 4 == y
    ensures (y % 16 * 4 + z / 64) % 4 * 64 + z % 64 == z
  {
  }

  lemma FourLetters(s: string, p: Sextet, q: Sextet, r: Sextet, u: Sextet)
    requires |s| >= 4
    requires Value(s[0]) == Some(p) && Value(s[1]) == Some(q) && Value(s[2]) == Some(r) && Value(s[3]) == Some(u)
    ensures DecodeLetters(s) ==
      if DecodeLetters(s[4..]).None? then None
      else Some([p * 4 + q / 16, q % 16 * 16 + r / 4, r % 4 * 64 + u] + DecodeLetters(s[4..]).value)
  {
    hide Value;
  }

  lemma {:induction false} DecodeLettersOfEncode(b: Bytes)
    ensures DecodeLetters(Encode(b)) == Some(b)
    decreases |b|, 1
  {
    hide Letter, Value;
    if |b| == 1 {
      assert b == [b[0]];
      Regroup(b[0], 0, 0);
    } else if |b| == 2 {
      assert b == [b[0], b[1]];
      Regroup(b[0], b[1], 0);
    } else if |b| >= 3 {
      ThreeBytes(b);
    }
  }

  lemma {:induction false} ThreeBytes(b: Bytes)
    requires |b| >= 3
    ensures DecodeLetters(Encode(b)) == Some(b)
    decreases |b|, 0
  {
    hide DecodeLetters, Letter, Value;
    DecodeLettersOfEncode(b[3..]);
    Regroup(b[0], b[1], b[2]);
    var s := Encode(b);
    assert s[4..] == Encode(b[3..]);
    FourLetters(s, b[0] / 4, b[0] % 4 * 16 + b[1] / 16, b[1] % 16 * 4 + b[2] / 64, b[2] % 64);
    assert b == [b[0], b[1], b[2]] + b[3..];
  }

  /** What was encoded is decoded again, for any bytes. */
  lemma DecodeOfEncode(b: Bytes)
    ensures Decode(Encode(b)) == Some(b)
  {
    LettersAreNoBreaks(Encode(b));
    DecodeLettersOfEncode(b);
  }

  /** The letters are A to Z, a to z, 0 to 9, '-' and '_', in this order. */
  lemma LettersAreInOrder(d: Sextet)
    ensures Letter(0) == 'A' && Letter(25) == 'Z' && Letter(26) == 'a' && Letter(51) == 'z'
    ensures Letter(52) == '0' && Letter(61) == '9' && Letter(62) == '-' && Letter(63) == '_'
    ensures d !in {25, 51, 61, 62, 63} ==> Letter(d + 1) as int == Letter(d) as int + 1
  {
  }

  /** Read as digits to the base 64, the letters are the bytes' bits from the most significant on, followed by
      four or two zero bits where one or two bytes are left over. */
  lemma LettersAreBits(b: Bytes)
    requires b != []
    ensures var s := Encode(b);
      var v := seq(|s|, i requires 0 <= i < |s| => Value(s[i]).value as int);
      && (|b| == 1 ==> v[0] * 0x40 + v[1] == b[0] as int * 0x10)
      && (|b| == 2 ==> v[0] * 0x1000 + v[1] * 0x40 + v[2] == (b[0] as int * 0x100 + b[1]) * 0x4)
      && (|b| >= 3 ==>
            && v[0] * 0x4_0000 + v[1] * 0x1000 + v[2] * 0x40 + v[3] ==
                 b[0] as int * 0x1_0000 + b[1] as int * 0x100 + b[2]
            && s[4..] == Encode(b[3..]))
  {
  }

  lemma {:induction false} BreaksGo(s: string)
    ensures forall c :: c in WithoutBreaks(s) <==> c in s && c != '\r' && c != '\n'
    ensures |WithoutBreaks(s)| + multiset(s)['\r'] + multiset(s)['\n'] == |s|
  {
    if s != [] {
      BreaksGo(s[1..]);
      assert s == [s[0]] + s[1..];
    }
  }

  /** Text is decoded exactly if it is all letters but for line breaks, and no single letter is left over. */
  lemma DecodesIff(s: string)
    ensures Decode(s).Some? <==>
      && (|s| - multiset(s)['\r'] - multiset(s)['\n']) % 4 != 1
      && forall c :: c in s ==> c == '\r' || c == '\n' || Value(c).Some?
  {
    hide Value, WithoutBreaks, DecodeLetters;
    BreaksGo(s);
    LettersDecodeIff(WithoutBreaks(s));
    assert forall i :: 0 <= i < |WithoutBreaks(s)| ==> WithoutBreaks(s)[i] in WithoutBreaks(s);
  }

  lemma {:induction false} LettersDecodeIff(t: string)
    ensures DecodeLetters(t).Some? <==> |t| % 4 != 1 && forall i :: 0 <= i < |t| ==> Value(t[i]).Some?
    decreases |t|
  {
    if |t| >= 4 {
      LettersDecodeIff(t[4..]);
      assert t == t[..4] + t[4..];
    }
  }
}
