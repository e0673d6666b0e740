/**
Page tokens: a token is the standard base64 text of the last row's id.

Encoding and decoding are stated on three-byte groups, as the library the services call works; the
reference they are proved against is the bit-string definition of section 4 of RFC 4648. The decoder
has the library's habits: it skips carriage returns and line feeds anywhere, and it does not
insist that the unused bits before the padding are zero.
*/
module Cursor {
  import opened Common

  type Byte = n: int | 0 <= n < 256
  type Sextet = n: int | 0 <= n < 64

  const PAD: char := '='

  /******* The alphabet *******/

  function CharOf(n: Sextet): char {
    if n < 26 then ('A' as int + n) as char
    else if n < 52 then ('a' as int + n - 26) as char
    else if n < 62 then ('0' as int + n - 52) as char
    else if n == 62 then '+' else '/'
  }

  function DigitOf(c: char): Option<Sextet> {
    if 'A' <= c <= 'Z' then Some(c as int - 'A' as int)
    else if 'a' <= c <= 'z' then Some(c as int - 'a' as int + 26)
    else if '0' <= c <= '9' then Some(c as int - '0' as int + 52)
    else if c == '+' then Some(62)
    else if c == '/' then Some(63)
    else None
  }

  predicate Letter(c: char) {
    DigitOf(c).Some?
  }

  /** The alphabet is a bijection between the sextets and the letters, and the pad is no letter. */
  lemma Alphabet(n: Sextet, c: char)
    ensures DigitOf(CharOf(n)) == Some(n)
    ensures Letter(c) ==> CharOf(DigitOf(c).value) == c
    ensures CharOf(n) != PAD && CharOf(n) != '\r' && CharOf(n) != '\n'
  {
  }

  const UPPER := "ABCDEFGHIJKLMNOPQRSTUVWXYZ"
  const LOWER := "abcdefghijklmnopqrstuvwxyz"
  const DIGITS := "0123456789"

  lemma UpperIs(n: nat)
    requires n < 26
    ensures |UPPER| == 26 && UPPER[n] == ('A' as int + n) as char
  {
  }

  lemma LowerIs(n: nat)
    requires n < 26
    ensures |LOWER| == 26 && LOWER[n] == ('a' as int + n) as char
  {
  }

  lemma DigitsAre(n: nat)
    requires n < 10
    ensures |DIGITS| == 10 && DIGITS[n] == ('0' as int + n) as char
  {
  }

  /** It is the alphabet of RFC 4648, table 1. */
  lemma AlphabetIs(n: Sextet)
    ensures PAD == '=' && |UPPER + LOWER + DIGITS + "+/"| == 64
    ensures CharOf(n) == (UPPER + LOWER + DIGITS + "+/")[n]
  {
    UpperIs(if n < 26 then n else 0);
    LowerIs(if 26 <= n < 52 then n - 26 else 0);
    DigitsAre(if 52 <= n < 62 then n - 52 else 0);
  }

  /******* Encoding and decoding *******/

  function Sextet0(x: Byte): Sextet { x / 4 }
  function Sextet1(x: Byte, y: Byte): Sextet { x % 4 * 16 + y / 16 }
  function Sextet2(y: Byte, z: Byte): Sextet { y % 16 * 4 + z / 64 }
  function Sextet3(z: Byte): Sextet { z % 64 }

  function Encode(id: seq<Byte>): string {
    if |id| == 0 then ""
    else if |id| == 1 then [CharOf(Sextet0(id[0])), CharOf(Sextet1(id[0], 0)), PAD, PAD]
    else if |id| == 2 then
      [CharOf(Sextet0(id[0])), CharOf(Sextet1(id[0], id[1])), CharOf(Sextet2(id[1], 0)), PAD]
    else
      [CharOf(Sextet0(id[0])), CharOf(Sextet1(id[0], id[1])), CharOf(Sextet2(id[1], id[2])), CharOf(Sextet3(id[2]))]
      + Encode(id[3..])
  }

  /** The token without its line breaks. */
  function Stripped(token: string): string {
    if token == "" then ""
    else if token[0] == '\r' || token[0] == '\n' then Stripped(token[1..])
    else [token[0]] + Stripped(token[1..])
  }

  predicate LineBreak(c: char) {
    c in "\r\n"
  }

  /** Exactly the line breaks go, wherever they stand. */
  lemma {:induction false} StrippedIs(a: string, c: char, b: string)
    ensures Stripped("") == ""
    ensures Stripped(a + [c] + b) == Stripped(a) + (if LineBreak(c) then "" else [c]) + Stripped(b)
  {
    var whole := a + [c] + b;
    if a == "" {
      assert whole[0] == c && whole[1..] == b;
    } else {
      assert whole[0] == a[0] && whole[1..] == a[1..] + [c] + b;
      StrippedIs(a[1..], c, b);
    }
  }

  function Byte0(a: Sextet, b: Sextet): Byte { a * 4 + b / 16 }
  function Byte1(b: Sextet, c: Sextet): Byte { b % 16 * 16 + c / 4 }
  function Byte2(c: Sextet, d: Sextet): Byte { c % 4 * 64 + d }

  /** None is the decoder's "illegal base64 data". */
  function DecodeGroups(s: string): Option<seq<Byte>> {
    if s == "" then Some([])
    else if |s| < 4 || !Letter(s[0]) || !Letter(s[1]) then None
    else
      var a, b := DigitOf(s[0]).value, DigitOf(s[1]).value;
      if s[2] == PAD then
        if s[3] == PAD && |s| == 4 then Some([Byte0(a, b)]) else None
      else if !Letter(s[2]) then None
      else
        var c := DigitOf(s[2]).value;
        if s[3] == PAD then
          if |s| == 4 then Some([Byte0(a, b), Byte1(b, c)]) else None
        else if !Letter(s[3]) then None
        else
          var rest := DecodeGroups(s[4..]);
          if rest.None? then None
          else Some([Byte0(a, b), Byte1(b, c), Byte2(c, DigitOf(s[3]).value)] + rest.value)
  }

  function Decode(token: string): Option<seq<Byte>> {
    if token == "" then Some([]) else DecodeGroups(Stripped(token))
  }

  /******* The reference: the input as one string of bits *******/

  /** The low bits of a number, the most significant first. */
  function BitsOf(n: nat, width: nat): (x: seq<bool>)
    ensures |x| == width
  {
    if width == 0 then [] else BitsOf(n / 2, width - 1) + [n % 2 == 1]
  }

  function Value(x: seq<bool>): nat {
    if x == [] then 0 else 2 * Value(x[..|x| - 1]) + if x[|x| - 1] then 1 else 0
  }

  function Pow2(k: nat): (p: nat)
    ensures p > 0
  {
    if k == 0 then 1 else 2 * Pow2(k - 1)
  }

  lemma {:induction false} ValueBound(x: seq<bool>)
    ensures Value(x) < Pow2(|x|)
  {
    if x == [] {
    } else {
      ValueBound(x[..|x| - 1]);
    }
  }

  function Letter6(x: seq<bool>): char
    requires |x| == 6
  {
    ValueBound(x);
    assert Pow2(6) == 2 * Pow2(5) == 4 * Pow2(4) == 8 * Pow2(3) == 16 * Pow2(2) == 32 * Pow2(1);
    CharOf(Value(x))
  }

  function Bits(id: seq<Byte>): seq<bool> {
    if id == [] then [] else BitsOf(id[0], 8) + Bits(id[1..])
  }

  /** The bits, six at a time from the left; zero bits fill an incomplete six on the right. */
  function Letters(bits: seq<bool>): string
    decreases |bits|
  {
    if bits == [] then ""
    else if |bits| < 6 then [Letter6(bits + BitsOf(0, 6 - |bits|))]
    else [Letter6(bits[..6])] + Letters(bits[6..])
  }

  /** Pads fill the last group of four characters. */
  function Padded(letters: string): string {
    letters + seq((4 - |letters| % 4) % 4, _ => PAD)
  }

  /******* Encoding is the reference *******/

  /** Halving a number whose high part is shifted by one bit more. */
  lemma HalveShifted(q: nat, p: nat, r: nat)
    ensures (q * (2 * p) + r) / 2 == q * p + r / 2
    ensures (q * (2 * p) + r) % 2 == r % 2
  {
    var m := q * p;
    assert q * (2 * p) == 2 * m;
    assert 2 * m + r == 2 * (m + r / 2) + r % 2;
  }

  lemma {:induction false} BitsCut(q: nat, r: nat, high: nat, low: nat)
    requires r < Pow2(low)
    ensures BitsOf(q * Pow2(low) + r, high + low) == BitsOf(q, high) + BitsOf(r, low)
  {
    if low == 0 {
    } else {
      HalveShifted(q, Pow2(low - 1), r);
      BitsCut(q, r / 2, high, low - 1);
    }
  }

  lemma {:induction false} ValueOfBits(n: nat, width: nat)
    requires n < Pow2(width)
    ensures Value(BitsOf(n, width)) == n
  {
    if width == 0 {
    } else {
      ValueOfBits(n / 2, width - 1);
      assert BitsOf(n, width)[..width - 1] == BitsOf(n / 2, width - 1);
    }
  }

  lemma {:induction false} ValueOfConcat(x: seq<bool>, y: seq<bool>)
    ensures Value(x + y) == Value(x) * Pow2(|y|) + Value(y)
  {
    if y == [] {
      assert x + y == x;
    } else {
      var init := y[..|y| - 1];
      ValueOfConcat(x, init);
      assert (x + y)[..|x + y| - 1] == x + init;
      assert Value(x) * (2 * Pow2(|init|)) == 2 * (Value(x) * Pow2(|init|));
    }
  }

  lemma Powers()
    ensures Pow2(2) == 4 && Pow2(4) == 16 && Pow2(6) == 64
  {
  }

  /** Six bits put together from two numbers. */
  lemma LetterOfTwo(m: nat, n: nat, low: nat)
    requires low <= 6 && m < Pow2(6 - low) && n < Pow2(low) && m * Pow2(low) + n < 64
    ensures Letter6(BitsOf(m, 6 - low) + BitsOf(n, low)) == CharOf(m * Pow2(low) + n)
  {
    ValueOfConcat(BitsOf(m, 6 - low), BitsOf(n, low));
    ValueOfBits(m, 6 - low);
    ValueOfBits(n, low);
  }

  lemma LetterOfOne(n: Sextet)
    ensures Letter6(BitsOf(n, 6)) == CharOf(n)
  {
    Powers();
    ValueOfBits(n, 6);
  }

  lemma LettersStep(x: seq<bool>, rest: seq<bool>)
    requires |x| == 6
    ensures Letters(x + rest) == [Letter6(x)] + Letters(rest)
  {
  }

  /** The bits of a byte, cut where its group cuts it. */
  lemma ByteCut(x: Byte)
    ensures BitsOf(x, 8) == BitsOf(x / 4, 6) + BitsOf(x % 4, 2)
    ensures BitsOf(x, 8) == BitsOf(x / 16, 4) + BitsOf(x % 16, 4)
    ensures BitsOf(x, 8) == BitsOf(x / 64, 2) + BitsOf(x % 64, 6)
  {
    Powers();
    BitsCut(x / 4, x % 4, 6, 2);
    BitsCut(x / 16, x % 16, 4, 4);
    BitsCut(x / 64, x % 64, 2, 6);
  }

  lemma Letter0(x: Byte)
    ensures Letter6(BitsOf(x / 4, 6)) == CharOf(Sextet0(x))
  {
    LetterOfOne(x / 4);
  }

  lemma Letter1(x: Byte, y: Byte)
    ensures Letter6(BitsOf(x % 4, 2) + BitsOf(y / 16, 4)) == CharOf(Sextet1(x, y))
  {
    Powers();
    LetterOfTwo(x % 4, y / 16, 4);
  }

  lemma Letter2(y: Byte, z: Byte)
    ensures Letter6(BitsOf(y % 16, 4) + BitsOf(z / 64, 2)) == CharOf(Sextet2(y, z))
  {
    Powers();
    LetterOfTwo(y % 16, z / 64, 2);
  }

  lemma Regrouped(x0: seq<bool>, x1: seq<bool>, y0: seq<bool>, y1: seq<bool>, z0: seq<bool>, z1: seq<bool>,
      rest: seq<bool>)
    ensures (x0 + x1) + ((y0 + y1) + ((z0 + z1) + rest)) == x0 + ((x1 + y0) + ((y1 + z0) + (z1 + rest)))
  {
  }

  /** Four sixes in a row, where bytes end inside the second and the third. */
  lemma LettersOfParts(x0: seq<bool>, x1: seq<bool>, y0: seq<bool>, y1: seq<bool>, z0: seq<bool>, z1: seq<bool>,
      rest: seq<bool>)
    requires |x0| == 6 && |x1| == 2 && |y0| == 4 && |y1| == 4 && |z0| == 2 && |z1| == 6
    ensures Letters((x0 + x1) + ((y0 + y1) + ((z0 + z1) + rest)))
            == [Letter6(x0), Letter6(x1 + y0), Letter6(y1 + z0), Letter6(z1)] + Letters(rest)
  {
    var third := (y1 + z0) + (z1 + rest);
    var second := (x1 + y0) + third;
    Regrouped(x0, x1, y0, y1, z0, z1, rest);
    LettersStep(x0, second);
    LettersStep(x1 + y0, third);
    LettersStep(y1 + z0, z1 + rest);
    LettersStep(z1, rest);
  }

  lemma LettersOfGroup(x: Byte, y: Byte, z: Byte, rest: seq<bool>)
    ensures Letters(BitsOf(x, 8) + (BitsOf(y, 8) + (BitsOf(z, 8) + rest)))
            == [CharOf(Sextet0(x)), CharOf(Sextet1(x, y)), CharOf(Sextet2(y, z)), CharOf(Sextet3(z))] + Letters(rest)
  {
    ByteCut(x);
    ByteCut(y);
    ByteCut(z);
    LettersOfParts(BitsOf(x / 4, 6), BitsOf(x % 4, 2), BitsOf(y / 16, 4), BitsOf(y % 16, 4), BitsOf(z / 64, 2),
        BitsOf(z % 64, 6), rest);
    Letter0(x);
    Letter1(x, y);
    Letter2(y, z);
    LetterOfOne(z % 64);
  }

  lemma LettersOfLastParts(x0: seq<bool>, x1: seq<bool>, y0: seq<bool>, y1: seq<bool>)
    requires |x0| == 6 && |x1| == 2 && |y0| == 4
    ensures Letters((x0 + x1) + (y0 + y1)) == [Letter6(x0), Letter6(x1 + y0)] + Letters(y1)
  {
    var second := (x1 + y0) + y1;
    assert (x0 + x1) + (y0 + y1) == x0 + second;
    LettersStep(x0, second);
    LettersStep(x1 + y0, y1);
  }

  /** An incomplete six at the end is filled with zeros, as if a zero byte followed. */
  lemma LettersOfTwo(x: Byte, y: Byte)
    ensures Letters(BitsOf(x, 8) + BitsOf(y, 8))
            == [CharOf(Sextet0(x)), CharOf(Sextet1(x, y)), CharOf(Sextet2(y, 0))]
  {
    ByteCut(x);
    ByteCut(y);
    LettersOfLastParts(BitsOf(x / 4, 6), BitsOf(x % 4, 2), BitsOf(y / 16, 4), BitsOf(y % 16, 4));
    Letter0(x);
    Letter1(x, y);
    Letter2(y, 0);
  }

  lemma LettersOfOne(x: Byte)
    ensures Letters(BitsOf(x, 8)) == [CharOf(Sextet0(x)), CharOf(Sextet1(x, 0))]
  {
    ByteCut(x);
    LettersStep(BitsOf(x / 4, 6), BitsOf(x % 4, 2));
    Letter0(x);
    Letter1(x, 0);
  }

  lemma PaddedStep(group: string, letters: string)
    requires |group| == 4
    ensures Padded(group + letters) == group + Padded(letters)
  {
  }

  lemma BitsOfCons(x: Byte, rest: seq<Byte>)
    ensures Bits([x] + rest) == BitsOf(x, 8) + Bits(rest)
  {
  }

  lemma BitsOfOne(x: Byte)
    ensures Bits([x]) == BitsOf(x, 8)
  {
    BitsOfCons(x, []);
    assert [x] + [] == [x] && BitsOf(x, 8) + [] == BitsOf(x, 8);
  }

  lemma PaddedShort(letters: string)
    ensures |letters| == 2 ==> Padded(letters) == letters + [PAD, PAD]
    ensures |letters| == 3 ==> Padded(letters) == letters + [PAD]
  {
  }

  lemma EncodeOneIsBase64(x: Byte)
    ensures Encode([x]) == Padded(Letters(Bits([x])))
  {
    BitsOfOne(x);
    LettersOfOne(x);
    PaddedShort(Letters(Bits([x])));
  }

  lemma BitsOfTwo(x: Byte, y: Byte)
    ensures Bits([x, y]) == BitsOf(x, 8) + BitsOf(y, 8)
  {
    BitsOfOne(y);
    BitsOfCons(x, [y]);
    assert [x] + [y] == [x, y];
  }

  lemma EncodeTwoIsBase64(x: Byte, y: Byte)
    ensures Encode([x, y]) == Padded(Letters(Bits([x, y])))
  {
    BitsOfTwo(x, y);
    LettersOfTwo(x, y);
    PaddedShort(Letters(Bits([x, y])));
  }

  lemma BitsOfThree(x: Byte, y: Byte, z: Byte, rest: seq<Byte>)
    ensures Bits([x, y, z] + rest) == BitsOf(x, 8) + (BitsOf(y, 8) + (BitsOf(z, 8) + Bits(rest)))
  {
    BitsOfCons(z, rest);
    BitsOfCons(y, [z] + rest);
    BitsOfCons(x, [y] + ([z] + rest));
    assert [x] + ([y] + ([z] + rest)) == [x, y, z] + rest;
  }

  lemma EncodeThree(x: Byte, y: Byte, z: Byte, rest: seq<Byte>)
    ensures Encode([x, y, z] + rest)
            == [CharOf(Sextet0(x)), CharOf(Sextet1(x, y)), CharOf(Sextet2(y, z)), CharOf(Sextet3(z))] + Encode(rest)
  {
  }

  lemma LastBytes(id: seq<Byte>)
    requires |id| < 3
    ensures id == [] || id == [id[0]] || (|id| == 2 && id == [id[0], id[1]])
  {
  }

  lemma EncodeThreeIsBase64(x: Byte, y: Byte, z: Byte, rest: seq<Byte>)
    requires Encode(rest) == Padded(Letters(Bits(rest)))
    ensures Encode([x, y, z] + rest) == Padded(Letters(Bits([x, y, z] + rest)))
  {
    EncodeThree(x, y, z, rest);
    BitsOfThree(x, y, z, rest);
    LettersOfGroup(x, y, z, Bits(rest));
    PaddedStep([CharOf(Sextet0(x)), CharOf(Sextet1(x, y)), CharOf(Sextet2(y, z)), CharOf(Sextet3(z))],
        Letters(Bits(rest)));
  }

  /** For every id the token is the base64 text of section 4 of RFC 4648. */
  lemma {:induction false} EncodeIsBase64(id: seq<Byte>)
    ensures Encode(id) == Padded(Letters(Bits(id)))
  {
    if |id| == 0 {
    } else if |id| == 1 {
      LastBytes(id);
      EncodeOneIsBase64(id[0]);
    } else if |id| == 2 {
      LastBytes(id);
      EncodeTwoIsBase64(id[0], id[1]);
    } else {
      var x, y, z, rest := id[0], id[1], id[2], id[3..];
      assert id == [x, y, z] + rest;
      EncodeIsBase64(rest);
      EncodeThreeIsBase64(x, y, z, rest);
    }
  }

  /******* Decoding undoes encoding *******/

  lemma DecodeOne(a: Sextet, b: Sextet)
    ensures DecodeGroups([CharOf(a), CharOf(b), PAD, PAD]) == Some([Byte0(a, b)])
  {
    Alphabet(a, PAD);
    Alphabet(b, PAD);
  }

  lemma DecodeTwo(a: Sextet, b: Sextet, c: Sextet)
    ensures DecodeGroups([CharOf(a), CharOf(b), CharOf(c), PAD]) == Some([Byte0(a, b), Byte1(b, c)])
  {
    Alphabet(a, PAD);
    Alphabet(b, PAD);
    Alphabet(c, PAD);
  }

  lemma DecodeThree(a: Sextet, b: Sextet, c: Sextet, d: Sextet, s: string)
    requires DecodeGroups(s).Some?
    ensures DecodeGroups([CharOf(a), CharOf(b), CharOf(c), CharOf(d)] + s)
            == Some([Byte0(a, b), Byte1(b, c), Byte2(c, d)] + DecodeGroups(s).value)
  {
    Alphabet(a, PAD);
    Alphabet(b, PAD);
    Alphabet(c, PAD);
    Alphabet(d, PAD);
    assert ([CharOf(a), CharOf(b), CharOf(c), CharOf(d)] + s)[4..] == s;
  }

  lemma BytesOfSextets(x: Byte, y: Byte, z: Byte)
    ensures Byte0(Sextet0(x), Sextet1(x, y)) == x
    ensures Byte1(Sextet1(x, y), Sextet2(y, z)) == y
    ensures Byte2(Sextet2(y, z), Sextet3(z)) == z
  {
  }

  lemma DecodeEncodeOne(x: Byte)
    ensures DecodeGroups(Encode([x])) == Some([x])
  {
  }

  lemma DecodeEncodeTwo(x: Byte, y: Byte)
    ensures DecodeGroups(Encode([x, y])) == Some([x, y])
  {
    DecodeTwo(Sextet0(x), Sextet1(x, y), Sextet2(y, 0));
    BytesOfSextets(x, y, 0);
  }

  lemma DecodeEncodeThree(x: Byte, y: Byte, z: Byte, rest: seq<Byte>)
    requires DecodeGroups(Encode(rest)) == Some(rest)
    ensures DecodeGroups(Encode([x, y, z] + rest)) == Some([x, y, z] + rest)
  {
    EncodeThree(x, y, z, rest);
    DecodeThree(Sextet0(x), Sextet1(x, y), Sextet2(y, z), Sextet3(z), Encode(rest));
    BytesOfSextets(x, y, z);
  }

  lemma {:induction false} DecodeGroupsOfEncode(id: seq<Byte>)
    ensures DecodeGroups(Encode(id)) == Some(id)
  {
    if |id| == 0 {
    } else if |id| == 1 {
      LastBytes(id);
      DecodeEncodeOne(id[0]);
    } else if |id| == 2 {
      LastBytes(id);
      DecodeEncodeTwo(id[0], id[1]);
    } else {
      var x, y, z, rest := id[0], id[1], id[2], id[3..];
      assert id == [x, y, z] + rest;
      DecodeGroupsOfEncode(rest);
      DecodeEncodeThree(x, y, z, rest);
    }
  }

  lemma {:induction false} EncodedChar(id: seq<Byte>, c: char)
    requires c in Encode(id)
    ensures c != '\r' && c != '\n'
    decreases |id|
  {
    forall n: Sextet ensures CharOf(n) != '\r' && CharOf(n) != '\n' { Alphabet(n, PAD); }
    if |id| >= 3 && c in Encode(id[3..]) { EncodedChar(id[3..], c); }
  }

  lemma {:induction false} StrippedSame(s: string)
    requires '\r' !in s && '\n' !in s
    ensures Stripped(s) == s
  {
    if s != "" { StrippedSame(s[1..]); }
  }

  lemma EncodeHasNoBreaks(id: seq<Byte>)
    ensures Stripped(Encode(id)) == Encode(id)
  {
    forall c | c in Encode(id) ensures c != '\r' && c != '\n' { EncodedChar(id, c); }
    StrippedSame(Encode(id));
  }

  /** Round trip, for every byte string including the empty one. */
  lemma RoundTrip(id: seq<Byte>)
    ensures Decode(Encode(id)) == Some(id)
    ensures Encode(id) == "" <==> id == []
  {
    EncodeHasNoBreaks(id);
    DecodeGroupsOfEncode(id);
  }

  /******* Which tokens decode, and which are tokens of an id *******/

  predicate WithPads(s: string, pads: nat) {
    pads <= |s| &&
    (forall i :: 0 <= i < |s| - pads ==> Letter(s[i])) &&
    (forall i :: |s| - pads <= i < |s| ==> s[i] == PAD)
  }

  /** Letters, then at most two pads, in groups of four. */
  predicate WellFormed(s: string) {
    |s| % 4 == 0 && (WithPads(s, 0) || WithPads(s, 1) || WithPads(s, 2))
  }

  predicate FullGroup(s: string)
    requires |s| >= 4
  {
    Letter(s[0]) && Letter(s[1]) && Letter(s[2]) && Letter(s[3])
  }

  predicate LastGroup(s: string) {
    |s| == 4 && Letter(s[0]) && Letter(s[1]) && s[3] == PAD && (Letter(s[2]) || s[2] == PAD)
  }

  lemma WellFormedStep(s: string)
    requires |s| >= 4
    ensures WellFormed(s) <==> LastGroup(s) || (FullGroup(s) && WellFormed(s[4..]))
  {
  }

  lemma {:induction false} GroupsDecodeExactly(s: string)
    ensures DecodeGroups(s).Some? <==> WellFormed(s)
    decreases |s|
  {
    if |s| >= 4 {
      GroupsDecodeExactly(s[4..]);
      WellFormedStep(s);
    }
  }

  /** A token decodes exactly when, line breaks aside, it is letters with at most two pads behind
      them in groups of four; every other token is an error. */
  lemma DecodesExactly(token: string)
    ensures Decode(token).Some? <==> WellFormed(Stripped(token))
  {
    GroupsDecodeExactly(Stripped(token));
  }

  /** Nothing but the empty text, line breaks aside, decodes to nothing. */
  lemma DecodesToNothing(token: string)
    ensures Decode(token) == Some([]) <==> Stripped(token) == ""
  {
  }

  /** The bits of the last letter that no byte uses. */
  predicate UnusedBitsZero(s: string) {
    |s| >= 4 && s[|s| - 1] == PAD ==>
      if s[|s| - 2] == PAD then Letter(s[|s| - 3]) ==> DigitOf(s[|s| - 3]).value % 16 == 0
      else Letter(s[|s| - 2]) ==> DigitOf(s[|s| - 2]).value % 4 == 0
  }

  lemma SextetsOfBytes(a: Sextet, b: Sextet, c: Sextet, d: Sextet)
    ensures Sextet0(Byte0(a, b)) == a
    ensures Sextet1(Byte0(a, b), Byte1(b, c)) == b
    ensures Sextet2(Byte1(b, c), Byte2(c, d)) == c
    ensures Sextet3(Byte2(c, d)) == d
    ensures Sextet1(Byte0(a, b), 0) == b / 16 * 16
    ensures Sextet2(Byte1(b, c), 0) == c / 4 * 4
  {
  }

  lemma LetterOf(c: char)
    requires Letter(c)
    ensures CharOf(DigitOf(c).value) == c
  {
  }

  lemma SameLetter(m: Sextet, n: Sextet)
    ensures CharOf(m) == CharOf(n) <==> m == n
  {
  }

  lemma ReencodeOne(a: Sextet, b: Sextet)
    ensures Encode([Byte0(a, b)]) == [CharOf(a), CharOf(b), PAD, PAD] <==> b % 16 == 0
  {
  }

  lemma ReencodeTwo(a: Sextet, b: Sextet, c: Sextet)
    ensures Encode([Byte0(a, b), Byte1(b, c)]) == [CharOf(a), CharOf(b), CharOf(c), PAD] <==> c % 4 == 0
  {
    SextetsOfBytes(a, b, c, 0);
    SameLetter(c / 4 * 4, c);
  }

  lemma ReencodeLast(s: string)
    requires LastGroup(s)
    ensures DecodeGroups(s).Some?
    ensures Encode(DecodeGroups(s).value) == s <==> UnusedBitsZero(s)
  {
    var a, b := DigitOf(s[0]).value, DigitOf(s[1]).value;
    LetterOf(s[0]);
    LetterOf(s[1]);
    if s[2] == PAD {
      assert s == [CharOf(a), CharOf(b), PAD, PAD];
      DecodeOne(a, b);
      ReencodeOne(a, b);
    } else {
      var c := DigitOf(s[2]).value;
      LetterOf(s[2]);
      assert s == [CharOf(a), CharOf(b), CharOf(c), PAD];
      DecodeTwo(a, b, c);
      ReencodeTwo(a, b, c);
    }
  }

  lemma FullGroupOf(s: string)
    requires s != "" && DecodeGroups(s).Some? && !LastGroup(s)
    ensures |s| >= 4 && FullGroup(s) && DecodeGroups(s[4..]).Some?
    ensures UnusedBitsZero(s) <==> UnusedBitsZero(s[4..])
  {
    GroupsDecodeExactly(s);
  }

  lemma GroupLetters(s: string)
    requires |s| >= 4 && FullGroup(s)
    ensures s[..4] == [CharOf(DigitOf(s[0]).value), CharOf(DigitOf(s[1]).value), CharOf(DigitOf(s[2]).value),
        CharOf(DigitOf(s[3]).value)]
  {
    LetterOf(s[0]);
    LetterOf(s[1]);
    LetterOf(s[2]);
    LetterOf(s[3]);
  }

  lemma ReencodeThree(a: Sextet, b: Sextet, c: Sextet, d: Sextet, rest: seq<Byte>)
    ensures Encode([Byte0(a, b), Byte1(b, c), Byte2(c, d)] + rest)
        == [CharOf(a), CharOf(b), CharOf(c), CharOf(d)] + Encode(rest)
  {
    SextetsOfBytes(a, b, c, d);
    EncodeThree(Byte0(a, b), Byte1(b, c), Byte2(c, d), rest);
  }

  lemma ReencodeFull(s: string)
    requires |s| >= 4 && FullGroup(s) && DecodeGroups(s[4..]).Some?
    ensures DecodeGroups(s).Some?
    ensures Encode(DecodeGroups(s).value) == s[..4] + Encode(DecodeGroups(s[4..]).value)
  {
    var a, b, c, d := DigitOf(s[0]).value, DigitOf(s[1]).value, DigitOf(s[2]).value, DigitOf(s[3]).value;
    GroupLetters(s);
    assert s == s[..4] + s[4..];
    DecodeThree(a, b, c, d, s[4..]);
    ReencodeThree(a, b, c, d, DecodeGroups(s[4..]).value);
  }

  lemma {:induction false} ReencodeGroups(s: string)
    requires DecodeGroups(s).Some?
    ensures Encode(DecodeGroups(s).value) == s <==> UnusedBitsZero(s)
    decreases |s|
  {
    if s == "" {
    } else if LastGroup(s) {
      ReencodeLast(s);
    } else {
      FullGroupOf(s);
      ReencodeGroups(s[4..]);
      ReencodeFull(s);
    }
  }

  /** The other direction: a token that decodes is the token of what it decodes to exactly when it
      has no line breaks and the bits no byte uses are zero. */
  lemma TokenOfDecoded(token: string)
    requires Decode(token).Some?
    ensures Encode(Decode(token).value) == token <==> Stripped(token) == token && UnusedBitsZero(token)
  {
    if token != "" {
      ReencodeGroups(Stripped(token));
      EncodeHasNoBreaks(Decode(token).value);
    }
  }
}
