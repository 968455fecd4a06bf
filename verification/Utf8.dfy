// The text of a ping: valid UTF-8 of at most 140 UTF-16 code units.
module Utf8 {

  type byte = x: int | 0 <= x < 256

  const RUNE_ERROR := 0xFFFD

  const PING_CHAR_MAX := 140

  predicate Cont(b: byte) { 0x80 <= b <= 0xBF }

  // How long a sequence with this first byte is, and the range its second byte must be in;
  // length 0 marks a byte that begins none.
  function Lead(b: byte): (r: (nat, byte, byte))
    ensures r.0 <= 4
  {
    if b < 0x80 then (1, 0, 0)
    else if 0xC2 <= b <= 0xDF then (2, 0x80, 0xBF)
    else if b == 0xE0 then (3, 0xA0, 0xBF)
    else if b == 0xED then (3, 0x80, 0x9F)
    else if 0xE1 <= b <= 0xEF then (3, 0x80, 0xBF)
    else if b == 0xF0 then (4, 0x90, 0xBF)
    else if 0xF1 <= b <= 0xF3 then (4, 0x80, 0xBF)
    else if b == 0xF4 then (4, 0x80, 0x8F)
    else (0, 0, 0)
  }

  // utf8.DecodeRune: the first rune of p and its width; (RUNE_ERROR, 1) if p begins with no
  // valid encoding.
  function DecodeRune(p: seq<byte>): (r: (int, nat))
    requires |p| > 0
    ensures 1 <= r.1 <= |p|
  {
    var (size, lo, hi) := Lead(p[0]);
    if size == 1 then (p[0], 1)
    else if size == 0 || |p| < size || !(lo <= p[1] <= hi) then (RUNE_ERROR, 1)
    else if size == 2 then (Join2(p[0] - 0xC0, p[1] - 0x80), 2)
    else if !Cont(p[2]) then (RUNE_ERROR, 1)
    else if size == 3 then (Join3(p[0] - 0xE0, p[1] - 0x80, p[2] - 0x80), 3)
    else if !Cont(p[3]) then (RUNE_ERROR, 1)
    else (Join4(p[0] - 0xF0, p[1] - 0x80, p[2] - 0x80, p[3] - 0x80), 4)
  }

  function Join2(a: int, b: int): int { a * 64 + b }

  function Join3(a: int, b: int, c: int): int { Join2(a, b) * 64 + c }

  function Join4(a: int, b: int, c: int, d: int): int { Join3(a, b, c) * 64 + d }

  // A Unicode scalar value.
  predicate Scalar(c: int) {
    0 <= c < 0xD800 || 0xE000 <= c < 0x110000
  }

  // Its encoding, by section 3 of RFC 3629.
  function Encode(c: int): (s: seq<byte>)
    requires Scalar(c)
    ensures 1 <= |s| <= 4
  {
    if c < 0x80 then [c]
    else if c < 0x800 then [0xC0 + c / 64, 0x80 + c % 64]
    else if c < 0x10000 then [0xE0 + c / 4096, 0x80 + c / 64 % 64, 0x80 + c % 64]
    else [0xF0 + c / 262144, 0x80 + c / 4096 % 64, 0x80 + c / 64 % 64, 0x80 + c % 64]
  }

  // How many UTF-16 code units a scalar value takes
  function Units(c: int): nat {
    if c < 0x10000 then 1 else 2
  }

  // Those units, by section 2.1 of RFC 2781: itself, or a pair of surrogates.
  function Utf16(c: int): (s: seq<int>)
    requires Scalar(c)
    ensures |s| > 0
  {
    if c < 0x10000 then [c] else [0xD800 + (c - 0x10000) / 0x400, 0xDC00 + (c - 0x10000) % 0x400]
  }

  // The first code point of UTF-16 text and the units it takes, by section 2.2; -1 for none.
  function FromUtf16(s: seq<int>): (r: (int, nat))
    requires |s| > 0
  {
    if !(0xD800 <= s[0] < 0xE000) then (s[0], 1)
    else if s[0] >= 0xDC00 || |s| == 1 || !(0xDC00 <= s[1] < 0xE000) then (-1, 1)
    else (0x10000 + (s[0] - 0xD800) * 0x400 + (s[1] - 0xDC00), 2)
  }

  // The units counted are those of UTF-16, which is read back as what was written.
  lemma UnitsAreUtf16(c: int, rest: seq<int>)
    requires Scalar(c)
    ensures Units(c) == |Utf16(c)| && forall u :: u in Utf16(c) ==> 0 <= u < 0x10000
    ensures FromUtf16(Utf16(c) + rest) == (c, Units(c))
  {
    if c >= 0x10000 {
      assert (Utf16(c) + rest)[0] == Utf16(c)[0] && (Utf16(c) + rest)[1] == Utf16(c)[1];
    }
  }

  lemma Split2(n: nat)
    ensures Join2(n / 64, n % 64) == n
    ensures forall a: nat, b: nat :: b < 64 && Join2(a, b) == n ==> a == n / 64 && b == n % 64
  {
  }

  lemma Split3(n: nat)
    ensures Join3(n / 4096, n / 64 % 64, n % 64) == n
    ensures forall a: nat, b: nat, c: nat :: b < 64 && c < 64 && Join3(a, b, c) == n
              ==> a == n / 4096 && b == n / 64 % 64 && c == n % 64
  {
    Split2(n);
    Split2(n / 64);
    assert n / 64 / 64 == n / 4096;
  }

  lemma Split4(n: nat)
    ensures Join4(n / 262144, n / 4096 % 64, n / 64 % 64, n % 64) == n
    ensures forall a: nat, b: nat, c: nat, d: nat :: b < 64 && c < 64 && d < 64 && Join4(a, b, c, d) == n
              ==> a == n / 262144 && b == n / 4096 % 64 && c == n / 64 % 64 && d == n % 64
  {
    Split2(n);
    Split3(n / 64);
    assert n / 64 / 4096 == n / 262144 && n / 64 / 64 == n / 4096;
  }

  lemma DecodeOfEncode(c: int, rest: seq<byte>)
    requires Scalar(c)
    ensures DecodeRune(Encode(c) + rest) == (c, |Encode(c)|)
  {
    if 0x80 <= c < 0x800 {
      Split2(c);
    } else if 0x800 <= c < 0x10000 {
      Split3(c);
    } else if 0x10000 <= c {
      Split4(c);
    }
  }

  lemma EncodeOfDecode(p: seq<byte>)
    requires |p| > 0 && DecodeRune(p) != (RUNE_ERROR, 1)
    ensures Scalar(DecodeRune(p).0) && p[..DecodeRune(p).1] == Encode(DecodeRune(p).0)
  {
    var (c, w) := DecodeRune(p);
    if w == 2 {
      Split2(c);
    } else if w == 3 {
      Split3(c);
    } else if w == 4 {
      Split4(c);
    }
  }

  // The UTF-16 length of a text, or none if the loop of _checkPing would refuse it.
  datatype Length = Bad | Length(units: nat)

  function TextLength(p: seq<byte>): Length {
    if |p| == 0 then Length(0)
    else
      var (c, w) := DecodeRune(p);
      if c == RUNE_ERROR then Bad
      else match TextLength(p[w..])
           case Bad => Bad
           case Length(n) => Length(n + Units(c))
  }

  // The text whose code points are cs.
  ghost function Text(cs: seq<int>): seq<byte>
    requires forall c :: c in cs ==> Scalar(c)
  {
    if |cs| == 0 then [] else Encode(cs[0]) + Text(cs[1..])
  }

  function TotalUnits(cs: seq<int>): nat {
    if |cs| == 0 then 0 else Units(cs[0]) + TotalUnits(cs[1..])
  }

  // The text in UTF-16
  ghost function Text16(cs: seq<int>): seq<int>
    requires forall c :: c in cs ==> Scalar(c)
  {
    if |cs| == 0 then [] else Utf16(cs[0]) + Text16(cs[1..])
  }

  lemma {:induction false} TotalIsUtf16(cs: seq<int>)
    requires forall c :: c in cs ==> Scalar(c)
    ensures TotalUnits(cs) == |Text16(cs)|
  {
    hide Utf16, Units;
    if |cs| > 0 {
      UnitsAreUtf16(cs[0], []);
      TotalIsUtf16(cs[1..]);
    }
  }

  ghost predicate Spells(cs: seq<int>, p: seq<byte>) {
    (forall c :: c in cs ==> Scalar(c) && c != RUNE_ERROR) && Text(cs) == p
  }

  lemma {:induction false} LengthOfText(cs: seq<int>, p: seq<byte>)
    requires Spells(cs, p)
    ensures TextLength(p) == Length(TotalUnits(cs))
    ensures |p| <= 3 * TotalUnits(cs)
    decreases cs
  {
    hide DecodeRune, Scalar;
    if |cs| > 0 {
      assert cs[0] in cs;
      var rest := Text(cs[1..]);
      DecodeOfEncode(cs[0], rest);
      LengthOfText(cs[1..], rest);
      assert p[|Encode(cs[0])|..] == rest;
    }
  }

  lemma {:induction false} TextOfLength(p: seq<byte>) returns (cs: seq<int>)
    requires TextLength(p) != Bad
    ensures Spells(cs, p) && TextLength(p) == Length(TotalUnits(cs))
    decreases |p|
  {
    hide DecodeRune, Encode, Scalar, Units;
    if |p| == 0 {
      cs := [];
    } else {
      var (c, w) := DecodeRune(p);
      EncodeOfDecode(p);
      var rest := TextOfLength(p[w..]);
      cs := [c] + rest;
      assert cs[1..] == rest;
      assert p == p[..w] + p[w..];
    }
  }

  // The loop of _checkPing.
  method CheckText(data: seq<byte>) returns (r: Length)
    ensures r == TextLength(data)
  {
    hide DecodeRune;
    var units, a := 0, 0;
    while a < |data|
      invariant a <= |data|
      invariant match TextLength(data[a..])
                case Bad => TextLength(data) == Bad
                case Length(n) => TextLength(data) == Length(units + n)
      decreases |data| - a
    {
      var (c, step) := DecodeRune(data[a..]);
      if c == RUNE_ERROR {
        return Bad;
      }
      assert data[a..][step..] == data[a + step..];
      units := units + 1;
      if c >= 0x10000 {
        units := units + 1;
      }
      a := a + step;
    }
    r := Length(units);
  }

  // A ping passes exactly if it spells some code points other than U+FFFD, with at most 140
  // UTF-16 code units; the check on the byte count refuses nothing that this would accept.
  predicate Passes(p: seq<byte>) {
    |p| <= 3 * PING_CHAR_MAX && TextLength(p) != Bad && TextLength(p).units <= PING_CHAR_MAX
  }

  lemma PassesExactly(p: seq<byte>)
    ensures Passes(p) <==> exists cs :: Spells(cs, p) && |Text16(cs)| <= PING_CHAR_MAX
  {
    if cs :| Spells(cs, p) && |Text16(cs)| <= PING_CHAR_MAX {
      TotalIsUtf16(cs);
      LengthOfText(cs, p);
    }
    if Passes(p) {
      var cs := TextOfLength(p);
      TotalIsUtf16(cs);
      assert Spells(cs, p) && |Text16(cs)| <= PING_CHAR_MAX;
    }
  }
}
