/** UTF-8 as the Go runtime decodes it: an ill-formed byte reads as U+FFFD and advances by one. */
module Utf8 {

  type Byte = b: int | 0 <= b < 256

  const RUNE_ERROR := 0xFFFD

  predicate Continuation(b: Byte) {
    0x80 <= b <= 0xBF
  }

  /** The second byte of a three-byte form: no overlong forms, no surrogates. */
  predicate SecondOfThree(b0: Byte, b1: Byte) {
    && (if b0 == 0xE0 then 0xA0 else 0x80) <= b1
    && b1 <= (if b0 == 0xED then 0x9F else 0xBF)
  }

  /** The second byte of a four-byte form: no overlong forms, nothing above U+10FFFF. */
  predicate SecondOfFour(b0: Byte, b1: Byte) {
    && (if b0 == 0xF0 then 0x90 else 0x80) <= b1
    && b1 <= (if b0 == 0xF4 then 0x8F else 0xBF)
  }

  /** The number of bytes of the well-formed code point at the front of s, or 0 if there is none. */
  function RuneLength(s: seq<Byte>): (n: nat)
    ensures n <= 4 && n <= |s|
  {
    if s == [] then 0
    else if s[0] < 0x80 then 1
    else if 0xC2 <= s[0] <= 0xDF && |s| >= 2 && Continuation(s[1]) then 2
    else if 0xE0 <= s[0] <= 0xEF && |s| >= 3 && SecondOfThree(s[0], s[1]) && Continuation(s[2]) then 3
    else if 0xF0 <= s[0] <= 0xF4 && |s| >= 4 && SecondOfFour(s[0], s[1]) && Continuation(s[2]) && Continuation(s[3]) then 4
    else 0
  }

  /** How far one decoding step advances. */
  function Width(s: seq<Byte>): (n: nat)
    requires s != []
    ensures 1 <= n <= 4 && n <= |s|
  {
    if RuneLength(s) == 0 then 1 else RuneLength(s)
  }

  function DecodeRune(s: seq<Byte>): int
    requires s != []
  {
    match RuneLength(s)
    case 1 => s[0]
    case 2 => (s[0] - 0xC0) * 64 + (s[1] - 0x80)
    case 3 => (s[0] - 0xE0) * 4096 + (s[1] - 0x80) * 64 + (s[2] - 0x80)
    case 4 => (s[0] - 0xF0) * 262144 + (s[1] - 0x80) * 4096 + (s[2] - 0x80) * 64 + (s[3] - 0x80)
    case _ => RUNE_ERROR
  }

  function EncodeRune(r: int): (bytes: seq<Byte>)
    ensures 1 <= |bytes| <= 4
  {
    if 0 <= r < 0x80 then [r]
    else if 0x80 <= r < 0x800 then [0xC0 + r / 64, 0x80 + r % 64]
    else if 0x800 <= r < 0x10000 && !(0xD800 <= r <= 0xDFFF) then
      [0xE0 + r / 4096, 0x80 + r / 64 % 64, 0x80 + r % 64]
    else if 0x10000 <= r <= 0x10FFFF then
      [0xF0 + r / 262144, 0x80 + r / 4096 % 64, 0x80 + r / 64 % 64, 0x80 + r % 64]
    else [0xEF, 0xBF, 0xBD]
  }

  /** What decoding the front of s and encoding it again produces. */
  function Front(s: seq<Byte>): (bytes: seq<Byte>)
    requires s != []
    ensures 1 <= |bytes| <= 4
  {
    EncodeRune(DecodeRune(s))
  }

  lemma LowDigit(q: int, d: int)
    requires 0 <= d < 64
    ensures (q * 64 + d) / 64 == q && (q * 64 + d) % 64 == d
  {
  }

  lemma ThreeByteDigits(a: int, b: int, c: int)
    requires 0 <= a && 0 <= b < 64 && 0 <= c < 64
    ensures var r := a * 4096 + b * 64 + c; r / 4096 == a && r / 64 % 64 == b && r % 64 == c
  {
    LowDigit(a * 64 + b, c);
    LowDigit(a, b);
  }

  lemma FourByteDigits(a: int, b: int, c: int, d: int)
    requires 0 <= a && 0 <= b < 64 && 0 <= c < 64 && 0 <= d < 64
    ensures var r := a * 262144 + b * 4096 + c * 64 + d;
      r / 262144 == a && r / 4096 % 64 == b && r / 64 % 64 == c && r % 64 == d
  {
    LowDigit(a * 4096 + b * 64 + c, d);
    ThreeByteDigits(a, b, c);
    var r := a * 262144 + b * 4096 + c * 64 + d;
    assert r / 4096 == (r / 64) / 64;
    assert r / 262144 == (r / 64) / 4096;
  }

  lemma ThreeByteFront(s: seq<Byte>)
    requires RuneLength(s) == 3
    ensures Front(s) == [s[0], s[1], s[2]]
  {
    ThreeByteDigits(s[0] - 0xE0, s[1] - 0x80, s[2] - 0x80);
  }

  lemma FourByteFront(s: seq<Byte>)
    requires RuneLength(s) == 4
    ensures Front(s) == [s[0], s[1], s[2], s[3]]
  {
    FourByteDigits(s[0] - 0xF0, s[1] - 0x80, s[2] - 0x80, s[3] - 0x80);
  }

  lemma TwoByteFront(s: seq<Byte>)
    requires RuneLength(s) == 2
    ensures Front(s) == [s[0], s[1]]
  {
    LowDigit(s[0] - 0xC0, s[1] - 0x80);
  }

  /** Well-formed code points survive decoding and encoding; an ill-formed byte becomes three. */
  lemma FrontIsFaithful(s: seq<Byte>)
    requires s != []
    ensures RuneLength(s) > 0 ==> Front(s) == s[..Width(s)]
    ensures RuneLength(s) == 0 ==> Front(s) == [0xEF, 0xBF, 0xBD]
  {
    if RuneLength(s) == 2 {
      TwoByteFront(s);
    } else if RuneLength(s) == 3 {
      ThreeByteFront(s);
    } else if RuneLength(s) == 4 {
      FourByteFront(s);
    }
  }

  /** Encoding a code point above U+07FF takes its bits in groups of six. */
  lemma SixBits(r: int)
    requires 0 <= r
    ensures r == r / 4096 * 4096 + r / 64 % 64 * 64 + r % 64
    ensures r / 4096 == r / 262144 * 64 + r / 4096 % 64
  {
    var q := r / 64;
    assert r / 4096 == q / 64 && r / 262144 == r / 4096 / 64;
  }

  lemma ThreeByteRune(r: int)
    requires 0x800 <= r < 0x10000 && !(0xD800 <= r <= 0xDFFF)
    ensures RuneLength(EncodeRune(r)) == 3 && DecodeRune(EncodeRune(r)) == r
  {
    SixBits(r);
  }

  lemma FourByteRune(r: int)
    requires 0x10000 <= r <= 0x10FFFF
    ensures RuneLength(EncodeRune(r)) == 4 && DecodeRune(EncodeRune(r)) == r
  {
    SixBits(r);
  }

  /** Conversely every code point but the surrogates has a well-formed encoding, which decodes to it. */
  lemma EncodedRuneDecodes(r: int)
    requires 0 <= r <= 0x10FFFF && !(0xD800 <= r <= 0xDFFF)
    ensures RuneLength(EncodeRune(r)) == |EncodeRune(r)| && DecodeRune(EncodeRune(r)) == r
    ensures |EncodeRune(r)| == if r < 0x80 then 1 else if r < 0x800 then 2 else if r < 0x10000 then 3 else 4
  {
    if r >= 0x10000 {
      FourByteRune(r);
    } else if r >= 0x800 {
      ThreeByteRune(r);
    }
  }

  predicate Valid(s: seq<Byte>) {
    s == [] || (RuneLength(s) > 0 && Valid(s[Width(s)..]))
  }

  /** The bytes that a decode-and-re-encode loop over s writes. */
  function Sanitize(s: seq<Byte>): seq<Byte> {
    if s == [] then [] else Front(s) + Sanitize(s[Width(s)..])
  }

  lemma FrontLength(s: seq<Byte>)
    requires s != []
    ensures RuneLength(s) > 0 ==> Front(s) + s[Width(s)..] == s
    ensures RuneLength(s) == 0 ==> |Front(s)| > Width(s)
  {
    FrontIsFaithful(s);
  }

  /** The loop is the identity on well-formed text and grows every other text. */
  lemma {:induction false} SanitizeLength(s: seq<Byte>)
    ensures Valid(s) ==> Sanitize(s) == s
    ensures !Valid(s) ==> |Sanitize(s)| > |s|
  {
    if s != [] {
      var rest := s[Width(s)..];
      SanitizeLength(rest);
      FrontLength(s);
      if Valid(s) {
        assert Sanitize(s) == Front(s) + rest;
      } else {
        assert |Sanitize(s)| == |Front(s)| + |Sanitize(rest)|;
      }
    }
  }

  lemma SanitizeIsIdentityIffValid(s: seq<Byte>)
    ensures Sanitize(s) == s <==> Valid(s)
  {
    SanitizeLength(s);
  }

  lemma FrontIsValid(s: seq<Byte>)
    requires s != []
    ensures RuneLength(Front(s)) == |Front(s)|
  {
    FrontIsFaithful(s);
  }

  lemma RuneLengthOfPrefix(a: seq<Byte>, b: seq<Byte>)
    requires RuneLength(a) > 0
    ensures RuneLength(a + b) == RuneLength(a)
  {
    var n := RuneLength(a);
    assert forall i :: 0 <= i < n ==> (a + b)[i] == a[i];
  }

  lemma DropOfConcat<T>(a: seq<T>, b: seq<T>, n: nat)
    requires n <= |a|
    ensures (a + b)[n..] == a[n..] + b
  {
  }

  lemma ValidStep(s: seq<Byte>, n: nat)
    requires s != [] && n == RuneLength(s) > 0 && Valid(s[n..])
    ensures Valid(s)
  {
  }

  lemma {:induction false} ValidConcat(a: seq<Byte>, b: seq<Byte>)
    requires Valid(a) && Valid(b)
    ensures Valid(a + b)
  {
    if a == [] {
      assert a + b == b;
    } else {
      var n := RuneLength(a);
      ValidConcat(a[n..], b);
      DropOfConcat(a, b, n);
      ValidStep(a + b, n) by {
        RuneLengthOfPrefix(a, b);
      }
    }
  }

  lemma FrontExtendsValid(a: seq<Byte>, s: seq<Byte>)
    requires Valid(a) && s != []
    ensures Valid(a + Front(s))
  {
    FrontIsValid(s);
    var f := Front(s);
    assert f[Width(f)..] == [];
    ValidConcat(a, f);
  }

  /** Dropping a code point's worth of bytes at a time only ever cuts at code point boundaries. */
  predicate Boundary(s: seq<Byte>, i: nat)
    requires i <= |s|
  {
    i == |s| || !Continuation(s[i])
  }

  lemma RuneLengthIsLocal(s: seq<Byte>, i: nat)
    requires s != [] && RuneLength(s) > 0 && RuneLength(s) <= i <= |s|
    ensures RuneLength(s[..i]) == RuneLength(s)
  {
  }

  lemma CutFirst(s: seq<Byte>, i: nat)
    requires s != [] && RuneLength(s) > 0 && Width(s) <= i <= |s| && Valid(s[Width(s)..i])
    ensures Valid(s[..i])
  {
    RuneLengthIsLocal(s, i);
    assert s[..i][Width(s)..] == s[Width(s)..i];
  }

  lemma BoundaryIsPastFirst(s: seq<Byte>, i: nat)
    requires s != [] && RuneLength(s) > 0 && 0 < i <= |s| && Boundary(s, i)
    ensures Width(s) <= i
  {
  }

  /** In well-formed text, every cut in front of a non-continuation byte leaves well-formed text. */
  lemma {:induction false} CutAtBoundary(s: seq<Byte>, i: nat)
    requires Valid(s) && i <= |s| && Boundary(s, i)
    ensures Valid(s[..i])
  {
    if i > 0 {
      var n := Width(s);
      BoundaryIsPastFirst(s, i);
      CutAtBoundary(s[n..], i - n);
      assert s[n..][..i - n] == s[n..i];
      CutFirst(s, i);
    }
  }

  /** A code point is at most four bytes, so a boundary is never more than three bytes away. */
  lemma {:induction false} BoundaryIsNear(s: seq<Byte>, i: nat)
    requires Valid(s) && 3 <= i <= |s|
    ensures Boundary(s, i) || Boundary(s, i - 1) || Boundary(s, i - 2) || Boundary(s, i - 3)
  {
    if i < |s| {
      var n := Width(s);
      if i < n {
        assert Boundary(s, 0);
      } else if i - 3 >= n {
        BoundaryIsNear(s[n..], i - n);
      } else {
        assert n == |s| || Boundary(s, n) by {
          if n < |s| {
            assert RuneLength(s[n..]) > 0;
            assert s[n..][0] == s[n];
          }
        }
      }
    }
  }
}
