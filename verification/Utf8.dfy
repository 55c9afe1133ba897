/** UTF-8 (section 3 of RFC 3629): encoding, decoding, and cutting bytes without cutting a character. */
module Utf8 {

  newtype Byte = i: int | 0 <= i < 256

  /** A character of a `string` is a Unicode scalar value; surrogates are none. */
  predicate IsScalar(n: int) { 0 <= n < 0xD800 || 0xE000 <= n < 0x110000 }

  function EncodeScalar(ch: char): (bytes: seq<Byte>)
    ensures 1 <= |bytes| <= 4
  {
    var c := ch as int;
    if c < 0x80 then [c as Byte]
    else if c < 0x800 then [(0xC0 + c / 0x40) as Byte, (0x80 + c % 0x40) as Byte]
    else if c < 0x10000 then
      [(0xE0 + c / 0x1000) as Byte, (0x80 + c / 0x40 % 0x40) as Byte, (0x80 + c % 0x40) as Byte]
    else
      [(0xF0 + c / 0x40000) as Byte, (0x80 + c / 0x1000 % 0x40) as Byte, (0x80 + c / 0x40 % 0x40) as Byte, (0x80 + c % 0x40) as Byte]
  }

  function Encode(text: string): seq<Byte> {
    if text == "" then [] else EncodeScalar(text[0]) + Encode(text[1..])
  }

  /** The byte test `(b & 0xc0) === 0x80`: the two high bits are 10. */
  predicate IsContinuation(b: Byte) { 0x80 <= b < 0xC0 }

  /** The first byte of a character is never a continuation, and all others are. */
  lemma EncodeShape(c: char)
    ensures !IsContinuation(EncodeScalar(c)[0])
    ensures forall i | 0 < i < |EncodeScalar(c)| :: IsContinuation(EncodeScalar(c)[i])
  {
  }

  lemma {:induction false} EncodeAppend(a: string, b: string)
    ensures Encode(a + b) == Encode(a) + Encode(b)
  {
    if a == [] {
      assert a + b == b;
    } else {
      assert (a + b)[1..] == a[1..] + b;
      EncodeAppend(a[1..], b);
    }
  }

  /** The characters of the longest code-point prefix whose encoding fits `max` bytes. */
  function FittingPrefix(text: string, max: int): (k: nat)
    ensures k <= |text|
  {
    if text == "" || |EncodeScalar(text[0])| > max then 0
    else 1 + FittingPrefix(text[1..], max - |EncodeScalar(text[0])|)
  }

  /** It fits, and one more character would not. */
  lemma {:induction false} FittingPrefixIs(text: string, max: nat)
    ensures var k := FittingPrefix(text, max);
      && |Encode(text[..k])| <= max
      && (k < |text| ==> |Encode(text[..k + 1])| > max)
  {
    var k := FittingPrefix(text, max);
    if k > 0 {
      var rest := max - |EncodeScalar(text[0])|;
      FittingPrefixIs(text[1..], rest);
      assert text[..k][1..] == text[1..][..k - 1];
      if k < |text| { assert text[..k + 1][1..] == text[1..][..k]; }
    } else if text != "" {
      assert text[..1][1..] == [];
    }
  }

  /** Backing up from `end` over continuation bytes. */
  function BackUp(bytes: seq<Byte>, end: nat): (e: nat)
    requires end < |bytes|
    ensures e <= end
  {
    if end > 0 && IsContinuation(bytes[end]) then BackUp(bytes, end - 1) else end
  }

  /** Encoding and fitting, one character at a time. */
  lemma FirstCharacter(text: string)
    requires text != ""
    ensures Encode(text) == EncodeScalar(text[0]) + Encode(text[1..])
    ensures var head := EncodeScalar(text[0]);
      1 <= |head| <= 4 && !IsContinuation(head[0]) && forall i | 0 < i < |head| :: IsContinuation(head[i])
  {
    EncodeShape(text[0]);
    hide EncodeScalar;
  }

  lemma FitsFirst(text: string, max: int)
    requires text != ""
    ensures var h := |EncodeScalar(text[0])|;
      FittingPrefix(text, max) == if h > max then 0 else 1 + FittingPrefix(text[1..], max - h)
  {
    hide EncodeScalar;
  }

  lemma NoBytes(text: string)
    ensures Encode("") == [] && (Encode(text) == [] <==> text == "")
  {
  }

  /** The bytes of one character more. */
  lemma PrefixBytes(text: string, k: nat)
    requires text != "" && k < |text|
    ensures Encode(text[..k + 1]) == EncodeScalar(text[0]) + Encode(text[1..][..k])
  {
    hide EncodeScalar;
    assert text[..k + 1][1..] == text[1..][..k];
  }

  /** From inside a text's bytes it lands on a character boundary: the end of the longest fitting prefix. */
  lemma {:induction false} BackUpLands(text: string, end: nat)
    requires end < |Encode(text)|
    ensures BackUp(Encode(text), end) == |Encode(text[..FittingPrefix(text, end)])|
    ensures end - BackUp(Encode(text), end) <= 3
    decreases |text|
  {
    hide *;
    NoBytes(text);
    FirstCharacter(text);
    FitsFirst(text, end);
    var head, rest := EncodeScalar(text[0]), text[1..];
    if end < |head| {
      BackUpInHead(Encode(text), head, end);
      NoBytes(text[..0]);
    } else {
      NoBytes(rest);
      FirstCharacter(rest);
      BackUpLands(rest, end - |head|);
      BackUpShift(head, Encode(rest), end - |head|);
      PrefixBytes(text, FittingPrefix(rest, end - |head|));
    }
  }

  lemma {:induction false} BackUpInHead(bytes: seq<Byte>, head: seq<Byte>, end: nat)
    requires end < |head| <= |bytes| && bytes[..|head|] == head
    requires !IsContinuation(head[0]) && forall i | 0 < i < |head| :: IsContinuation(head[i])
    ensures BackUp(bytes, end) == 0
  {
    assert bytes[end] == head[end];
    if end > 0 { BackUpInHead(bytes, head, end - 1); }
  }

  lemma {:induction false} BackUpShift(head: seq<Byte>, tail: seq<Byte>, end: nat)
    requires end < |tail| && !IsContinuation(tail[0])
    ensures BackUp(head + tail, |head| + end) == |head| + BackUp(tail, end)
  {
    assert (head + tail)[|head| + end] == tail[end];
    if end > 0 { BackUpShift(head, tail, end - 1); }
  }

  // ---- decoding ----

  /** The length a lead byte announces. */
  function SequenceLength(b: Byte): nat {
    if b < 0x80 then 1 else if b < 0xE0 then 2 else if b < 0xF0 then 3 else 4
  }

  function Bits(b: Byte): nat { (b as int) % 0x40 }

  /** The number a whole sequence stands for; only ever read on well-formed bytes here. */
  function DecodeNumber(bytes: seq<Byte>): int
    requires 1 <= |bytes| <= 4
  {
    match |bytes|
    case 1 => bytes[0] as int
    case 2 => (bytes[0] as int - 0xC0) * 0x40 + Bits(bytes[1])
    case 3 => (bytes[0] as int - 0xE0) * 0x1000 + Bits(bytes[1]) * 0x40 + Bits(bytes[2])
    case _ => (bytes[0] as int - 0xF0) * 0x40000 + Bits(bytes[1]) * 0x1000 + Bits(bytes[2]) * 0x40 + Bits(bytes[3])
  }

  /** What is not a character reads as the replacement character. */
  function Decode(bytes: seq<Byte>): string
    decreases |bytes|
  {
    if bytes == [] then ""
    else if SequenceLength(bytes[0]) > |bytes| then "\U{FFFD}"
    else
      var n := SequenceLength(bytes[0]);
      var c := DecodeNumber(bytes[..n]);
      [if IsScalar(c) then c as char else '\U{FFFD}'] + Decode(bytes[n..])
  }

  lemma ContinuationBits(x: nat)
    ensures 0x80 + x % 0x40 < 256 && Bits((0x80 + x % 0x40) as Byte) == x % 0x40
  {
  }

  /** A number is its digits to the base 64. */
  lemma BaseSixtyFour(c: nat)
    ensures c == c / 0x40 * 0x40 + c % 0x40
    ensures c / 0x1000 == c / 0x40 / 0x40 && c / 0x40000 == c / 0x1000 / 0x40
  {
  }

  lemma DecodesScalar(ch: char)
    ensures SequenceLength(EncodeScalar(ch)[0]) == |EncodeScalar(ch)| && DecodeNumber(EncodeScalar(ch)) == ch as int
    ensures IsScalar(ch as int)
  {
    var c := ch as int;
    BaseSixtyFour(c);
    BaseSixtyFour(c / 0x40);
    BaseSixtyFour(c / 0x1000);
    ContinuationBits(c);
    ContinuationBits(c / 0x40);
    ContinuationBits(c / 0x1000);
    hide Bits;
    if c < 0x80 {
    } else if c < 0x800 {
      assert |EncodeScalar(ch)| == 2;
    } else if c < 0x10000 {
      assert |EncodeScalar(ch)| == 3;
    } else {
      assert |EncodeScalar(ch)| == 4;
    }
  }

  /** Decoding gives back every text. */
  lemma {:induction false} DecodeEncode(text: string)
    ensures Decode(Encode(text)) == text
  {
    if text != "" {
      var head := EncodeScalar(text[0]);
      DecodesScalar(text[0]);
      DecodeEncode(text[1..]);
      assert Encode(text)[..|head|] == head && Encode(text)[|head|..] == Encode(text[1..]);
    }
  }

  // ---- reading the first bytes of a text ----

  /** The cut falls between two characters. */
  predicate Boundary(text: string, n: nat)
    requires n <= |Encode(text)|
  {
    n == |Encode(text)| || !IsContinuation(Encode(text)[n])
  }

  /** Cut between characters, a text reads as its prefix; cut inside one, as the prefix and one replacement character. */
  lemma {:induction false} DecodePrefix(text: string, n: nat)
    requires n <= |Encode(text)|
    ensures Decode(Encode(text)[..n]) == text[..FittingPrefix(text, n)] + if Boundary(text, n) then "" else "\U{FFFD}"
    ensures !Boundary(text, n) ==> FittingPrefix(text, n) < |text| && text[FittingPrefix(text, n)] as int >= 0x80
    decreases |text|
  {
    hide *;
    if text == "" {
      NothingToRead(n);
    } else {
      FirstCharacter(text);
      var head, rest := EncodeScalar(text[0]), text[1..];
      if n < |head| {
        PrefixOfHead(text, n);
      } else {
        DecodePrefix(rest, n - |head|);
        CutOfConcat(head, Encode(rest), n);
        CutAfterHead(text, n);
        ReadHead(text[0], Encode(rest)[..n - |head|]);
        var k := FittingPrefix(rest, n - |head|);
        assert text[..k + 1] == [text[0]] + rest[..k];
      }
    }
  }

  lemma NothingToRead(n: nat)
    requires n <= |Encode("")|
    ensures Boundary("", n) && Decode(Encode("")[..n]) == "" && FittingPrefix("", n) == 0
  {
  }

  lemma CutOfConcat<T>(a: seq<T>, b: seq<T>, n: nat)
    requires |a| <= n <= |a| + |b|
    ensures (a + b)[..n] == a + b[..n - |a|]
    ensures n < |a| + |b| ==> (a + b)[n] == b[n - |a|]
  {
  }

  lemma CutAfterHead(text: string, n: nat)
    requires text != "" && |EncodeScalar(text[0])| <= n <= |Encode(text)|
    ensures Boundary(text, n) <==> Boundary(text[1..], n - |EncodeScalar(text[0])|)
    ensures FittingPrefix(text, n) == 1 + FittingPrefix(text[1..], n - |EncodeScalar(text[0])|)
  {
    hide FittingPrefix, Encode, EncodeScalar, IsContinuation;
    FirstCharacter(text);
    FitsFirst(text, n);
    CutOfConcat(EncodeScalar(text[0]), Encode(text[1..]), n);
  }

  lemma ReadHead(c: char, more: seq<Byte>)
    ensures Decode(EncodeScalar(c) + more) == [c] + Decode(more)
  {
    var head := EncodeScalar(c);
    DecodesScalar(c);
    hide EncodeScalar;
    assert (head + more)[..|head|] == head && (head + more)[|head|..] == more;
  }

  lemma PrefixOfHead(text: string, n: nat)
    requires text != "" && n < |EncodeScalar(text[0])|
    ensures FittingPrefix(text, n) == 0 && (Boundary(text, n) <==> n == 0)
    ensures Decode(Encode(text)[..n]) == if n == 0 then "" else "\U{FFFD}"
    ensures n > 0 ==> text[0] as int >= 0x80
  {
    var head := EncodeScalar(text[0]);
    EncodeShape(text[0]);
    DecodesScalar(text[0]);
    assert text[0] as int < 0x80 ==> |head| == 1;
    hide EncodeScalar;
    assert Encode(text)[..n] == head[..n] && Encode(text)[n] == head[n];
  }

  lemma {:induction false} FittingPrefixGrows(text: string, m: nat, n: nat)
    requires m <= n <= |Encode(text)|
    ensures FittingPrefix(text, m) <= FittingPrefix(text, n)
    ensures FittingPrefix(text, m) == FittingPrefix(text, n) && !Boundary(text, m) ==> !Boundary(text, n)
  {
    if text != "" {
      var h := |EncodeScalar(text[0])|;
      if n < h {
        PrefixOfHead(text, n);
        PrefixOfHead(text, m);
      } else if m >= h {
        CutAfterHead(text, m);
        CutAfterHead(text, n);
        FittingPrefixGrows(text[1..], m - h, n - h);
      } else {
        CutAfterHead(text, n);
      }
    }
  }

  /** Cut a buffer to at most `maxBytes` without splitting a character. */
  method SliceUtf8(buf: seq<Byte>, maxBytes: int, ghost text: string) returns (slice: seq<Byte>)
    requires buf == Encode(text)
    ensures slice == Encode(text[..FittingPrefix(text, maxBytes)])
    ensures maxBytes >= 0 ==> |slice| <= maxBytes && (|buf| > maxBytes ==> |slice| >= maxBytes - 3)
    ensures maxBytes >= |buf| ==> slice == buf
    ensures Decode(slice) == text[..FittingPrefix(text, maxBytes)]
  {
    hide EncodeScalar, Encode, Decode, FittingPrefix, IsContinuation;
    DecodeEncode(text[..FittingPrefix(text, maxBytes)]);
    if maxBytes <= 0 {
      NothingFits(text, maxBytes);
      return [];
    }
    FittingPrefixIs(text, maxBytes);
    if |buf| <= maxBytes {
      AllFits(text, maxBytes);
      return buf;
    }
    var end := maxBytes;
    while end > 0 && IsContinuation(buf[end])
      invariant 0 <= end <= maxBytes
      invariant BackUp(buf, end) == BackUp(buf, maxBytes)
    {
      end := end - 1;
    }
    BackUpLands(text, maxBytes);
    PrefixIsCut(text, FittingPrefix(text, maxBytes));
    slice := buf[..end];
  }

  lemma PrefixIsCut(text: string, k: nat)
    requires k <= |text|
    ensures |Encode(text[..k])| <= |Encode(text)| && Encode(text)[..|Encode(text[..k])|] == Encode(text[..k])
  {
    hide Encode;
    assert text == text[..k] + text[k..];
    EncodeAppend(text[..k], text[k..]);
  }

  lemma NothingFits(text: string, max: int)
    requires max <= 0
    ensures FittingPrefix(text, max) == 0 && Encode(text[..0]) == []
  {
  }

  lemma {:induction false} AllFits(text: string, max: int)
    requires |Encode(text)| <= max
    ensures FittingPrefix(text, max) == |text| && text[..|text|] == text
  {
    if text != "" { AllFits(text[1..], max - |EncodeScalar(text[0])|); }
  }
}
