/**
 * UTF-8 as both clients meet it when they turn downloaded bytes into text:
 * Python's `bytes.decode('utf-8')` rejects malformed input, Node's
 * `Buffer.toString('utf-8')` replaces each maximal ill-formed subpart with
 * U+FFFD. One scanner, following the well-formed byte sequences of
 * Table 3-7 of the Unicode Standard, drives both decoders.
 */
module Utf8 {
  import opened Wrappers
  import opened Bytes

  /** What the decoder finds at the start of the input: a scalar value and its length, or a maximal ill-formed subpart. */
  datatype Step = Scalar(c: char, len: nat) | Invalid(len: nat)

  /** The replacement character U+FFFD. */
  const Replacement: char := 0xFFFD as char

  /** Length of the sequence a lead byte opens; 0 when the byte cannot open one. */
  function SeqLen(b0: byte): nat {
    if b0 < 0x80 then 1
    else if 0xC2 <= b0 <= 0xDF then 2
    else if 0xE0 <= b0 <= 0xEF then 3
    else if 0xF0 <= b0 <= 0xF4 then 4
    else 0
  }

  /** The range of the second byte after a lead byte: narrower after E0, ED, F0 and F4. */
  predicate SecondFits(b0: byte, b1: byte) {
    if b0 == 0xE0 then 0xA0 <= b1 <= 0xBF
    else if b0 == 0xED then 0x80 <= b1 <= 0x9F
    else if b0 == 0xF0 then 0x90 <= b1 <= 0xBF
    else if b0 == 0xF4 then 0x80 <= b1 <= 0x8F
    else 0x80 <= b1 <= 0xBF
  }

  predicate Continuation(b: byte) {
    0x80 <= b <= 0xBF
  }

  /** Decodes the first scalar value of `b`, or measures the ill-formed subpart it starts with. */
  function Scan(b: seq<byte>): (r: Step)
    requires |b| > 0
    ensures 1 <= r.len <= |b|
  {
    var n := SeqLen(b[0]);
    if n == 0 then Invalid(1)
    else if n == 1 then Scalar(b[0] as char, 1)
    else if |b| < 2 || !SecondFits(b[0], b[1]) then Invalid(1)
    else if n == 2 then Scalar(((b[0] as int - 0xC0) * 64 + (b[1] as int - 0x80)) as char, 2)
    else if |b| < 3 || !Continuation(b[2]) then Invalid(2)
    else if n == 3 then Scalar(((b[0] as int - 0xE0) * 0x1000 + (b[1] as int - 0x80) * 64 + (b[2] as int - 0x80)) as char, 3)
    else if |b| < 4 || !Continuation(b[3]) then Invalid(3)
    else Scalar(((b[0] as int - 0xF0) * 0x40000 + (b[1] as int - 0x80) * 0x1000 + (b[2] as int - 0x80) * 64 + (b[3] as int - 0x80)) as char, 4)
  }

  /** Strict decoding, as Python's `decode('utf-8')`: `None` (a `UnicodeDecodeError`) on any ill-formed input. */
  function Decode(b: seq<byte>): Option<string>
    decreases |b|
  {
    if |b| == 0 then Some("")
    else match Scan(b)
      case Invalid(_) => None
      case Scalar(c, n) =>
        match Decode(b[n..])
        case None => None
        case Some(s) => Some([c] + s)
  }

  /** Replacing decoding, as Node's `toString('utf-8')`: never fails, one U+FFFD per maximal ill-formed subpart. */
  function DecodeLossy(b: seq<byte>): string
    decreases |b|
  {
    if |b| == 0 then ""
    else match Scan(b)
      case Invalid(n) => [Replacement] + DecodeLossy(b[n..])
      case Scalar(c, n) => [c] + DecodeLossy(b[n..])
  }

  /** The UTF-8 form of one scalar value. */
  function EncodeChar(c: char): (r: seq<byte>)
    ensures 1 <= |r| <= 4
  {
    var v := c as int;
    var v1 := v / 64;
    var v2 := v1 / 64;
    if v < 0x80 then [v]
    else if v < 0x800 then [0xC0 + v1, 0x80 + v % 64]
    else if v < 0x10000 then [0xE0 + v2, 0x80 + v1 % 64, 0x80 + v % 64]
    else [0xF0 + v2 / 64, 0x80 + v2 % 64, 0x80 + v1 % 64, 0x80 + v % 64]
  }

  /** The UTF-8 form of a string: what a file opened for writing with encoding `utf-8` receives. */
  function Encode(s: string): (r: seq<byte>)
    ensures |r| == 0 <==> |s| == 0
  {
    if |s| == 0 then [] else EncodeChar(s[0]) + Encode(s[1..])
  }

  /** Division by 64 splits off the low six bits. */
  lemma Split64(q: int, r: int)
    requires 0 <= r < 64
    ensures (q * 64 + r) / 64 == q && (q * 64 + r) % 64 == r
  {
  }

  lemma ScanEncodeChar(c: char, rest: seq<byte>)
    ensures Scan(EncodeChar(c) + rest) == Scalar(c, |EncodeChar(c)|)
  {
    var v := c as int;
    var v1 := v / 64;
    var v2 := v1 / 64;
    assert v == v1 * 64 + v % 64 && v1 == v2 * 64 + v1 % 64;
    if 0x10000 <= v {
      assert v2 == (v2 / 64) * 64 + v2 % 64;
    }
  }

  lemma EncodeTwo(x: byte, y: byte)
    requires 0xC2 <= x <= 0xDF && Continuation(y)
    ensures EncodeChar(((x as int - 0xC0) * 64 + (y as int - 0x80)) as char) == [x, y]
  {
    var v := (x as int - 0xC0) * 64 + (y as int - 0x80);
    assert v / 64 == x as int - 0xC0 && v % 64 == y as int - 0x80;
  }

  lemma EncodeThree(x: byte, y: byte, z: byte)
    requires 0xE0 <= x <= 0xEF && SecondFits(x, y) && Continuation(z)
    ensures var v := (x as int - 0xE0) * 0x1000 + (y as int - 0x80) * 64 + (z as int - 0x80);
      (0x800 <= v < 0xD800 || 0xE000 <= v < 0x10000) && EncodeChar(v as char) == [x, y, z]
  {
    var t := (x as int - 0xE0) * 64 + (y as int - 0x80);
    Split64(x as int - 0xE0, y as int - 0x80);
    Split64(t, z as int - 0x80);
  }

  lemma EncodeFour(w: byte, x: byte, y: byte, z: byte)
    requires 0xF0 <= w <= 0xF4 && SecondFits(w, x) && Continuation(y) && Continuation(z)
    ensures var v := (w as int - 0xF0) * 0x40000 + (x as int - 0x80) * 0x1000 + (y as int - 0x80) * 64 + (z as int - 0x80);
      0x10000 <= v < 0x110000 && EncodeChar(v as char) == [w, x, y, z]
  {
    var t2 := (w as int - 0xF0) * 64 + (x as int - 0x80);
    var t1 := t2 * 64 + (y as int - 0x80);
    Split64(w as int - 0xF0, x as int - 0x80);
    Split64(t2, y as int - 0x80);
    Split64(t1, z as int - 0x80);
  }

  lemma EncodeCharScan(b: seq<byte>)
    requires |b| > 0 && Scan(b).Scalar?
    ensures b[..Scan(b).len] == EncodeChar(Scan(b).c)
  {
    var n := SeqLen(b[0]);
    if n == 2 {
      EncodeTwo(b[0], b[1]);
    } else if n == 3 {
      EncodeThree(b[0], b[1], b[2]);
    } else if n == 4 {
      EncodeFour(b[0], b[1], b[2], b[3]);
    }
  }

  /** Every string survives encoding and strict decoding. */
  lemma {:induction false} DecodeEncode(s: string)
    ensures Decode(Encode(s)) == Some(s)
    decreases |s|
  {
    if |s| > 0 {
      var e := EncodeChar(s[0]);
      ScanEncodeChar(s[0], Encode(s[1..]));
      assert (e + Encode(s[1..]))[|e|..] == Encode(s[1..]);
      DecodeEncode(s[1..]);
      assert s == [s[0]] + s[1..];
    }
  }

  /** Bytes the strict decoder accepts are exactly the encoding of the text it yields: writing that text back restores them. */
  lemma {:induction false} EncodeDecode(b: seq<byte>)
    requires Decode(b).Some?
    ensures Encode(Decode(b).value) == b
    decreases |b|
  {
    if |b| > 0 {
      var n := Scan(b).len;
      EncodeCharScan(b);
      EncodeDecode(b[n..]);
      assert b == b[..n] + b[n..];
    }
  }

  /** On well-formed input the replacing decoder yields what the strict decoder yields. */
  lemma {:induction false} LossyAgrees(b: seq<byte>)
    requires Decode(b).Some?
    ensures DecodeLossy(b) == Decode(b).value
    decreases |b|
  {
    if |b| > 0 {
      LossyAgrees(b[Scan(b).len..]);
    }
  }

  /** On ill-formed input the replacing decoder leaves a U+FFFD behind. */
  lemma {:induction false} LossyMarksDamage(b: seq<byte>)
    requires Decode(b).None?
    ensures Replacement in DecodeLossy(b)
    decreases |b|
  {
    if Scan(b).Scalar? {
      LossyMarksDamage(b[Scan(b).len..]);
    }
  }
}
