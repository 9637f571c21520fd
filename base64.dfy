/**
 * The base64 transfer encoding of section 4 of RFC 4648, with `=` padding:
 * what Python's `base64.b64encode` and Node's `Buffer.toString('base64')`
 * produce, a strict decoder that accepts exactly their output, and the
 * lenient decoder of Python's `base64.b64decode` (`validate=False`).
 */
module Base64 {
  import opened Wrappers
  import opened Bytes

  /** A 6-bit group: the value of one base64 character. */
  type sextet = v: int | 0 <= v < 64

  /** The character of the base64 alphabet (`A`-`Z`, `a`-`z`, `0`-`9`, `+`, `/`) for a 6-bit value. */
  function CharOf(v: sextet): char {
    if v < 26 then ('A' as int + v) as char
    else if v < 52 then ('a' as int + (v - 26)) as char
    else if v < 62 then ('0' as int + (v - 52)) as char
    else if v == 62 then '+'
    else '/'
  }

  /** The value of a character of the alphabet; `None` for any other character, `=` included. */
  function ValueOf(c: char): (r: Option<sextet>)
    ensures r.Some? ==> CharOf(r.value) == c
  {
    if 'A' <= c <= 'Z' then Some(c as int - 'A' as int)
    else if 'a' <= c <= 'z' then Some(c as int - 'a' as int + 26)
    else if '0' <= c <= '9' then Some(c as int - '0' as int + 52)
    else if c == '+' then Some(62)
    else if c == '/' then Some(63)
    else None
  }

  lemma ValueOfCharOf(v: sextet)
    ensures ValueOf(CharOf(v)) == Some(v)
  {
  }

  /** Three octets as four characters. */
  function EncodeGroup(x: byte, y: byte, z: byte): (r: string) {
    [CharOf(x / 4), CharOf((x % 4) * 16 + y / 16), CharOf((y % 16) * 4 + z / 64), CharOf(z % 64)]
  }

  /** One final octet: two characters and `==`. */
  function EncodeOne(x: byte): (r: string) {
    [CharOf(x / 4), CharOf((x % 4) * 16), '=', '=']
  }

  /** Two final octets: three characters and `=`. */
  function EncodeTwo(x: byte, y: byte): (r: string) {
    [CharOf(x / 4), CharOf((x % 4) * 16 + y / 16), CharOf((y % 16) * 4), '=']
  }

  /** Standard base64 with padding: four characters for every three octets, the last group padded with `=`. */
  function Encode(b: seq<byte>): (r: string)
    ensures |r| % 4 == 0
    ensures |r| == 0 <==> |b| == 0
  {
    if |b| == 0 then ""
    else if |b| == 1 then EncodeOne(b[0])
    else if |b| == 2 then EncodeTwo(b[0], b[1])
    else EncodeGroup(b[0], b[1], b[2]) + Encode(b[3..])
  }

  /** Four characters of the alphabet as three octets. */
  function DecodeGroup(q: string): Option<seq<byte>>
    requires |q| == 4
  {
    var a, b, c, d := ValueOf(q[0]), ValueOf(q[1]), ValueOf(q[2]), ValueOf(q[3]);
    if a.None? || b.None? || c.None? || d.None? then None
    else Some([a.value * 4 + b.value / 16, (b.value % 16) * 16 + c.value / 4, (c.value % 4) * 64 + d.value])
  }

  /**
   * The final group, which may end in `==` (one octet) or `=` (two octets).
   * Bits that the padding leaves over must be zero, so that only what
   * `Encode` produces is accepted.
   */
  function DecodeLast(q: string): Option<seq<byte>>
    requires |q| == 4
  {
    if q[2] == '=' && q[3] == '=' then
      var a, b := ValueOf(q[0]), ValueOf(q[1]);
      if a.None? || b.None? || b.value % 16 != 0 then None
      else Some([a.value * 4 + b.value / 16])
    else if q[3] == '=' then
      var a, b, c := ValueOf(q[0]), ValueOf(q[1]), ValueOf(q[2]);
      if a.None? || b.None? || c.None? || c.value % 4 != 0 then None
      else Some([a.value * 4 + b.value / 16, (b.value % 16) * 16 + c.value / 4])
    else DecodeGroup(q)
  }

  /** Strict decoding: `None` unless the text is a whole number of groups with padding only at the end. */
  function Decode(s: string): Option<seq<byte>>
    decreases |s|
  {
    if |s| == 0 then Some([])
    else if |s| < 4 then None
    else if |s| == 4 then DecodeLast(s)
    else
      match DecodeGroup(s[..4])
      case None => None
      case Some(g) =>
        match Decode(s[4..])
        case None => None
        case Some(rest) => Some(g + rest)
  }

  // The arithmetic of regrouping bits, on plain integers and with constant divisors only.

  lemma DivMod4(q: int, r: int)
    requires 0 <= r < 4
    ensures (q * 4 + r) / 4 == q && (q * 4 + r) % 4 == r
  {
  }

  lemma DivMod16(q: int, r: int)
    requires 0 <= r < 16
    ensures (q * 16 + r) / 16 == q && (q * 16 + r) % 16 == r
  {
  }

  lemma DivMod64(q: int, r: int)
    requires 0 <= r < 64
    ensures (q * 64 + r) / 64 == q && (q * 64 + r) % 64 == r
  {
  }

  /** Three octets split into four sextets join back into the same octets. */
  lemma OctetsToSextets(x: int, y: int, z: int)
    requires 0 <= x < 256 && 0 <= y < 256 && 0 <= z < 256
    ensures var b, c := (x % 4) * 16 + y / 16, (y % 16) * 4 + z / 64;
      && (x / 4) * 4 + b / 16 == x && (b % 16) * 16 + c / 4 == y && (c % 4) * 64 + z % 64 == z
  {
    DivMod16(x % 4, y / 16);
    DivMod4(y % 16, z / 64);
  }

  /** Four sextets joined into three octets split back into the same sextets. */
  lemma SextetsToOctets(a: int, b: int, c: int, d: int)
    requires 0 <= a < 64 && 0 <= b < 64 && 0 <= c < 64 && 0 <= d < 64
    ensures var x, y, z := a * 4 + b / 16, (b % 16) * 16 + c / 4, (c % 4) * 64 + d;
      && 0 <= x < 256 && 0 <= y < 256 && 0 <= z < 256
      && x / 4 == a && (x % 4) * 16 + y / 16 == b && (y % 16) * 4 + z / 64 == c && z % 64 == d
  {
    DivMod4(a, b / 16);
    DivMod16(b % 16, c / 4);
    DivMod64(c % 4, d);
  }

  lemma GroupRoundTrip(x: byte, y: byte, z: byte)
    ensures DecodeGroup(EncodeGroup(x, y, z)) == Some([x, y, z])
  {
    OctetsToSextets(x, y, z);
    ValueOfCharOf(x / 4);
    ValueOfCharOf((x % 4) * 16 + y / 16);
    ValueOfCharOf((y % 16) * 4 + z / 64);
    ValueOfCharOf(z % 64);
  }

  lemma OneRoundTrip(x: byte)
    ensures Decode(Encode([x])) == Some([x])
  {
    DivMod16(x % 4, 0);
    ValueOfCharOf(x / 4);
    ValueOfCharOf((x % 4) * 16);
  }

  lemma TwoRoundTrip(x: byte, y: byte)
    ensures Decode(Encode([x, y])) == Some([x, y])
  {
    var a: int, b: int, c: int := x / 4, (x % 4) * 16 + y / 16, (y % 16) * 4;
    OctetsToSextets(x, y, 0);
    DivMod4(y % 16, 0);
    ValueOfCharOf(a);
    ValueOfCharOf(b);
    ValueOfCharOf(c);
    var q := Encode([x, y]);
    assert q == [CharOf(a), CharOf(b), CharOf(c), '='];
    assert DecodeLast(q) == Some([a * 4 + b / 16, (b % 16) * 16 + c / 4]);
  }

  /** A full group followed by more text decodes group by group. */
  lemma DecodeCons(g: string, rest: string)
    requires |g| == 4 && |rest| > 0
    ensures Decode(g + rest) ==
      if DecodeGroup(g).None? || Decode(rest).None? then None else Some(DecodeGroup(g).value + Decode(rest).value)
  {
    assert (g + rest)[..4] == g && (g + rest)[4..] == rest;
  }

  /** Encoding a leading full group and then the rest. */
  lemma EncodeCons(x: byte, y: byte, z: byte, rest: seq<byte>)
    ensures Encode([x, y, z] + rest) == EncodeGroup(x, y, z) + Encode(rest)
  {
    assert ([x, y, z] + rest)[3..] == rest;
  }

  /** Exactly three octets: one group without padding. */
  lemma ThreeRoundTrip(x: byte, y: byte, z: byte)
    ensures Decode(Encode([x, y, z])) == Some([x, y, z])
  {
    var g := EncodeGroup(x, y, z);
    EncodeCons(x, y, z, []);
    assert [x, y, z] + [] == [x, y, z] && g + [] == g;
    GroupRoundTrip(x, y, z);
    assert Decode(g) == DecodeGroup(g);
  }

  /** Decoding inverts encoding: every octet string survives the transfer. */
  lemma {:induction false} DecodeEncode(b: seq<byte>)
    ensures Decode(Encode(b)) == Some(b)
    decreases |b|
  {
    if |b| == 1 {
      assert b == [b[0]];
      OneRoundTrip(b[0]);
    } else if |b| == 2 {
      assert b == [b[0], b[1]];
      TwoRoundTrip(b[0], b[1]);
    } else if |b| >= 3 {
      var rest := b[3..];
      assert b == [b[0], b[1], b[2]] + rest;
      EncodeCons(b[0], b[1], b[2], rest);
      GroupRoundTrip(b[0], b[1], b[2]);
      if |rest| == 0 {
        assert b == [b[0], b[1], b[2]];
        ThreeRoundTrip(b[0], b[1], b[2]);
      } else {
        DecodeEncode(rest);
        DecodeCons(EncodeGroup(b[0], b[1], b[2]), Encode(rest));
      }
    }
  }

  lemma QuadRoundTrip(q: string)
    requires |q| == 4 && DecodeGroup(q).Some?
    ensures |DecodeGroup(q).value| == 3
    ensures EncodeGroup(DecodeGroup(q).value[0], DecodeGroup(q).value[1], DecodeGroup(q).value[2]) == q
  {
    var a, b, c, d := ValueOf(q[0]).value, ValueOf(q[1]).value, ValueOf(q[2]).value, ValueOf(q[3]).value;
    EncodeSextets(a, b, c, d);
  }

  /** The octets that four sextets join into encode as those sextets' characters. */
  lemma EncodeSextets(a: sextet, b: sextet, c: sextet, d: sextet)
    ensures var x, y, z := a * 4 + b / 16, (b % 16) * 16 + c / 4, (c % 4) * 64 + d;
      && 0 <= x < 256 && 0 <= y < 256 && 0 <= z < 256
      && EncodeGroup(x as byte, y as byte, z as byte) == [CharOf(a), CharOf(b), CharOf(c), CharOf(d)]
  {
    SextetsToOctets(a, b, c, d);
  }

  /** The one-octet final group `xx==` re-encodes to itself. */
  lemma PadTwoRoundTrip(s: string)
    requires |s| == 4 && s[2] == '=' && s[3] == '=' && DecodeLast(s).Some?
    ensures Encode(DecodeLast(s).value) == s
  {
    var a, b := ValueOf(s[0]).value, ValueOf(s[1]).value;
    SextetsToOctets(a, b, 0, 0);
    DivMod16(b / 16, 0);
  }

  /** The two-octet final group `xxx=` re-encodes to itself. */
  lemma PadOneRoundTrip(s: string)
    requires |s| == 4 && !(s[2] == '=' && s[3] == '=') && s[3] == '=' && DecodeLast(s).Some?
    ensures Encode(DecodeLast(s).value) == s
  {
    var a, b, c := ValueOf(s[0]).value, ValueOf(s[1]).value, ValueOf(s[2]).value;
    SextetsToOctets(a, b, c, 0);
    DivMod4(c / 4, 0);
  }

  /** Encoding inverts decoding: a text the decoder accepts is exactly the encoding of what it yields. */
  lemma {:induction false} EncodeDecode(s: string)
    requires Decode(s).Some?
    ensures Encode(Decode(s).value) == s
    decreases |s|
  {
    if |s| == 4 {
      if s[2] == '=' && s[3] == '=' {
        PadTwoRoundTrip(s);
      } else if s[3] == '=' {
        PadOneRoundTrip(s);
      } else {
        QuadRoundTrip(s);
      }
    } else if |s| > 4 {
      var g := DecodeGroup(s[..4]).value;
      var rest := Decode(s[4..]).value;
      QuadRoundTrip(s[..4]);
      EncodeDecode(s[4..]);
      assert Decode(s).value == [g[0], g[1], g[2]] + rest;
      EncodeCons(g[0], g[1], g[2], rest);
      assert s == s[..4] + s[4..];
    }
  }

  // Python's `base64.b64decode(s)` without `validate`: CPython's `a2b_base64` in its lenient mode.

  /**
   * The lenient scan from the state `quad` (characters of the current group
   * seen), `left` (their bits not yet emitted), `pads` (`=` seen since the
   * last character of the alphabet) and `out` (octets so far). Characters
   * outside the alphabet are skipped; a `=` after at least two characters of
   * a group completes it once the group's four places are filled, and ends
   * the input; a group left incomplete at the end is an error.
   */
  function Lenient(s: string, quad: nat, left: int, pads: nat, out: seq<byte>): Option<seq<byte>>
    requires quad < 4
    requires quad == 1 ==> 0 <= left < 64
    requires quad == 2 ==> 0 <= left < 16
    requires quad == 3 ==> 0 <= left < 4
    decreases |s|
  {
    if |s| == 0 then (if quad == 0 then Some(out) else None)
    else if s[0] == '=' then
      if quad >= 2 && quad + pads + 1 >= 4 then Some(out)
      else Lenient(s[1..], quad, left, if quad >= 2 then pads + 1 else pads, out)
    else match ValueOf(s[0])
      case None => Lenient(s[1..], quad, left, pads, out)
      case Some(v) =>
        if quad == 0 then Lenient(s[1..], 1, v, 0, out)
        else if quad == 1 then Lenient(s[1..], 2, v % 16, 0, out + [left * 4 + v / 16])
        else if quad == 2 then Lenient(s[1..], 3, v % 4, 0, out + [left * 16 + v / 4])
        else Lenient(s[1..], 0, 0, 0, out + [left * 64 + v])
  }

  /** `base64.b64decode(s)`: a text with a non-ASCII character is refused; otherwise the lenient scan decides. */
  function DecodeLenient(s: string): Option<seq<byte>> {
    if exists i :: 0 <= i < |s| && s[i] as int > 127 then None else Lenient(s, 0, 0, 0, [])
  }

  /** What the strict decoder accepts consists of characters of the alphabet and `=` only. */
  lemma {:induction false} DecodedIsAlphabet(s: string)
    requires Decode(s).Some?
    ensures forall i :: 0 <= i < |s| ==> s[i] == '=' || ValueOf(s[i]).Some?
    decreases |s|
  {
    if |s| > 4 {
      DecodedIsAlphabet(s[4..]);
      assert forall i :: 4 <= i < |s| ==> s[i] == s[4..][i - 4];
    }
  }

  /** A full group is consumed by the lenient scan just as the strict decoder decodes it. */
  lemma LenientGroup(g: string, rest: string, out: seq<byte>)
    requires |g| == 4 && DecodeGroup(g).Some?
    ensures Lenient(g + rest, 0, 0, 0, out) == Lenient(rest, 0, 0, 0, out + DecodeGroup(g).value)
  {
    var s := g + rest;
    var a: int, b: int, c: int, d: int := ValueOf(g[0]).value, ValueOf(g[1]).value, ValueOf(g[2]).value, ValueOf(g[3]).value;
    assert s[0] == g[0] && s[1..][0] == g[1] && s[1..][1..][0] == g[2] && s[1..][1..][1..][0] == g[3];
    assert s[1..][1..][1..][1..] == rest;
    assert out + [a * 4 + b / 16] + [(b % 16) * 16 + c / 4] + [(c % 4) * 64 + d]
      == out + [a * 4 + b / 16, (b % 16) * 16 + c / 4, (c % 4) * 64 + d];
    calc {
      Lenient(s, 0, 0, 0, out);
      Lenient(s[1..], 1, a, 0, out);
      Lenient(s[1..][1..], 2, b % 16, 0, out + [a * 4 + b / 16]);
      Lenient(s[1..][1..][1..], 3, c % 4, 0, out + [a * 4 + b / 16] + [(b % 16) * 16 + c / 4]);
      Lenient(rest, 0, 0, 0, out + [a * 4 + b / 16] + [(b % 16) * 16 + c / 4] + [(c % 4) * 64 + d]);
    }
  }

  /** The final group, padded or not, ends the lenient scan with the octets the strict decoder yields. */
  lemma LenientLast(g: string, out: seq<byte>)
    requires |g| == 4 && DecodeLast(g).Some?
    ensures Lenient(g, 0, 0, 0, out) == Some(out + DecodeLast(g).value)
  {
    var a: int, b: int := ValueOf(g[0]).value, ValueOf(g[1]).value;
    assert g[1..][0] == g[1] && g[1..][1..][0] == g[2] && g[1..][1..][1..][0] == g[3];
    if g[2] == '=' && g[3] == '=' {
      calc {
        Lenient(g, 0, 0, 0, out);
        Lenient(g[1..], 1, a, 0, out);
        Lenient(g[1..][1..], 2, b % 16, 0, out + [a * 4 + b / 16]);
        Lenient(g[1..][1..][1..], 2, b % 16, 1, out + [a * 4 + b / 16]);
      }
      assert DecodeLast(g).value == [a * 4 + b / 16];
    } else if g[3] == '=' {
      var c: int := ValueOf(g[2]).value;
      calc {
        Lenient(g, 0, 0, 0, out);
        Lenient(g[1..], 1, a, 0, out);
        Lenient(g[1..][1..], 2, b % 16, 0, out + [a * 4 + b / 16]);
        Lenient(g[1..][1..][1..], 3, c % 4, 0, out + [a * 4 + b / 16] + [(b % 16) * 16 + c / 4]);
      }
      assert DecodeLast(g).value == [a * 4 + b / 16, (b % 16) * 16 + c / 4];
      assert out + [a * 4 + b / 16] + [(b % 16) * 16 + c / 4] == out + [a * 4 + b / 16, (b % 16) * 16 + c / 4];
    } else {
      LenientGroup(g, [], out);
      assert g + [] == g;
    }
  }

  /** The lenient scan agrees with the strict decoder on everything the strict decoder accepts. */
  lemma {:induction false} LenientScanAgrees(s: string, out: seq<byte>)
    requires Decode(s).Some?
    ensures Lenient(s, 0, 0, 0, out) == Some(out + Decode(s).value)
    decreases |s|
  {
    if |s| == 0 {
      assert out + [] == out;
    } else if |s| == 4 {
      LenientLast(s, out);
    } else {
      var g, rest := s[..4], s[4..];
      assert s == g + rest;
      var x, y := DecodeGroup(g).value, Decode(rest).value;
      assert Decode(s).value == x + y;
      LenientGroup(g, rest, out);
      LenientScanAgrees(rest, out + x);
      assert out + x + y == out + (x + y);
    }
  }

  /**
   * `b64decode` returns what the strict decoder returns on every text the
   * strict decoder accepts, so in particular on everything `Encode` produces.
   */
  lemma LenientAgreesOnCanonical(s: string)
    requires Decode(s).Some?
    ensures DecodeLenient(s) == Decode(s)
  {
    DecodedIsAlphabet(s);
    assert forall i :: 0 <= i < |s| ==> s[i] as int <= 127;
    LenientScanAgrees(s, []);
    assert [] + Decode(s).value == Decode(s).value;
  }

  /** Python's decoder inverts encoding. */
  lemma LenientDecodeEncode(b: seq<byte>)
    ensures DecodeLenient(Encode(b)) == Some(b)
  {
    DecodeEncode(b);
    LenientAgreesOnCanonical(Encode(b));
  }

  /** Where the decoders part: `b64decode` skips a trailing newline, which the strict decoder refuses. */
  lemma LenientSkipsNewline()
    ensures DecodeLenient("QUJD\n") == Some([65, 66, 67]) && Decode("QUJD\n").None?
  {
    var s := "QUJD\n";
    assert s[..4] == "QUJD" && s[4..] == "\n";
    assert s == "QUJD" + "\n";
    LenientGroup("QUJD", "\n", []);
    assert DecodeGroup("QUJD") == Some([65, 66, 67]);
    assert [] + [65, 66, 67] == [65, 66, 67] && "\n"[1..] == "";
    assert Lenient("\n", 0, 0, 0, [65, 66, 67]) == Lenient("", 0, 0, 0, [65, 66, 67]);
    assert Decode("\n").None?;
    assert forall i :: 0 <= i < |s| ==> s[i] as int <= 127;
  }

  /** Where the decoders part: `b64decode` drops bits the padding leaves over, which the strict decoder refuses. */
  lemma LenientDropsPadBits()
    ensures DecodeLenient("QR==") == Some([65]) && Decode("QR==").None?
  {
    var t := "QR==";
    assert forall i :: 0 <= i < |t| ==> t[i] as int <= 127;
    assert t[1..] == "R==" && t[1..][1..] == "==" && t[1..][1..][1..] == "=";
    assert Lenient(t, 0, 0, 0, []) == Lenient("R==", 1, 16, 0, []);
    assert ValueOf('R') == Some(17) && [] + [16 * 4 + 17 / 16] == [65];
    assert Lenient("R==", 1, 16, 0, []) == Lenient("==", 2, 1, 0, [65]);
    assert Lenient("==", 2, 1, 0, [65]) == Lenient("=", 2, 1, 1, [65]);
  }

  /** `b64decode` refuses text with a character outside ASCII. */
  lemma LenientRefusesNonAscii(s: string)
    requires exists i :: 0 <= i < |s| && s[i] as int > 127
    ensures DecodeLenient(s).None?
  {
  }
}
