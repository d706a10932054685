/** The base 64 encoding of section 4 of RFC 4648 (standard alphabet, `=` padding), as
    Go's `base64.StdEncoding` implements it: `EncodeToString` always pads, and
    `DecodeString` skips carriage returns and line feeds, insists on padding, rejects
    any other character outside the alphabet, and (not being the strict variant)
    ignores the unused low bits of the last character before the padding. */
module Base64 {
  import opened Wrappers

  type byte = b: int | 0 <= b < 256

  /** An index into the 64-character alphabet: one encoded character carries six bits. */
  type sextet = i: int | 0 <= i < 64

  const Pad: char := '='

  datatype DecodeError = CorruptInput

  /** Table 1 of RFC 4648: `A`-`Z`, `a`-`z`, `0`-`9`, `+`, `/` for 0 to 63. */
  function CharOf(i: sextet): char
  {
    if i < 26 then ('A' as int + i) as char
    else if i < 52 then ('a' as int + (i - 26)) as char
    else if i < 62 then ('0' as int + (i - 52)) as char
    else if i == 62 then '+'
    else '/'
  }

  /** The alphabet index of `c`, or -1 when `c` is not one of the 64 characters. */
  function IndexOf(c: char): (r: int)
    ensures -1 <= r < 64
    ensures r >= 0 ==> CharOf(r) == c
    ensures c == Pad ==> r == -1
  {
    if 'A' <= c <= 'Z' then c as int - 'A' as int
    else if 'a' <= c <= 'z' then c as int - 'a' as int + 26
    else if '0' <= c <= '9' then c as int - '0' as int + 52
    else if c == '+' then 62
    else if c == '/' then 63
    else -1
  }

  predicate InAlphabet(c: char) {
    IndexOf(c) >= 0
  }

  lemma IndexOfCharOf(i: sextet)
    ensures IndexOf(CharOf(i)) == i
  {
  }

  // ---------------------------------------------------------------- encoding

  function EncodeTriple(b0: byte, b1: byte, b2: byte): string
  {
    [CharOf(b0 / 4), CharOf(b0 % 4 * 16 + b1 / 16), CharOf(b1 % 16 * 4 + b2 / 64), CharOf(b2 % 64)]
  }

  /** A final group of one byte: two characters and `==`. */
  function EncodeSingle(b0: byte): string
  {
    [CharOf(b0 / 4), CharOf(b0 % 4 * 16), Pad, Pad]
  }

  /** A final group of two bytes: three characters and `=`. */
  function EncodePair(b0: byte, b1: byte): string
  {
    [CharOf(b0 / 4), CharOf(b0 % 4 * 16 + b1 / 16), CharOf(b1 % 16 * 4), Pad]
  }

  /** `base64.StdEncoding.EncodeToString`: every group of three bytes becomes four
      characters; a final group of one or two bytes is completed with `=`. */
  function Encode(s: seq<byte>): (r: string)
    ensures |r| == 4 * ((|s| + 2) / 3)
    ensures forall i :: 0 <= i < |r| ==> InAlphabet(r[i]) || r[i] == Pad
    decreases |s|
  {
    if |s| == 0 then []
    else if |s| == 1 then EncodeSingle(s[0])
    else if |s| == 2 then EncodePair(s[0], s[1])
    else EncodeTriple(s[0], s[1], s[2]) + Encode(s[3..])
  }

  // ---------------------------------------------------------------- decoding

  predicate IsNewline(c: char) {
    c == '\r' || c == '\n'
  }

  /** Go's decoder skips `\r` and `\n` wherever they occur. */
  function StripNewlines(s: string): (r: string)
    ensures forall i :: 0 <= i < |r| ==> !IsNewline(r[i])
    ensures |r| <= |s|
  {
    if s == [] then []
    else (if IsNewline(s[0]) then [] else [s[0]]) + StripNewlines(s[1..])
  }

  /** A quantum of four alphabet characters, not the last one: three bytes. */
  function DecodeFull(q: string): Result<seq<byte>, DecodeError>
    requires |q| == 4
  {
    var i0, i1, i2, i3 := IndexOf(q[0]), IndexOf(q[1]), IndexOf(q[2]), IndexOf(q[3]);
    if i0 < 0 || i1 < 0 || i2 < 0 || i3 < 0 then Err(CorruptInput)
    else Ok([i0 * 4 + i1 / 16, i1 % 16 * 16 + i2 / 4, i2 % 4 * 64 + i3])
  }

  /** The last quantum, which may end in `==` (one byte) or `=` (two bytes). */
  function DecodeFinal(q: string): Result<seq<byte>, DecodeError>
    requires |q| == 4
  {
    var i0, i1 := IndexOf(q[0]), IndexOf(q[1]);
    if i0 < 0 || i1 < 0 then Err(CorruptInput)
    else if q[2] == Pad then
      (if q[3] == Pad then Ok([i0 * 4 + i1 / 16]) else Err(CorruptInput))
    else if q[3] == Pad then
      var i2 := IndexOf(q[2]);
      if i2 < 0 then Err(CorruptInput) else Ok([i0 * 4 + i1 / 16, i1 % 16 * 16 + i2 / 4])
    else DecodeFull(q)
  }

  function DecodeQuanta(t: string): Result<seq<byte>, DecodeError>
    requires |t| % 4 == 0
    decreases |t|
  {
    if t == [] then Ok([])
    else if |t| == 4 then DecodeFinal(t)
    else
      match DecodeFull(t[..4])
      case Err(e) => Err(e)
      case Ok(head) =>
        match DecodeQuanta(t[4..])
        case Err(e) => Err(e)
        case Ok(tail) => Ok(head + tail)
  }

  /** `base64.StdEncoding.DecodeString`. */
  function Decode(s: string): Result<seq<byte>, DecodeError>
  {
    var t := StripNewlines(s);
    if |t| % 4 != 0 then Err(CorruptInput) else DecodeQuanta(t)
  }

  // ---------------------------------------------------------------- properties

  lemma {:induction false} StripNewlinesNoop(s: string)
    requires forall i :: 0 <= i < |s| ==> !IsNewline(s[i])
    ensures StripNewlines(s) == s
    decreases |s|
  {
    if s != [] {
      StripNewlinesNoop(s[1..]);
      assert s == [s[0]] + s[1..];
    }
  }

  lemma DecodeEncodeTriple(b0: byte, b1: byte, b2: byte)
    ensures DecodeFull(EncodeTriple(b0, b1, b2)) == Ok([b0, b1, b2])
  {
    var i0: sextet := b0 / 4;
    var i1: sextet := b0 % 4 * 16 + b1 / 16;
    var i2: sextet := b1 % 16 * 4 + b2 / 64;
    var i3: sextet := b2 % 64;
    IndexOfCharOf(i0);
    IndexOfCharOf(i1);
    IndexOfCharOf(i2);
    IndexOfCharOf(i3);
    assert i1 / 16 == b0 % 4 && i1 % 16 == b1 / 16;
    assert i2 / 4 == b1 % 16 && i2 % 4 == b2 / 64;
    assert i0 * 4 + i1 / 16 == b0;
    assert i1 % 16 * 16 + i2 / 4 == b1;
    assert i2 % 4 * 64 + i3 == b2;
  }

  lemma DecodeEncodeSingle(b0: byte)
    ensures DecodeFinal(EncodeSingle(b0)) == Ok([b0])
  {
    IndexOfCharOf(b0 / 4);
    IndexOfCharOf(b0 % 4 * 16);
  }

  lemma DecodeEncodePair(b0: byte, b1: byte)
    ensures DecodeFinal(EncodePair(b0, b1)) == Ok([b0, b1])
  {
    var i1: sextet := b0 % 4 * 16 + b1 / 16;
    var i2: sextet := b1 % 16 * 4;
    IndexOfCharOf(b0 / 4);
    IndexOfCharOf(i1);
    IndexOfCharOf(i2);
    assert i1 / 16 == b0 % 4 && i1 % 16 == b1 / 16;
    assert i2 / 4 == b1 % 16;
  }

  lemma {:induction false} DecodeQuantaEncode(s: seq<byte>)
    requires |s| > 0
    requires |Encode(s)| % 4 == 0
    ensures DecodeQuanta(Encode(s)) == Ok(s)
    decreases |s|, 1
  {
    if |s| == 1 {
      DecodeEncodeSingle(s[0]);
      assert s == [s[0]];
    } else if |s| == 2 {
      DecodeEncodePair(s[0], s[1]);
      assert s == [s[0], s[1]];
    } else {
      DecodeQuantaEncodeTriples(s);
    }
  }

  lemma {:induction false} DecodeQuantaEncodeTriples(s: seq<byte>)
    requires |s| >= 3
    requires |Encode(s)| % 4 == 0
    ensures DecodeQuanta(Encode(s)) == Ok(s)
    decreases |s|, 0
  {
    var head, tail := EncodeTriple(s[0], s[1], s[2]), Encode(s[3..]);
    assert Encode(s) == head + tail;
    DecodeEncodeTriple(s[0], s[1], s[2]);
    if |s| == 3 {
      DecodeFinalTriple(s[0], s[1], s[2]);
      assert s == [s[0], s[1], s[2]] && tail == [];
      assert head + tail == head;
    } else {
      EncodeLengthQuanta(s[3..]);
      DecodeQuantaEncode(s[3..]);
      DecodeQuantaConcat(head, tail, [s[0], s[1], s[2]], s[3..]);
      assert s == [s[0], s[1], s[2]] + s[3..];
    }
  }

  lemma DecodeFinalTriple(b0: byte, b1: byte, b2: byte)
    ensures DecodeFinal(EncodeTriple(b0, b1, b2)) == Ok([b0, b1, b2])
  {
    var q := EncodeTriple(b0, b1, b2);
    IndexOfCharOf(b1 % 16 * 4 + b2 / 64);
    IndexOfCharOf(b2 % 64);
    assert q[2] != Pad && q[3] != Pad;
    DecodeEncodeTriple(b0, b1, b2);
  }

  lemma EncodeLengthQuanta(s: seq<byte>)
    ensures |Encode(s)| % 4 == 0
  {
    var n := (|s| + 2) / 3;
    var len := |Encode(s)|;
    assert len == 4 * n;
    FourDivides(n);
  }

  lemma FourDivides(n: int)
    ensures (4 * n) % 4 == 0
  {
  }

  lemma DecodeQuantaConcat(head: string, tail: string, hb: seq<byte>, tb: seq<byte>)
    requires |head| == 4 && |tail| > 0 && |tail| % 4 == 0
    requires DecodeFull(head) == Ok(hb) && DecodeQuanta(tail) == Ok(tb)
    ensures DecodeQuanta(head + tail) == Ok(hb + tb)
  {
    var t := head + tail;
    assert t[..4] == head && t[4..] == tail;
  }

  /** Decoding what was encoded gives back the bytes: the round trip of RFC 4648. */
  lemma DecodeEncode(s: seq<byte>)
    ensures Decode(Encode(s)) == Ok(s)
  {
    var t := Encode(s);
    forall i | 0 <= i < |t| ensures !IsNewline(t[i]) {
      assert InAlphabet(t[i]) || t[i] == Pad;
    }
    StripNewlinesNoop(t);
    EncodeLengthQuanta(s);
    if |s| > 0 {
      DecodeQuantaEncode(s);
    }
  }

  lemma {:induction false} DecodeQuantaRejectsForeign(t: string, k: int)
    requires |t| % 4 == 0
    requires 0 <= k < |t| && !InAlphabet(t[k]) && t[k] != Pad
    ensures DecodeQuanta(t).Err?
    decreases |t|
  {
    if |t| == 4 {
    } else if k < 4 {
    } else {
      DecodeQuantaRejectsForeign(t[4..], k - 4);
    }
  }

  /** A character that is neither in the alphabet, nor padding, nor a line break makes
      the input malformed. */
  lemma DecodeRejectsForeign(s: string, k: int)
    requires 0 <= k < |s| && !InAlphabet(s[k]) && s[k] != Pad && !IsNewline(s[k])
    ensures Decode(s).Err?
  {
    var t := StripNewlines(s);
    var j := StripNewlinesKeeps(s, k);
    if |t| % 4 == 0 {
      DecodeQuantaRejectsForeign(t, j);
    }
  }

  lemma {:induction false} StripNewlinesKeeps(s: string, k: int) returns (j: int)
    requires 0 <= k < |s| && !IsNewline(s[k])
    ensures 0 <= j < |StripNewlines(s)| && StripNewlines(s)[j] == s[k]
    decreases |s|
  {
    if k == 0 {
      j := 0;
    } else {
      var j' := StripNewlinesKeeps(s[1..], k - 1);
      j := if IsNewline(s[0]) then j' else j' + 1;
    }
  }

  /** Without its line breaks, valid input is a whole number of four-character quanta:
      Go's standard encoding rejects missing padding. */
  lemma DecodeNeedsWholeQuanta(s: string)
    requires |StripNewlines(s)| % 4 != 0
    ensures Decode(s) == Err(CorruptInput)
  {
  }
}
