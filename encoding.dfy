/**
 * Byte and text encodings the core relies on: little-endian integers
 * (encoding/binary), the Decred/Bitcoin CompactSize variable-length integer
 * (wire.VarIntSerializeSize), hexadecimal (encoding/hex.Decode) and base-10
 * integers (strconv.ParseInt / the %d verb).
 */
module Encoding {
  import opened Wrappers

  /** A Go `byte`. Kept as a bounded integer rather than a bit-vector: the core only does arithmetic on bytes. */
  type byte = x: nat | x < 256

  function Pow256(n: nat): (r: nat)
    ensures r >= 1
  {
    if n == 0 then 1 else 256 * Pow256(n - 1)
  }

  function Zeros(n: nat): (r: seq<byte>)
    ensures |r| == n && forall i :: 0 <= i < n ==> r[i] == 0
  {
    seq(n, _ => 0)
  }

  // ---------------------------------------------------------------- little endian

  /** `binary.LittleEndian.PutUintN`: the low `width` bytes of `n`, least significant first. */
  function LittleEndian(n: nat, width: nat): (r: seq<byte>)
    ensures |r| == width
  {
    if width == 0 then [] else [n % 256] + LittleEndian(n / 256, width - 1)
  }

  function FromLittleEndian(bs: seq<byte>): (n: nat)
    ensures n < Pow256(|bs|)
  {
    if bs == [] then 0 else bs[0] + 256 * FromLittleEndian(bs[1..])
  }

  /** Decoding the encoding gives back every value that fits in the width. */
  lemma {:induction false} LittleEndianRoundTrip(n: nat, width: nat)
    requires n < Pow256(width)
    ensures FromLittleEndian(LittleEndian(n, width)) == n
  {
    if width > 0 {
      LittleEndianRoundTrip(n / 256, width - 1);
      assert LittleEndian(n, width)[1..] == LittleEndian(n / 256, width - 1);
    }
  }

  /** Encoding the decoding gives back the bytes. */
  lemma {:induction false} FromLittleEndianRoundTrip(bs: seq<byte>)
    ensures LittleEndian(FromLittleEndian(bs), |bs|) == bs
  {
    if bs != [] {
      FromLittleEndianRoundTrip(bs[1..]);
      var n := FromLittleEndian(bs);
      assert n % 256 == bs[0] && n / 256 == FromLittleEndian(bs[1..]);
    }
  }

  // ---------------------------------------------------------------- CompactSize

  /** `wire.VarIntSerializeSize`: bytes needed to encode a uint64 as a CompactSize integer. */
  function VarIntSize(n: nat): (r: nat)
    requires n < Pow256(8)
    ensures r in {1, 3, 5, 9}
  {
    if n < 0xfd then 1
    else if n <= 0xffff then 3
    else if n <= 0xffff_ffff then 5
    else 9
  }

  /** `wire.WriteVarInt`: a discriminant byte for large values, then the value little endian. */
  function PutVarInt(n: nat): (r: seq<byte>)
    requires n < Pow256(8)
  {
    if n < 0xfd then [n]
    else if n <= 0xffff then [0xfd] + LittleEndian(n, 2)
    else if n <= 0xffff_ffff then [0xfe] + LittleEndian(n, 4)
    else [0xff] + LittleEndian(n, 8)
  }

  function ReadVarInt(bs: seq<byte>): Option<nat>
  {
    if |bs| == 0 then None
    else if bs[0] < 0xfd then Some(bs[0])
    else if bs[0] == 0xfd then (if |bs| < 3 then None else Some(FromLittleEndian(bs[1..3])))
    else if bs[0] == 0xfe then (if |bs| < 5 then None else Some(FromLittleEndian(bs[1..5])))
    else if |bs| < 9 then None else Some(FromLittleEndian(bs[1..9]))
  }

  /** The size function is exactly the length of the encoding, and the encoding reads back. */
  lemma VarIntSizeIsEncodingLength(n: nat)
    requires n < Pow256(8)
    ensures |PutVarInt(n)| == VarIntSize(n)
    ensures ReadVarInt(PutVarInt(n)) == Some(n)
  {
    var e := PutVarInt(n);
    if n < 0xfd {
    } else if n <= 0xffff {
      assert e[1..3] == LittleEndian(n, 2);
      LittleEndianRoundTrip(n, 2);
    } else if n <= 0xffff_ffff {
      assert e[1..5] == LittleEndian(n, 4);
      LittleEndianRoundTrip(n, 4);
    } else {
      assert e[1..9] == LittleEndian(n, 8);
      LittleEndianRoundTrip(n, 8);
    }
  }

  // ---------------------------------------------------------------- hexadecimal

  /** The entries of `reverseHexTable` below 0x10: both letter cases are accepted. */
  function HexValue(c: char): Option<nat>
  {
    if '0' <= c <= '9' then Some(c as nat - '0' as nat)
    else if 'a' <= c <= 'f' then Some(c as nat - 'a' as nat + 10)
    else if 'A' <= c <= 'F' then Some(c as nat - 'A' as nat + 10)
    else None
  }

  datatype HexError = InvalidByte(c: char) | ErrLength | DestinationTooShort

  /**
   * `hex.Decode(dst, src)` into a destination with room for `room` bytes, on
   * its successful and error returns. The pairs are checked left to right;
   * writing one byte more than `dst` holds is Go's index-out-of-range panic
   * (DestinationTooShort). An odd trailing character is checked before the
   * length error is reported.
   */
  function DecodeHex(room: nat, src: string): (r: Result<seq<byte>, HexError>)
    ensures r.Ok? ==> |src| % 2 == 0 && |r.value| == |src| / 2 <= room
    decreases |src|
  {
    if |src| >= 2 then
      var a := HexValue(src[0]);
      var b := HexValue(src[1]);
      if a.None? then Err(InvalidByte(src[0]))
      else if b.None? then Err(InvalidByte(src[1]))
      else if room == 0 then Err(DestinationTooShort)
      else match DecodeHex(room - 1, src[2..])
        case Ok(rest) => Ok([a.value * 16 + b.value] + rest)
        case Err(e) => Err(e)
    else if |src| == 1 then
      if HexValue(src[0]).None? then Err(InvalidByte(src[0])) else Err(ErrLength)
    else Ok([])
  }

  const HexDigits: string := "0123456789abcdef"

  /** `hex.EncodeToString`: two lower-case digits per byte. */
  function EncodeHex(bs: seq<byte>): (s: string)
    ensures |s| == 2 * |bs|
  {
    if bs == [] then [] else [HexDigits[bs[0] / 16], HexDigits[bs[0] % 16]] + EncodeHex(bs[1..])
  }

  /** Both digits of a byte's encoding read back, and recombine to the byte. */
  lemma HexPairValue(b: byte)
    ensures HexValue(HexDigits[b / 16]) == Some(b / 16)
    ensures HexValue(HexDigits[b % 16]) == Some(b % 16)
    ensures (b / 16) * 16 + b % 16 == b
  {
  }

  /** Decoding an encoding into a large enough destination gives back the bytes. */
  lemma {:induction false} HexRoundTrip(room: nat, bs: seq<byte>)
    requires |bs| <= room
    ensures DecodeHex(room, EncodeHex(bs)) == Ok(bs)
  {
    if bs != [] {
      var s := EncodeHex(bs);
      HexPairValue(bs[0]);
      assert s[2..] == EncodeHex(bs[1..]);
      HexRoundTrip(room - 1, bs[1..]);
      assert [bs[0]] + bs[1..] == bs;
    }
  }

  // ---------------------------------------------------------------- base 10

  predicate IsDigit(c: char) { '0' <= c <= '9' }

  function DigitChar(d: nat): char
    requires d < 10
  {
    ('0' as int + d) as char
  }

  /** The `%d` rendering of a natural number. */
  function FormatNat(n: nat): (s: string)
    ensures |s| >= 1 && forall i :: 0 <= i < |s| ==> IsDigit(s[i])
  {
    if n < 10 then [DigitChar(n)] else FormatNat(n / 10) + [DigitChar(n % 10)]
  }

  /** The `%d` rendering of an integer. */
  function FormatInt(n: int): string
  {
    if n < 0 then "-" + FormatNat(-n) else FormatNat(n)
  }

  datatype NumError = ErrSyntax | ErrRange

  /**
   * The digit loop of `strconv.ParseUint` in base 10 with maximum `max`:
   * `n` is the value so far. A non-digit is a syntax error; a prefix whose value
   * exceeds the maximum is a range error at once, before later characters are read.
   */
  function ScanDigits(s: string, n: nat, max: nat): Result<nat, NumError>
    decreases |s|
  {
    if s == [] then Ok(n)
    else if !IsDigit(s[0]) then Err(ErrSyntax)
    else
      var n1 := n * 10 + (s[0] as nat - '0' as nat);
      if n1 > max then Err(ErrRange) else ScanDigits(s[1..], n1, max)
  }

  /** `strconv.ParseInt(s, 10, 32)`: an optional sign, then digits, within [-2^31, 2^31-1]. */
  function ParseInt32(s: string): (r: Result<int, NumError>)
    ensures r.Ok? ==> -0x8000_0000 <= r.value < 0x8000_0000
  {
    if s == [] then Err(ErrSyntax)
    else
      var neg := s[0] == '-';
      var digits := if s[0] == '+' || s[0] == '-' then s[1..] else s;
      if digits == [] then Err(ErrSyntax)
      else match ScanDigits(digits, 0, 0xffff_ffff)
        case Err(e) => Err(e)
        case Ok(u) =>
          if !neg && u >= 0x8000_0000 then Err(ErrRange)
          else if neg && u > 0x8000_0000 then Err(ErrRange)
          else
            var v: int := u;
            Ok(if neg then -v else v)
  }

  function Pow10(k: nat): (r: nat)
    ensures r >= 1
  {
    if k == 0 then 1 else 10 * Pow10(k - 1)
  }

  /** Scanning digits continues the accumulator as long as no prefix exceeds the maximum. */
  lemma {:induction false} ScanFormatted(n: nat, rest: string, acc: nat, max: nat)
    requires acc * Pow10(|FormatNat(n)|) + n <= max
    ensures ScanDigits(FormatNat(n) + rest, acc, max)
         == ScanDigits(rest, acc * Pow10(|FormatNat(n)|) + n, max)
  {
    var s := FormatNat(n);
    if n < 10 {
      assert (s + rest)[1..] == rest;
      assert Pow10(|s|) == 10;
    } else {
      var hi := FormatNat(n / 10);
      var d := DigitChar(n % 10);
      assert s + rest == hi + ([d] + rest);
      assert |s| == |hi| + 1;
      assert Pow10(|s|) == 10 * Pow10(|hi|);
      ShiftDigit(acc, Pow10(|hi|), n);
      ScanFormatted(n / 10, [d] + rest, acc, max);
      assert ([d] + rest)[1..] == rest;
    }
  }

  /** Appending the last digit of `n` to the scan of the others multiplies the accumulator's weight by ten. */
  lemma ShiftDigit(acc: nat, p: nat, n: nat)
    ensures (acc * p + n / 10) * 10 + n % 10 == acc * (10 * p) + n
    ensures acc * p + n / 10 <= acc * (10 * p) + n
  {
    var q, r := n / 10, n % 10;
    assert n == q * 10 + r;
    assert (acc * p + q) * 10 == acc * p * 10 + q * 10;
    assert acc * (10 * p) == acc * p * 10;
  }

  /** Every int32 survives formatting with %d and parsing back with ParseInt. */
  lemma ParseFormatRoundTrip(n: int)
    requires -0x8000_0000 <= n < 0x8000_0000
    ensures ParseInt32(FormatInt(n)) == Ok(n)
  {
    var m: nat := if n < 0 then -n else n;
    ScanFormatted(m, [], 0, 0xffff_ffff);
    assert FormatNat(m) + [] == FormatNat(m);
    if n < 0 {
      assert FormatInt(n)[1..] == FormatNat(m);
    }
  }
}
