/**
 * RFC 4648 section 6 ("Base 32 Encoding"): the alphabet A-Z followed by 2-7, five bits
 * per character, most significant bit first.
 *
 * The decoder is the lenient reading the verifier relies on: trailing `=` padding is
 * dropped, every remaining character must belong to the alphabet, and the bit stream
 * is cut into as many whole bytes as it holds (left-over bits are discarded).
 */
module Base32 {
  import opened Wrappers

  type Byte = x: int | 0 <= x < 256
  type Bit = x: int | 0 <= x < 2
  type Quintet = x: int | 0 <= x < 32

  function Pow2(n: nat): (p: nat)
    ensures p >= 1
  {
    if n == 0 then 1 else 2 * Pow2(n - 1)
  }

  /** The `w` low bits of `x`, most significant first. */
  function NatToBits(x: nat, w: nat): (bits: seq<Bit>)
    ensures |bits| == w
  {
    if w == 0 then [] else NatToBits(x / 2, w - 1) + [x % 2]
  }

  /** The number whose binary digits, most significant first, are `bits`. */
  function BitsToNat(bits: seq<Bit>): (x: nat)
    ensures x < Pow2(|bits|)
  {
    if bits == [] then 0 else 2 * BitsToNat(bits[..|bits| - 1]) + bits[|bits| - 1]
  }

  lemma {:induction false} BitsToNatOfNatToBits(x: nat, w: nat)
    requires x < Pow2(w)
    ensures BitsToNat(NatToBits(x, w)) == x
  {
    if w > 0 {
      HalfBelow(x, w);
      BitsToNatOfNatToBits(x / 2, w - 1);
      BitsToNatOfLastBit(x, w);
    }
  }

  /** Reading back `w` bits of `x` gives `x` once its high `w - 1` bits read back as `x / 2`. */
  lemma BitsToNatOfLastBit(x: nat, w: nat)
    requires w > 0 && BitsToNat(NatToBits(x / 2, w - 1)) == x / 2
    ensures BitsToNat(NatToBits(x, w)) == x
  {
    var bits := NatToBits(x, w);
    var high := NatToBits(x / 2, w - 1);
    assert bits[..w - 1] == high;
  }

  lemma HalfBelow(x: nat, w: nat)
    requires w > 0 && x < Pow2(w)
    ensures x / 2 < Pow2(w - 1) && x == 2 * (x / 2) + x % 2
  {
  }

  lemma {:induction false} NatToBitsOfBitsToNat(bits: seq<Bit>)
    ensures NatToBits(BitsToNat(bits), |bits|) == bits
  {
    if bits != [] {
      var n := |bits|;
      var x := BitsToNat(bits);
      assert x / 2 == BitsToNat(bits[..n - 1]);
      assert x % 2 == bits[n - 1];
      NatToBitsOfBitsToNat(bits[..n - 1]);
      assert bits == bits[..n - 1] + [bits[n - 1]];
    }
  }

  /** The bit stream of a byte string: eight bits per byte, most significant first. */
  function BytesToBits(bytes: seq<Byte>): (bits: seq<Bit>)
    ensures |bits| == 8 * |bytes|
  {
    if bytes == [] then [] else NatToBits(bytes[0], 8) + BytesToBits(bytes[1..])
  }

  /** Regroups a whole number of bytes' worth of bits into bytes. */
  function BitsToBytes(bits: seq<Bit>): (bytes: seq<Byte>)
    requires |bits| % 8 == 0
    ensures 8 * |bytes| == |bits|
  {
    if bits == [] then [] else [BitsToNat(bits[..8]) as Byte] + BitsToBytes(bits[8..])
  }

  /** The bit stream of a sequence of 5-bit symbol values. */
  function QuintetsToBits(vs: seq<Quintet>): (bits: seq<Bit>)
    ensures |bits| == 5 * |vs|
  {
    if vs == [] then [] else NatToBits(vs[0], 5) + QuintetsToBits(vs[1..])
  }

  /** Cuts a bit stream whose length is a multiple of five into 5-bit symbol values. */
  function BitsToQuintets(bits: seq<Bit>): (vs: seq<Quintet>)
    requires |bits| % 5 == 0
    ensures 5 * |vs| == |bits|
  {
    if bits == [] then [] else [BitsToNat(bits[..5]) as Quintet] + BitsToQuintets(bits[5..])
  }

  lemma {:induction false} BitsToBytesOfBytesToBits(bytes: seq<Byte>)
    ensures BitsToBytes(BytesToBits(bytes)) == bytes
  {
    if bytes != [] {
      var bits := BytesToBits(bytes);
      assert bits[..8] == NatToBits(bytes[0], 8);
      assert bits[8..] == BytesToBits(bytes[1..]);
      BitsToNatOfNatToBits(bytes[0], 8);
      BitsToBytesOfBytesToBits(bytes[1..]);
    }
  }

  lemma {:induction false} QuintetsToBitsOfBitsToQuintets(bits: seq<Bit>)
    requires |bits| % 5 == 0
    ensures QuintetsToBits(BitsToQuintets(bits)) == bits
  {
    if bits != [] {
      NatToBitsOfBitsToNat(bits[..5]);
      QuintetsToBitsOfBitsToQuintets(bits[5..]);
      assert bits == bits[..5] + bits[5..];
    }
  }

  /** The alphabet of RFC 4648 section 6: values 0..25 are 'A'..'Z', values 26..31 are '2'..'7'. */
  function Symbol(v: Quintet): (c: char)
  {
    if v < 26 then ('A' as int + v) as char else ('2' as int + (v - 26)) as char
  }

  /** The value of an alphabet character; `None` for any other character. */
  function SymbolValue(c: char): (r: Option<Quintet>)
    ensures r.Some? ==> Symbol(r.value) == c
  {
    if 'A' <= c <= 'Z' then Some(c as int - 'A' as int)
    else if '2' <= c <= '7' then Some(c as int - '2' as int + 26)
    else None
  }

  lemma SymbolValueOfSymbol(v: Quintet)
    ensures SymbolValue(Symbol(v)) == Some(v)
  {
  }

  function SymbolValues(s: string): (r: Option<seq<Quintet>>)
    ensures r.Some? ==> |r.value| == |s|
  {
    if s == [] then Some([])
    else match (SymbolValue(s[0]), SymbolValues(s[1..]))
      case (Some(v), Some(vs)) => Some([v] + vs)
      case _ => None
  }

  function Symbols(vs: seq<Quintet>): (s: string)
    ensures |s| == |vs|
  {
    if vs == [] then [] else [Symbol(vs[0])] + Symbols(vs[1..])
  }

  /** Every character of `s` belongs to the alphabet. */
  predicate AllSymbols(s: string) {
    forall i :: 0 <= i < |s| ==> SymbolValue(s[i]).Some?
  }

  /** Decoding the alphabet fails exactly on a character outside it. */
  lemma {:induction false} SymbolValuesFailure(s: string)
    ensures SymbolValues(s).Some? <==> AllSymbols(s)
  {
    if s != [] {
      SymbolValuesFailure(s[1..]);
      if !AllSymbols(s[1..]) {
        var i :| 0 <= i < |s[1..]| && SymbolValue(s[1..][i]).None?;
        assert SymbolValue(s[i + 1]).None?;
      }
      if SymbolValue(s[0]).Some? && SymbolValues(s[1..]).Some? {
        forall i | 0 <= i < |s| ensures SymbolValue(s[i]).Some? {
          if i > 0 { assert s[i] == s[1..][i - 1]; }
        }
      }
    }
  }

  lemma {:induction false} SymbolValuesOfSymbols(vs: seq<Quintet>)
    ensures SymbolValues(Symbols(vs)) == Some(vs)
  {
    if vs != [] {
      var s := Symbols(vs);
      assert s[0] == Symbol(vs[0]) && s[1..] == Symbols(vs[1..]);
      SymbolValueOfSymbol(vs[0]);
      SymbolValuesOfSymbols(vs[1..]);
      assert SymbolValues(s) == Some([vs[0]] + vs[1..]);
      assert [vs[0]] + vs[1..] == vs;
    }
  }

  /** The longest prefix of a bit stream that holds a whole number of bytes. */
  function WholeBytes(bits: seq<Bit>): (whole: seq<Bit>)
    ensures |whole| % 8 == 0 && |bits| - 8 < |whole| <= |bits|
    ensures whole == bits[..|whole|]
  {
    bits[..|bits| - |bits| % 8]
  }

  /** Drops trailing `=` padding characters. */
  function TrimPadding(s: string): (t: string)
    ensures |t| <= |s| && t == s[..|t|]
    ensures t == [] || t[|t| - 1] != '='
    ensures forall i :: |t| <= i < |s| ==> s[i] == '='
  {
    if s != [] && s[|s| - 1] == '=' then TrimPadding(s[..|s| - 1]) else s
  }

  /** Appends zero bits up to the next multiple of five. */
  function PadToQuintets(bits: seq<Bit>): (padded: seq<Bit>)
    ensures |padded| % 5 == 0 && |bits| <= |padded| < |bits| + 5
    ensures padded[..|bits|] == bits
  {
    var extra := (5 - |bits| % 5) % 5;
    bits + seq(extra, _ => 0)
  }

  /** Unpadded RFC 4648 section 6 encoding: one alphabet character per 5 bits of the byte stream. */
  function Encode(bytes: seq<Byte>): (s: string)
    ensures |s| == (8 * |bytes| + 4) / 5
    ensures AllSymbols(s)
  {
    var vs := BitsToQuintets(PadToQuintets(BytesToBits(bytes)));
    var s := Symbols(vs);
    SymbolValuesOfSymbols(vs);
    SymbolValuesFailure(s);
    s
  }

  /**
   * Decoding: `None` when a character other than trailing padding is outside the
   * alphabet; otherwise the whole bytes of the bit stream.
   */
  function Decode(s: string): (r: Option<seq<Byte>>)
    ensures r.None? <==> !AllSymbols(TrimPadding(s))
    ensures r.Some? ==> |r.value| == 5 * |TrimPadding(s)| / 8
  {
    var body := TrimPadding(s);
    SymbolValuesFailure(body);
    var values := SymbolValues(body);
    if values.None? then None
    else
      var bits := QuintetsToBits(values.value);
      Some(BitsToBytes(WholeBytes(bits)))
  }

  /** Every byte string survives an encode/decode round trip. */
  lemma DecodeEncode(bytes: seq<Byte>)
    ensures Decode(Encode(bytes)) == Some(bytes)
  {
    var bits := BytesToBits(bytes);
    var padded := PadToQuintets(bits);
    var vs := BitsToQuintets(padded);
    var s := Encode(bytes);
    assert s == Symbols(vs);
    calc {
      Decode(s);
      == { EncodingIsUnpadded(s); SymbolValuesOfSymbols(vs); }
      Some(BitsToBytes(WholeBytes(QuintetsToBits(vs))));
      == { QuintetsToBitsOfBitsToQuintets(padded); WholeBytesOfPadding(bits, padded, |bytes|); }
      Some(BitsToBytes(bits));
      == { BitsToBytesOfBytesToBits(bytes); }
      Some(bytes);
    }
  }

  lemma EncodingIsUnpadded(s: string)
    requires AllSymbols(s)
    ensures TrimPadding(s) == s
  {
    if s != [] {
      assert SymbolValue(s[|s| - 1]).Some?;
    }
  }

  lemma WholeBytesOfPadding(bits: seq<Bit>, padded: seq<Bit>, n: nat)
    requires |bits| == 8 * n
    requires padded == PadToQuintets(bits)
    ensures WholeBytes(padded) == bits
  {
    var whole := WholeBytes(padded);
    var k := |whole| / 8;
    assert |whole| == 8 * k;
    assert k == n;
  }

  /** Trailing `=` padding after an encoding does not change what it decodes to. */
  lemma DecodePaddedEncode(bytes: seq<Byte>, padding: nat)
    ensures Decode(Encode(bytes) + seq(padding, _ => '=')) == Some(bytes)
  {
    TrimPaddedEncoding(Encode(bytes), padding);
    DecodeEncode(bytes);
  }

  lemma {:induction false} TrimPaddedEncoding(s: string, padding: nat)
    requires AllSymbols(s)
    ensures TrimPadding(s + seq(padding, _ => '=')) == s
  {
    var t := s + seq(padding, _ => '=');
    if padding == 0 {
      assert t == s;
      if s != [] { assert SymbolValue(s[|s| - 1]).Some?; }
    } else {
      assert t[|t| - 1] == '=';
      assert t[..|t| - 1] == s + seq(padding - 1, _ => '=');
      TrimPaddedEncoding(s, padding - 1);
    }
  }
}
