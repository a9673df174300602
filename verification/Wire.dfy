/** Big-endian integers, hexadecimal and decimal, as they appear on the wire. */
module Wire {
  import opened Wrappers

  function U16BE(n: u16): Bytes { [n / 256, n % 256] }

  function FromU16BE(b: Bytes): u16
    requires |b| == 2
  {
    var hi: int, lo: int := b[0], b[1];
    hi * 256 + lo
  }

  function U32BE(n: u32): Bytes { U16BE(n / 0x1_0000) + U16BE(n % 0x1_0000) }

  function FromU32BE(b: Bytes): u32
    requires |b| == 4
  {
    var hi: int, lo: int := FromU16BE(b[..2]), FromU16BE(b[2..]);
    hi * 0x1_0000 + lo
  }

  /** Two bytes, the high one first. */
  lemma U16IsBigEndian(n: u16, b: Bytes)
    ensures |U16BE(n)| == 2 && 256 * (U16BE(n)[0] as int) + U16BE(n)[1] == n
    ensures |b| == 2 ==> FromU16BE(b) == 256 * (b[0] as int) + b[1]
  {
  }

  function Positional(b: Bytes): int
    requires |b| == 4
  {
    0x100_0000 * (b[0] as int) + 0x1_0000 * (b[1] as int) + 0x100 * (b[2] as int) + b[3]
  }

  /** Four bytes, the highest first. */
  lemma U32IsBigEndian(n: u32, b: Bytes)
    ensures |U32BE(n)| == 4 && Positional(U32BE(n)) == n
    ensures |b| == 4 ==> FromU32BE(b) == Positional(b)
  {
    U16IsBigEndian(n / 0x1_0000, []);
    U16IsBigEndian(n % 0x1_0000, []);
  }

  lemma U16RoundTrip(n: u16, b: Bytes)
    requires |b| == 2
    ensures FromU16BE(U16BE(n)) == n
    ensures U16BE(FromU16BE(b)) == b
  {
  }

  lemma U32RoundTrip(n: u32)
    ensures |U32BE(n)| == 4 && FromU32BE(U32BE(n)) == n
  {
    assert U32BE(n)[..2] == U16BE(n / 0x1_0000);
    assert U32BE(n)[2..] == U16BE(n % 0x1_0000);
  }

  /** `as u16`: the low sixteen bits. */
  function AsU16(n: nat): u16 { n % 0x1_0000 }

  /** `as u32`: the low thirty-two bits. */
  function AsU32(n: nat): u32 { n % 0x1_0000_0000 }

  // ---------- hexadecimal, lower case ----------

  function HexDigit(n: nat): byte
    requires n < 16
  {
    if n < 10 then 48 + n else 87 + n
  }

  function FromHexDigit(b: byte): Option<nat> {
    if 48 <= b < 58 then Some(b - 48) else if 97 <= b < 103 then Some(b - 87) else None
  }

  function Hex(key: Bytes): (h: Bytes)
    ensures |h| == 2 * |key|
  {
    if key == [] then [] else [HexDigit(key[0] / 16), HexDigit(key[0] % 16)] + Hex(key[1..])
  }

  function FromHex(h: Bytes): (r: Option<Bytes>)
    ensures r.Some? ==> |h| == 2 * |r.value|
  {
    if h == [] then Some([])
    else if |h| == 1 then None
    else
      match (FromHexDigit(h[0]), FromHexDigit(h[1]), FromHex(h[2..]))
      case (Some(hi), Some(lo), Some(rest)) => Some([(16 * hi + lo) % 256] + rest)
      case _ => None
  }

  lemma HexDigitRoundTrip(n: nat)
    requires n < 16
    ensures FromHexDigit(HexDigit(n)) == Some(n)
  {
  }

  /** Byte `i` of the key is printed as two lower-case digits, the high one first. */
  lemma {:induction false} HexAt(key: Bytes, i: nat)
    requires i < |key|
    ensures Hex(key)[2 * i] as char == "0123456789abcdef"[key[i] / 16]
    ensures Hex(key)[2 * i + 1] as char == "0123456789abcdef"[key[i] % 16]
  {
    if i == 0 {
      HexDigitIs(key[0] / 16);
      HexDigitIs(key[0] % 16);
    } else {
      HexAt(key[1..], i - 1);
      assert Hex(key)[2..] == Hex(key[1..]);
    }
  }

  lemma HexDigitIs(n: nat)
    requires n < 16
    ensures HexDigit(n) as char == "0123456789abcdef"[n]
  {
  }

  lemma {:induction false} HexRoundTrip(key: Bytes)
    ensures FromHex(Hex(key)) == Some(key)
  {
    if key == [] {
    } else {
      HexRoundTrip(key[1..]);
      HexDigitRoundTrip(key[0] / 16);
      HexDigitRoundTrip(key[0] % 16);
      assert Hex(key)[2..] == Hex(key[1..]);
      assert key == [key[0]] + key[1..];
    }
  }

  // ---------- decimal ----------

  function Decimal(n: nat): string {
    if n < 10 then [(48 + n) as char] else Decimal(n / 10) + [(48 + n % 10) as char]
  }

  function FromDecimal(s: string): int {
    if s == [] then 0 else 10 * FromDecimal(s[..|s| - 1]) + (s[|s| - 1] as int - 48)
  }

  predicate IsDigit(c: char) { '0' <= c <= '9' }

  /** Digits only, at least one, and no zero in front but for zero itself. */
  lemma {:induction false} DecimalShape(n: nat)
    ensures |Decimal(n)| > 0 && forall i | 0 <= i < |Decimal(n)| :: IsDigit(Decimal(n)[i])
    ensures Decimal(n)[0] == '0' <==> n == 0
    ensures n == 0 ==> Decimal(n) == "0"
  {
    if n < 10 {
    } else {
      DecimalShape(n / 10);
      assert Decimal(n)[..|Decimal(n)| - 1] == Decimal(n / 10);
    }
  }

  lemma {:induction false} DecimalRoundTrip(n: nat)
    ensures FromDecimal(Decimal(n)) == n
  {
    var s := Decimal(n);
    if n >= 10 {
      DecimalRoundTrip(n / 10);
      assert s[..|s| - 1] == Decimal(n / 10);
    } else {
      assert s[..|s| - 1] == [];
    }
  }
}
