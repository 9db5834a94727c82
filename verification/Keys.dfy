/** Store keys (pkg/store/keys.go, kv.go) and the 8-byte height codec (pkg/store/store.go). The store
    model uses the structured Key; rendering it to a string is injective. Which database entry that
    string reaches is the business of Paths. */
module Keys {
  import opened Basics

  datatype Key =
    | HeaderK(height: nat)
    | DataK(height: nat)
    | SignatureK(height: nat)
    | StateK(height: nat)
    | MetaK(name: string)
    | IndexK(hash: Bytes)
    | HeightK

  const DA_INCLUDED_HEIGHT := "d"
  const LAST_PRUNED_BLOCK_HEIGHT := "lst-prnd-b"

  const DIGITS := "0123456789"
  const HEX := "0123456789ABCDEF"

  /** strconv.FormatUint(n, 10) */
  function Decimal(n: nat): (s: string)
    ensures |s| >= 1
  {
    if n < 10 then [DIGITS[n]] else Decimal(n / 10) + [DIGITS[n % 10]]
  }

  /** Hash.String(): upper-case hexadecimal. */
  function Hex(b: Bytes): string {
    if b == [] then [] else [HEX[b[0] / 16], HEX[b[0] % 16]] + Hex(b[1..])
  }

  function HeightKey(prefix: string, height: nat): string {
    "/" + prefix + "/" + Decimal(height)
  }

  function HeaderDAHeightName(height: nat): string {
    "rhb/" + Decimal(height) + "/h"
  }

  function DataDAHeightName(height: nat): string {
    "rhb/" + Decimal(height) + "/d"
  }

  function Render(k: Key): string {
    match k
    case HeaderK(h) => HeightKey("h", h)
    case DataK(h) => HeightKey("d", h)
    case SignatureK(h) => HeightKey("c", h)
    case StateK(h) => HeightKey("s", h)
    case MetaK(name) => "/m/" + name
    case IndexK(hash) => "/i/" + Hex(hash)
    case HeightK => "/t"
  }

  lemma DigitsDistinct(a: nat, b: nat)
    requires a < 16 && b < 16 && HEX[a] == HEX[b]
    ensures a == b
  {
  }

  /** The number a string of digits stands for. */
  function DecimalValue(s: string): nat {
    if s == [] then 0
    else 10 * DecimalValue(s[..|s| - 1]) + (if '0' <= s[|s| - 1] <= '9' then s[|s| - 1] as int - '0' as int else 0)
  }

  /** A decimal string is its number, written without leading zeros. */
  lemma {:induction false} DecimalReads(n: nat)
    ensures DecimalValue(Decimal(n)) == n && (n > 0 ==> Decimal(n)[0] != '0')
  {
    var s := Decimal(n);
    DigitIs(n % 10);
    if n >= 10 {
      DecimalReads(n / 10);
      assert s[..|s| - 1] == Decimal(n / 10) && s[|s| - 1] == DIGITS[n % 10];
    } else {
      assert s[..0] == [] && s[0] == DIGITS[n % 10];
      assert n > 0 ==> DIGITS[n] != '0';
    }
  }

  lemma DigitIs(d: nat)
    requires d < 10
    ensures '0' <= DIGITS[d] <= '9' && DIGITS[d] as int - '0' as int == d
  {
  }

  lemma DecimalInjective(m: nat, n: nat)
    requires Decimal(m) == Decimal(n)
    ensures m == n
  {
    DecimalReads(m);
    DecimalReads(n);
  }

  lemma {:induction false} HexInjective(a: Bytes, b: Bytes)
    requires Hex(a) == Hex(b)
    ensures a == b
  {
    if a != [] && b != [] {
      assert Hex(a)[0] == HEX[a[0] / 16] && Hex(b)[0] == HEX[b[0] / 16];
      assert Hex(a)[1] == HEX[a[0] % 16] && Hex(b)[1] == HEX[b[0] % 16];
      DigitsDistinct(a[0] / 16, b[0] / 16);
      DigitsDistinct(a[0] % 16, b[0] % 16);
      assert Hex(a)[2..] == Hex(a[1..]) && Hex(b)[2..] == Hex(b[1..]);
      HexInjective(a[1..], b[1..]);
      assert a == [a[0]] + a[1..] && b == [b[0]] + b[1..];
    }
  }

  /** Distinct keys have distinct strings. */
  lemma RenderInjective(a: Key, b: Key)
    requires Render(a) == Render(b)
    ensures a == b
  {
    var s, t := Render(a), Render(b);
    assert s[1] == t[1];
    if |s| > 2 {
      assert s[3..] == t[3..];
      assert a.MetaK? ==> s[3..] == a.name;
      assert b.MetaK? ==> t[3..] == b.name;
      if a.IndexK? && b.IndexK? {
        assert s[3..] == Hex(a.hash) && t[3..] == Hex(b.hash);
        HexInjective(a.hash, b.hash);
      } else if !a.MetaK? && !a.IndexK? {
        assert s[3..] == Decimal(a.height) && t[3..] == Decimal(b.height);
        DecimalInjective(a.height, b.height);
      }
    }
  }

  // ---------------------------------------------------------------- little-endian heights

  function LittleEndian(v: nat, n: nat): (b: Bytes)
    ensures |b| == n
  {
    if n == 0 then [] else [v % 256] + LittleEndian(v / 256, n - 1)
  }

  function LittleEndianValue(b: Bytes): nat {
    if b == [] then 0 else b[0] + 256 * LittleEndianValue(b[1..])
  }

  function Pow256(n: nat): (p: nat)
    ensures p > 0
  {
    if n == 0 then 1 else 256 * Pow256(n - 1)
  }

  /** Byte `i` of an encoded height is its `i`-th digit to the base 256, lowest first. */
  lemma {:induction false} LittleEndianAt(v: nat, n: nat, i: nat)
    requires i < n
    ensures LittleEndian(v, n)[i] == v / Pow256(i) % 256
  {
    if i > 0 {
      LittleEndianAt(v / 256, n - 1, i - 1);
      DivideTwice(v, Pow256(i - 1));
    }
  }

  lemma DivideTwice(v: nat, d: nat)
    requires d > 0
    ensures v / 256 / d == v / (256 * d)
  {
    var q, r := v / 256 / d, v / 256 % d;
    assert v / 256 == q * d + r;
    assert v == 256 * (q * d + r) + v % 256;
    assert 256 * (q * d) == q * (256 * d);
    Quotient(v, 256 * d, q, 256 * r + v % 256);
  }

  lemma Quotient(v: nat, d: nat, q: nat, r: nat)
    requires d > 0 && v == q * d + r && r < d
    ensures v / d == q
  {
    var x := v / d - q;
    Multiple(x, d);
    assert x * d == v / d * d - q * d;
  }

  lemma Multiple(x: int, d: int)
    requires d >= 0
    ensures x >= 1 ==> x * d >= d
    ensures x <= -1 ==> x * d <= -d
  {
    if x >= 1 {
      assert x * d == d + (x - 1) * d;
      NonNegative(x - 1, d);
    } else if x <= -1 {
      assert x * d == -d - (-1 - x) * d;
      NonNegative(-1 - x, d);
    }
  }

  lemma NonNegative(a: nat, b: nat)
    ensures a * b >= 0
  {
  }

  lemma {:induction false} LittleEndianRoundTrip(v: nat, n: nat)
    requires v < Pow256(n)
    ensures LittleEndianValue(LittleEndian(v, n)) == v
  {
    if n > 0 {
      LittleEndianRoundTrip(v / 256, n - 1);
      assert LittleEndian(v, n)[1..] == LittleEndian(v / 256, n - 1);
    }
  }

  lemma {:induction false} LittleEndianOfValue(b: Bytes)
    ensures LittleEndian(LittleEndianValue(b), |b|) == b
    ensures LittleEndianValue(b) < Pow256(|b|)
  {
    if b != [] {
      LittleEndianOfValue(b[1..]);
      ShiftByte(b[0], LittleEndianValue(b[1..]));
      assert b == [b[0]] + b[1..];
    }
  }

  lemma ShiftByte(low: byte, high: nat)
    ensures (low + 256 * high) % 256 == low && (low + 256 * high) / 256 == high
  {
  }

  lemma EightBytes()
    ensures Pow256(8) == U64
  {
    assert Pow256(1) == 0x100 && Pow256(2) == 0x1_0000 && Pow256(3) == 0x100_0000 && Pow256(4) == 0x1_0000_0000;
    assert Pow256(5) == 0x100_0000_0000 && Pow256(6) == 0x1_0000_0000_0000 && Pow256(7) == 0x100_0000_0000_0000;
  }

  function EncodeHeight(h: nat): Bytes {
    LittleEndian(h, 8)
  }

  function DecodeHeight(b: Bytes): Option<nat> {
    if |b| != 8 then None else Some(LittleEndianValue(b))
  }

  /** The height codec loses nothing, in either direction. */
  lemma HeightRoundTrip(h: nat, b: Bytes)
    ensures h < U64 ==> DecodeHeight(EncodeHeight(h)) == Some(h)
    ensures DecodeHeight(b).Some? ==> DecodeHeight(b).value < U64 && EncodeHeight(DecodeHeight(b).value) == b
  {
    EightBytes();
    if h < U64 {
      LittleEndianRoundTrip(h, 8);
    }
    LittleEndianOfValue(b);
  }

  lemma EncodeHeightInjective(g: nat, h: nat)
    requires g < U64 && h < U64 && EncodeHeight(g) == EncodeHeight(h)
    ensures g == h
  {
    HeightRoundTrip(g, []);
    HeightRoundTrip(h, []);
  }
}
