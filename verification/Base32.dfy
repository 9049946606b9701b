/** The Crockford base32 codec of the recovery key (`vault/recovery.rs`): five bytes become eight
    characters, as in section 6 of RFC 4648, with Crockford's alphabet and no padding characters. */
module Base32 {
  import opened Common

  const ALPHABET := "0123456789ABCDEFGHJKMNPQRSTVWXYZ"

  datatype DecodeError = BadCharacter(c: byte)

  /** The character of a digit. */
  function Symbol(index: nat): byte
    requires index < 32
  {
    ALPHABET[index] as int
  }

  /** `ALPHABET.iter().position(..)`. */
  function Find(c: byte, from: nat): Option<nat>
    requires from <= 32
    decreases 32 - from
  {
    if from == 32 then None else if Symbol(from) == c then Some(from) else Find(c, from + 1)
  }

  function ValueOf(c: byte): (v: Option<nat>)
  {
    Find(c, 0)
  }

  lemma {:induction false} FindFinds(c: byte, from: nat)
    requires from <= 32
    ensures match Find(c, from)
            case Some(i) => from <= i < 32 && Symbol(i) == c
            case None => forall i | from <= i < 32 :: Symbol(i) != c
    decreases 32 - from
  {
    if from < 32 {
      FindFinds(c, from + 1);
    }
  }

  lemma SymbolsDiffer(i: nat, j: nat)
    requires i < j < 32
    ensures Symbol(i) < Symbol(j)
  {
  }

  /** Symbols and digit values are in bijection. */
  lemma SymbolValue(i: nat)
    requires i < 32
    ensures ValueOf(Symbol(i)) == Some(i)
  {
    FindFinds(Symbol(i), 0);
    var k := ValueOf(Symbol(i)).value;
    if k < i {
      SymbolsDiffer(k, i);
    } else if i < k {
      SymbolsDiffer(i, k);
    }
  }

  lemma ValueSymbol(c: byte)
    ensures ValueOf(c).Some? ==> ValueOf(c).value < 32 && Symbol(ValueOf(c).value) == c
  {
    FindFinds(c, 0);
  }

  function DivCeil(n: nat, d: nat): nat
    requires d > 0
  {
    (n + d - 1) / d
  }

  function Base32Len(n: nat): nat {
    DivCeil(n, 5) * 8
  }

  // ---- One block: forty bits as five bytes or as eight digits -------------------

  /** `b0 << 32 | b1 << 24 | ..`: the shifted bytes do not overlap, so the bitwise or is a sum. */
  function BitsOfBytes(b: seq<byte>): (bits: nat)
    requires |b| == 5
    ensures bits < 0x100_0000_0000
  {
    var b0: int, b1: int, b2: int, b3: int, b4: int := b[0], b[1], b[2], b[3], b[4];
    b0 * 0x1_0000_0000 + b1 * 0x100_0000 + b2 * 0x1_0000 + b3 * 0x100 + b4
  }

  /** The power of two of the shift by `35 - 5 * i`. */
  function DigitWeight(i: nat): nat
    requires i < 8
  {
    [0x8_0000_0000, 0x4000_0000, 0x200_0000, 0x10_0000, 0x8000, 0x400, 0x20, 1][i]
  }

  function DigitOf(bits: nat, i: nat): (d: nat)
    requires i < 8
    ensures d < 32
  {
    bits / DigitWeight(i) % 32
  }

  type Digits = v: seq<nat> | |v| == 8 && forall i | 0 <= i < 8 :: v[i] < 32 witness [0, 0, 0, 0, 0, 0, 0, 0]

  function DigitsOfBits(bits: nat): Digits {
    seq(8, i requires 0 <= i < 8 => DigitOf(bits, i))
  }

  function BitsOfDigits(v: Digits): nat {
    v[0] * 0x8_0000_0000 + v[1] * 0x4000_0000 + v[2] * 0x200_0000 + v[3] * 0x10_0000
    + v[4] * 0x8000 + v[5] * 0x400 + v[6] * 0x20 + v[7]
  }

  function BytesOfBits(bits: nat): (b: seq<byte>)
    ensures |b| == 5
  {
    [bits / 0x1_0000_0000 % 256, bits / 0x100_0000 % 256, bits / 0x1_0000 % 256, bits / 0x100 % 256, bits % 256]
  }

  lemma AtLeastOne(a: int, w: int)
    requires a >= 1 && w >= 1
    ensures a * w >= w
  {
  }

  lemma Distribute(a: int, b: int, w: int)
    ensures (a - b) * w == a * w - b * w
  {
  }

  lemma Unique(d: int, m: int, q: int, r: int, w: int)
    requires d * w + m == q * w + r && 0 <= m < w && 0 <= r < w
    ensures d == q && m == r
  {
    if d > q {
      Distribute(d, q, w);
      AtLeastOne(d - q, w);
    } else if d < q {
      Distribute(q, d, w);
      AtLeastOne(q - d, w);
    }
  }

  lemma Quotient(n: int, w: int, q: int, r: int)
    requires n == q * w + r && 0 <= r < w
    ensures n / w == q && n % w == r
  {
    var d, m := n / w, n % w;
    assert n == d * w + m;
    Unique(d, m, q, r, w);
  }

  lemma BytesSurvive(b: seq<byte>)
    requires |b| == 5
    ensures BytesOfBits(BitsOfBytes(b)) == b
  {
    var n := BitsOfBytes(b);
    var b0: int, b1: int, b2: int, b3: int, b4: int := b[0], b[1], b[2], b[3], b[4];
    Quotient(n, 0x100, b0 * 0x100_0000 + b1 * 0x1_0000 + b2 * 0x100 + b3, b4);
    Quotient(n, 0x1_0000, b0 * 0x1_0000 + b1 * 0x100 + b2, b3 * 0x100 + b4);
    Quotient(n, 0x100_0000, b0 * 0x100 + b1, b2 * 0x1_0000 + b3 * 0x100 + b4);
    Quotient(n, 0x1_0000_0000, b0, b1 * 0x100_0000 + b2 * 0x1_0000 + b3 * 0x100 + b4);
    Quotient(n / 0x100, 0x100, b0 * 0x1_0000 + b1 * 0x100 + b2, b3);
    Quotient(n / 0x1_0000, 0x100, b0 * 0x100 + b1, b2);
    Quotient(n / 0x100_0000, 0x100, b0, b1);
  }

  lemma ByteByByte(n: nat)
    ensures n / 0x100 / 256 == n / 0x1_0000 && n / 0x1_0000 / 256 == n / 0x100_0000 && n / 0x100_0000 / 256 == n / 0x1_0000_0000
  {
  }

  /** Forty bits are the value of their five bytes. */
  lemma BitsSurviveAsBytes(n: nat)
    requires n < 0x100_0000_0000
    ensures BitsOfBytes(BytesOfBits(n)) == n
  {
    var q1, q2, q3, q4 := n / 0x100, n / 0x1_0000, n / 0x100_0000, n / 0x1_0000_0000;
    ByteByByte(n);
    assert n == q1 * 256 + n % 256 && q1 == q2 * 256 + q1 % 256 && q2 == q3 * 256 + q2 % 256 && q3 == q4 * 256 + q3 % 256;
  }

  /** The value of the first `k` digits. */
  function Prefix(v: Digits, k: nat): nat
    requires k <= 8
  {
    if k == 0 then 0 else Prefix(v, k - 1) * 32 + v[k - 1]
  }

  /** The value of the other digits. */
  function Suffix(v: Digits, k: nat): nat
    requires k <= 8
    decreases 8 - k
  {
    if k == 8 then 0 else v[k] * DigitWeight(k) + Suffix(v, k + 1)
  }

  function Weight(k: nat): nat
    requires k <= 8
  {
    if k == 8 then 1 else 32 * DigitWeight(k)
  }

  lemma {:induction false} SuffixBound(v: Digits, k: nat)
    requires k <= 8
    ensures Suffix(v, k) < Weight(k)
    decreases 8 - k
  {
    if k < 8 {
      SuffixBound(v, k + 1);
      assert Weight(k + 1) == DigitWeight(k);
      assert v[k] * DigitWeight(k) <= 31 * DigitWeight(k);
    }
  }

  lemma SuffixIsAll(v: Digits)
    ensures Suffix(v, 0) == BitsOfDigits(v)
  {
    assert Suffix(v, 7) == v[7];
    assert Suffix(v, 6) == v[6] * 0x20 + Suffix(v, 7);
    assert Suffix(v, 5) == v[5] * 0x400 + Suffix(v, 6);
    assert Suffix(v, 4) == v[4] * 0x8000 + Suffix(v, 5);
    assert Suffix(v, 3) == v[3] * 0x10_0000 + Suffix(v, 4);
    assert Suffix(v, 2) == v[2] * 0x200_0000 + Suffix(v, 3);
    assert Suffix(v, 1) == v[1] * 0x4000_0000 + Suffix(v, 2);
  }

  lemma NextDigit(p: nat, d: nat, w: nat)
    ensures (p * 32 + d) * w == p * (32 * w) + d * w
  {
    assert p * 32 * w == p * (32 * w);
  }

  lemma WeightStep(k: nat)
    requires 0 < k <= 8
    ensures Weight(k - 1) == 32 * Weight(k) && DigitWeight(k - 1) == Weight(k)
  {
  }

  lemma {:induction false} PrefixAndSuffix(v: Digits, k: nat)
    requires k <= 8
    ensures BitsOfDigits(v) == Prefix(v, k) * Weight(k) + Suffix(v, k)
    decreases k
  {
    if k == 0 {
      SuffixIsAll(v);
    } else {
      hide BitsOfDigits;
      PrefixAndSuffix(v, k - 1);
      WeightStep(k);
      var p, d, w := Prefix(v, k - 1), v[k - 1], Weight(k);
      hide Weight, DigitWeight;
      assert Prefix(v, k) == p * 32 + d && Suffix(v, k - 1) == d * w + Suffix(v, k);
      NextDigit(p, d, w);
    }
  }

  lemma DigitsSurvive(v: Digits)
    ensures DigitsOfBits(BitsOfDigits(v)) == v && BitsOfDigits(v) < 0x100_0000_0000
  {
    var n := BitsOfDigits(v);
    PrefixAndSuffix(v, 0);
    SuffixBound(v, 0);
    forall i | 0 <= i < 8 ensures DigitOf(n, i) == v[i] {
      PrefixAndSuffix(v, i + 1);
      SuffixBound(v, i + 1);
      assert Weight(i + 1) == DigitWeight(i);
      Quotient(n, DigitWeight(i), Prefix(v, i + 1), Suffix(v, i + 1));
      Quotient(Prefix(v, i + 1), 32, Prefix(v, i), v[i]);
    }
  }

  lemma DivTwice(n: nat, a: nat)
    requires a > 0
    ensures n / (32 * a) == n / a / 32
  {
    var m, r := n / a, n % a;
    var q, s := m / 32, m % 32;
    assert n == m * a + r && m == 32 * q + s;
    SplitProduct(q, s, a);
    SmallProduct(s, a);
    Quotient(n, 32 * a, q, s * a + r);
  }

  lemma SplitProduct(q: nat, s: nat, a: nat)
    ensures (32 * q + s) * a == q * (32 * a) + s * a
  {
  }

  lemma SmallProduct(s: nat, a: nat)
    requires s <= 31
    ensures 0 <= s * a <= 31 * a
  {
    Distribute(31, s, a);
    assert (31 - s) * a >= 0;
  }

  lemma {:induction false} PrefixOfBits(n: nat, k: nat)
    requires n < 0x100_0000_0000 && k <= 8
    ensures Prefix(DigitsOfBits(n), k) == n / Weight(k)
    decreases k
  {
    if k > 0 {
      PrefixOfBits(n, k - 1);
      assert Weight(k - 1) == 32 * Weight(k) && DigitWeight(k - 1) == Weight(k);
      DivTwice(n, Weight(k));
    }
  }

  /** Forty bits are the value of their eight digits. */
  lemma BitsSurvive(n: nat)
    requires n < 0x100_0000_0000
    ensures BitsOfDigits(DigitsOfBits(n)) == n
  {
    PrefixOfBits(n, 8);
    PrefixAndSuffix(DigitsOfBits(n), 8);
  }

  // ---- Whole texts ----------------------------------------------------------------

  function Pad(b: seq<byte>, n: nat, fill: byte): (p: seq<byte>)
    requires |b| <= n
    ensures |p| == n && p[..|b|] == b
  {
    b + seq(n - |b|, _ => fill)
  }

  function Head(s: seq<byte>, n: nat): (h: seq<byte>)
    ensures |h| <= n
  {
    if |s| <= n then s else s[..n]
  }

  function Tail(s: seq<byte>, n: nat): seq<byte> {
    if |s| <= n then [] else s[n..]
  }

  function SymbolsOf(v: Digits): (t: seq<byte>)
    ensures |t| == 8
  {
    seq(8, i requires 0 <= i < 8 => Symbol(v[i]))
  }

  function Encode(data: seq<byte>): seq<byte>
    decreases |data|
  {
    if data == [] then []
    else SymbolsOf(DigitsOfBits(BitsOfBytes(Pad(Head(data, 5), 5, 0)))) + Encode(Tail(data, 5))
  }

  /** The digits of a block, or the first character that has none. */
  function DigitsOf(block: seq<byte>): Result<seq<nat>, DecodeError> {
    if block == [] then Ok([])
    else if ValueOf(block[0]).None? then Err(BadCharacter(block[0]))
    else
      match DigitsOf(block[1..])
      case Err(e) => Err(e)
      case Ok(rest) => Ok([ValueOf(block[0]).value] + rest)
  }

  lemma {:induction false} DigitsOfMeans(block: seq<byte>)
    ensures DigitsOf(block).Ok? <==> forall i | 0 <= i < |block| :: ValueOf(block[i]).Some?
    ensures DigitsOf(block).Ok? ==>
              var v := DigitsOf(block).value;
              |v| == |block| && forall i | 0 <= i < |block| :: v[i] < 32 && Some(v[i]) == ValueOf(block[i]) && Symbol(v[i]) == block[i]
    ensures DigitsOf(block).Err? ==>
              exists i :: 0 <= i < |block| && DigitsOf(block) == Err(BadCharacter(block[i])) && ValueOf(block[i]).None?
                       && forall j | 0 <= j < i :: ValueOf(block[j]).Some?
    decreases |block|
  {
    if block != [] {
      DigitsOfMeans(block[1..]);
      ValueSymbol(block[0]);
      if ValueOf(block[0]).Some? && DigitsOf(block).Err? {
        var i :| 0 <= i < |block| - 1 && DigitsOf(block[1..]) == Err(BadCharacter(block[1..][i])) && ValueOf(block[1..][i]).None?
              && forall j | 0 <= j < i :: ValueOf(block[1..][j]).Some?;
        assert forall j | 0 < j < i + 1 :: block[j] == block[1..][j - 1];
        assert DigitsOf(block) == Err(BadCharacter(block[i + 1]));
      }
    }
  }

  const ZERO: byte := 48

  function Block(text: seq<byte>): (b: seq<byte>)
    ensures |b| == 8
  {
    Pad(Head(text, 8), 8, ZERO)
  }

  function Decode(text: seq<byte>): Result<seq<byte>, DecodeError>
    decreases |text|
  {
    if text == [] then Ok([])
    else
      match DigitsOf(Block(text))
      case Err(e) => Err(e)
      case Ok(v) =>
        DigitsOfMeans(Block(text));
        match Decode(Tail(text, 8))
        case Err(e) => Err(e)
        case Ok(rest) => Ok(BytesOfBits(BitsOfDigits(v)) + rest)
  }

  /** Zero bytes up to a multiple of five. */
  function Padded(data: seq<byte>): seq<byte> {
    Pad(data, DivCeil(|data|, 5) * 5, 0)
  }

  lemma PaddedStep(data: seq<byte>)
    requires data != []
    ensures Padded(data) == Pad(Head(data, 5), 5, 0) + Padded(Tail(data, 5))
  {
    if |data| > 5 {
      assert DivCeil(|data|, 5) == DivCeil(|data| - 5, 5) + 1;
      assert data == data[..5] + data[5..];
    }
  }

  lemma EncodedBlock(b: seq<byte>)
    requires |b| == 5
    ensures var t := SymbolsOf(DigitsOfBits(BitsOfBytes(b)));
            DigitsOf(t) == Ok(DigitsOfBits(BitsOfBytes(b))) && BytesOfBits(BitsOfDigits(DigitsOfBits(BitsOfBytes(b)))) == b
  {
    var v := DigitsOfBits(BitsOfBytes(b));
    var t := SymbolsOf(v);
    DigitsOfMeans(t);
    forall i | 0 <= i < 8 ensures ValueOf(t[i]) == Some(v[i]) {
      SymbolValue(v[i]);
    }
    assert DigitsOf(t).value == v;
    BitsSurvive(BitsOfBytes(b));
    BytesSurvive(b);
  }

  /** Decoding an encoding gives the data back, followed by the zero bytes that fill its last block. */
  lemma {:induction false} DecodeEncode(data: seq<byte>)
    ensures Decode(Encode(data)) == Ok(Padded(data))
    decreases |data|
  {
    if data != [] {
      var b := Pad(Head(data, 5), 5, 0);
      var t := SymbolsOf(DigitsOfBits(BitsOfBytes(b)));
      var text := Encode(data);
      assert Head(text, 8) == t && Tail(text, 8) == Encode(Tail(data, 5));
      assert Block(text) == t;
      EncodedBlock(b);
      DecodeEncode(Tail(data, 5));
      PaddedStep(data);
    }
  }

  // ---- The order of the bits ----------------------------------------------------------

  /** `n >> k`. */
  function Shifted(n: nat, k: nat): nat {
    if k == 0 then n else Shifted(n / 2, k - 1)
  }

  function Pow2(k: nat): (p: nat)
    ensures p >= 1
  {
    if k == 0 then 1 else 2 * Pow2(k - 1)
  }

  /** Bit `k` of a byte string, most significant first. */
  function ByteBit(data: seq<byte>, k: nat): nat
    requires k < 8 * |data|
  {
    Shifted(data[k / 8], 7 - k % 8) % 2
  }

  /** Bit `k` of a text of five-bit symbols, most significant first. */
  function TextBit(text: seq<byte>, k: nat): nat
    requires k < 5 * |text| && forall i | 0 <= i < |text| :: ValueOf(text[i]).Some?
  {
    Shifted(ValueOf(text[k / 5]).value, 4 - k % 5) % 2
  }

  lemma {:induction false} ShiftedTwice(n: nat, a: nat, b: nat)
    ensures Shifted(Shifted(n, a), b) == Shifted(n, a + b)
    decreases a
  {
    if a > 0 {
      ShiftedTwice(n / 2, a - 1, b);
    }
  }

  lemma HalfOfRest(n: nat, m: nat, d: nat)
    requires m >= 1 && d == 2 * m
    ensures n % d / 2 == n / 2 % m && n % d % 2 == n % 2
  {
    Divided(n, d);
    var q, r := n / d, n % d;
    Regroup(q, m, d);
    HalfOfSum(n, q * m, r);
    Quotient(n / 2, m, q, r / 2);
  }

  lemma Divided(n: nat, d: nat)
    requires d >= 1
    ensures n == n / d * d + n % d && 0 <= n % d < d
  {
  }

  lemma HalfOfSum(n: nat, p: nat, r: nat)
    requires n == 2 * p + r
    ensures n / 2 == p + r / 2 && n % 2 == r % 2
  {
  }

  lemma Regroup(q: nat, m: nat, d: nat)
    requires d == 2 * m
    ensures q * d == 2 * (q * m)
  {
  }

  /** The lowest bits of a number are those of its rest. */
  lemma {:induction false} RestKeepsBits(n: nat, m: nat, k: nat)
    requires k < m
    ensures Shifted(n % Pow2(m), k) % 2 == Shifted(n, k) % 2
    decreases k
  {
    HalfOfRest(n, Pow2(m - 1), Pow2(m));
    if k > 0 {
      RestKeepsBits(n / 2, m - 1, k - 1);
    }
  }

  lemma TwoShifts(n: nat)
    ensures Shifted(n, 2) == n / 4
  {
    assert Shifted(n, 2) == Shifted(n / 2, 1) == Shifted(n / 2 / 2, 0);
  }

  lemma ThreeShifts(n: nat)
    ensures Shifted(n, 3) == n / 8
  {
    TwoShifts(n / 2);
    assert Shifted(n, 3) == Shifted(n / 2, 2);
  }

  lemma ShiftsAreDivisions(n: nat)
    ensures Shifted(n, 8) == n / 256 && Shifted(n, 5) == n / 32
    ensures Pow2(8) == 256 && Pow2(5) == 32
  {
    ThreeShifts(n);
    TwoShifts(n / 8);
    ThreeShifts(n / 32);
    ShiftedTwice(n, 3, 2);
    ShiftedTwice(n, 5, 3);
    assert Pow2(3) == 8 && Pow2(5) == 4 * Pow2(3) && Pow2(8) == 8 * Pow2(5);
  }

  lemma BytesAreShifts(n: nat, j: nat)
    requires j < 5
    ensures BytesOfBits(n)[j] == Shifted(n, 8 * (4 - j)) % 256
  {
    ShiftsAreDivisions(n);
    ShiftsAreDivisions(n / 0x100);
    ShiftsAreDivisions(n / 0x1_0000);
    ShiftsAreDivisions(n / 0x100_0000);
    ShiftedTwice(n, 8, 8);
    ShiftedTwice(n, 16, 8);
    ShiftedTwice(n, 24, 8);
    ByteByByte(n);
  }

  lemma {:induction false} WeightsAreShifts(n: nat, i: nat)
    requires i < 8
    ensures n / DigitWeight(i) == Shifted(n, 5 * (7 - i))
    decreases 8 - i
  {
    if i < 7 {
      WeightsAreShifts(n, i + 1);
      DivTwice(n, DigitWeight(i + 1));
      ShiftsAreDivisions(n / DigitWeight(i + 1));
      ShiftedTwice(n, 5 * (6 - i), 5);
    }
  }

  /** In one block, bit `k` of the bytes and bit `k` of the digits are the same bit of the number. */
  lemma BlockBits(n: nat, k: nat)
    requires n < 0x100_0000_0000 && k < 40
    ensures Shifted(BytesOfBits(n)[k / 8], 7 - k % 8) % 2 == Shifted(DigitsOfBits(n)[k / 5], 4 - k % 5) % 2
  {
    ShiftsAreDivisions(n);
    BytesAreShifts(n, k / 8);
    RestKeepsBits(Shifted(n, 8 * (4 - k / 8)), 8, 7 - k % 8);
    ShiftedTwice(n, 8 * (4 - k / 8), 7 - k % 8);
    WeightsAreShifts(n, k / 5);
    RestKeepsBits(Shifted(n, 5 * (7 - k / 5)), 5, 4 - k % 5);
    ShiftedTwice(n, 5 * (7 - k / 5), 4 - k % 5);
    assert 8 * (4 - k / 8) + (7 - k % 8) == 39 - k == 5 * (7 - k / 5) + (4 - k % 5);
  }

  lemma {:induction false} EncodedValues(data: seq<byte>)
    ensures |Encode(data)| % 8 == 0 && 5 * |Encode(data)| >= 8 * |data|
    ensures forall i | 0 <= i < |Encode(data)| :: ValueOf(Encode(data)[i]).Some?
    decreases |data|
  {
    hide ValueOf, Symbol, DigitsOfBits, BitsOfBytes;
    if data != [] {
      EncodedValues(Tail(data, 5));
      var v := DigitsOfBits(BitsOfBytes(Pad(Head(data, 5), 5, 0)));
      forall i | 0 <= i < 8 ensures ValueOf(SymbolsOf(v)[i]).Some? {
        SymbolValue(v[i]);
      }
    }
  }

  /** The text carries the bits of the data, in their order. */
  lemma {:induction false} BitsInOrder(data: seq<byte>, k: nat)
    requires k < 8 * |data|
    ensures |Encode(data)| % 8 == 0 && k < 5 * |Encode(data)|
    ensures forall i | 0 <= i < |Encode(data)| :: ValueOf(Encode(data)[i]).Some?
    ensures TextBit(Encode(data), k) == ByteBit(data, k)
    decreases |data|
  {
    hide ValueOf, Symbol, DigitsOfBits, BitsOfBytes, BytesOfBits, Shifted;
    EncodedValues(data);
    var b := Pad(Head(data, 5), 5, 0);
    var n := BitsOfBytes(b);
    var text := Encode(data);
    assert text == SymbolsOf(DigitsOfBits(n)) + Encode(Tail(data, 5));
    if k < 40 {
      BytesSurvive(b);
      BlockBits(n, k);
      SymbolValue(DigitsOfBits(n)[k / 5]);
      assert data[k / 8] == b[k / 8] && text[k / 5] == Symbol(DigitsOfBits(n)[k / 5]);
    } else {
      EncodedValues(data[5..]);
      BitsInOrder(data[5..], k - 40);
      assert Tail(data, 5) == data[5..];
      assert data[k / 8] == data[5..][(k - 40) / 8] && text[k / 5] == Encode(data[5..])[(k - 40) / 5];
    }
  }

  lemma DecodedBlock(t: seq<byte>)
    requires |t| == 8 && DigitsOf(t).Ok?
    ensures var v := DigitsOf(t).value;
            |v| == 8 && (forall i | 0 <= i < 8 :: v[i] < 32)
            && SymbolsOf(DigitsOfBits(BitsOfBytes(BytesOfBits(BitsOfDigits(v))))) == t
  {
    DigitsOfMeans(t);
    var v: Digits := DigitsOf(t).value;
    DigitsSurvive(v);
    BitsSurviveAsBytes(BitsOfDigits(v));
    assert SymbolsOf(v) == t;
  }

  lemma EncodedStep(b: seq<byte>, rest: seq<byte>)
    requires |b| == 5
    ensures Encode(b + rest) == SymbolsOf(DigitsOfBits(BitsOfBytes(b))) + Encode(rest)
  {
    hide DigitsOfBits, BitsOfBytes, SymbolsOf;
    var data := b + rest;
    assert Head(data, 5) == b && Pad(b, 5, 0) == b && Tail(data, 5) == rest;
  }

  /** Encoding a decoding gives the text back, for every text of whole blocks. */
  lemma {:induction false} EncodeDecode(text: seq<byte>)
    requires |text| % 8 == 0 && Decode(text).Ok?
    ensures Encode(Decode(text).value) == text
    ensures |Decode(text).value| * 8 == |text| * 5
    decreases |text|
  {
    if text != [] {
      var t := Block(text);
      assert t == Head(text, 8) == text[..8];
      EncodeDecode(Tail(text, 8));
      DecodedBlock(t);
      var b, rest := BytesOfBits(BitsOfDigits(DigitsOf(t).value)), Decode(Tail(text, 8)).value;
      assert Decode(text).value == b + rest;
      hide Decode, DigitsOf, BytesOfBits, BitsOfDigits, DigitsOfBits, BitsOfBytes, SymbolsOf;
      EncodedStep(b, rest);
      assert text == text[..8] + Tail(text, 8);
    }
  }

  lemma ZeroHasValue()
    ensures ValueOf(ZERO).Some?
  {
    SymbolValue(0);
    assert Symbol(0) == ZERO;
  }

  /** Decoding accepts exactly the texts over the alphabet, and otherwise names the first stranger. */
  lemma {:induction false} DecodeAccepts(text: seq<byte>)
    ensures Decode(text).Ok? <==> forall i | 0 <= i < |text| :: ValueOf(text[i]).Some?
    ensures Decode(text).Err? ==>
              exists i :: 0 <= i < |text| && Decode(text) == Err(BadCharacter(text[i])) && ValueOf(text[i]).None?
                       && forall j | 0 <= j < i :: ValueOf(text[j]).Some?
    decreases |text|
  {
    if text != [] {
      hide ValueOf, Symbol, DigitsOf, BytesOfBits, BitsOfDigits;
      var block, rest := Block(text), Tail(text, 8);
      DigitsOfMeans(block);
      DecodeAccepts(rest);
      BlockThenRest(text);
      if DigitsOf(block).Err? {
        StrangerInBlock(text);
      } else if Decode(rest).Err? {
        var i :| 0 <= i < |rest| && Decode(rest) == Err(BadCharacter(rest[i])) && ValueOf(rest[i]).None?
              && forall j | 0 <= j < i :: ValueOf(rest[j]).Some?;
        assert forall j | 0 <= j < i + 8 :: ValueOf(text[j]).Some?;
        assert Decode(text) == Err(BadCharacter(text[i + 8]));
      }
    }
  }

  /** The characters of a text are those of its block, up to the padding, and those of the rest. */
  lemma BlockThenRest(text: seq<byte>)
    ensures forall i | 0 <= i < |text| :: text[i] == if i < 8 then Block(text)[i] else Tail(text, 8)[i - 8]
    ensures forall i | |text| <= i < 8 :: Block(text)[i] == ZERO
    ensures |Tail(text, 8)| == if |text| <= 8 then 0 else |text| - 8
  {
    var n := |Head(text, 8)|;
    assert forall i | 0 <= i < n :: Block(text)[i] == Block(text)[..n][i] == text[i];
  }

  lemma StrangerOf(block: seq<byte>) returns (i: nat)
    requires DigitsOf(block).Err?
    ensures i < |block| && DigitsOf(block).error == BadCharacter(block[i]) && ValueOf(block[i]).None?
    ensures forall j | 0 <= j < i :: ValueOf(block[j]).Some?
  {
    hide ValueOf, DigitsOf;
    DigitsOfMeans(block);
    i :| 0 <= i < |block| && DigitsOf(block) == Err(BadCharacter(block[i])) && ValueOf(block[i]).None?
      && forall j | 0 <= j < i :: ValueOf(block[j]).Some?;
  }

  lemma StrangerInBlock(text: seq<byte>)
    requires text != [] && DigitsOf(Block(text)).Err?
    ensures exists i :: 0 <= i < |text| && Decode(text) == Err(BadCharacter(text[i])) && ValueOf(text[i]).None?
                     && forall j | 0 <= j < i :: ValueOf(text[j]).Some?
  {
    hide ValueOf, DigitsOf, Decode, Block;
    StopsAtBlock(text);
    ZeroHasValue();
    var block := Block(text);
    var i := StrangerOf(block);
    BlockOfText(text);
    assert i < |text| && text[i] == block[i];
  }

  lemma StopsAtBlock(text: seq<byte>)
    requires text != [] && DigitsOf(Block(text)).Err?
    ensures Decode(text) == Err(DigitsOf(Block(text)).error)
  {
    hide DigitsOf, Block;
  }

  lemma BlockOfText(text: seq<byte>)
    ensures forall i | 0 <= i < 8 :: Block(text)[i] == if i < |text| then text[i] else ZERO
  {
    BlockThenRest(text);
  }

  // ---- The loops -------------------------------------------------------------------

  /** Pushes eight characters for each chunk of five bytes. */
  method Base32Encode(data: seq<byte>) returns (out: seq<byte>)
    ensures out == Encode(data)
  {
    hide Encode, BitsOfBytes, DigitsOfBits, DigitOf, Symbol;
    out := [];
    var rest := data;
    while rest != []
      invariant Encode(data) == out + Encode(rest)
      decreases |rest|
    {
      var bits := BitsOfBytes(Pad(Head(rest, 5), 5, 0));
      ghost var before := out;
      ghost var symbols := SymbolsOf(DigitsOfBits(bits));
      for i := 0 to 8
        invariant out == before + symbols[..i]
      {
        SymbolAt(bits, i);
        out := out + [Symbol(DigitOf(bits, i))];
      }
      assert symbols[..8] == symbols;
      EncodeStep(rest);
      assert before + (symbols + Encode(Tail(rest, 5))) == before + symbols + Encode(Tail(rest, 5));
      rest := Tail(rest, 5);
    }
    EncodeNothing();
    assert out + [] == out;
  }

  lemma SymbolAt(bits: nat, i: nat)
    requires i < 8
    ensures SymbolsOf(DigitsOfBits(bits))[i] == Symbol(DigitOf(bits, i))
  {
  }

  lemma EncodeStep(data: seq<byte>)
    requires data != []
    ensures Encode(data) == SymbolsOf(DigitsOfBits(BitsOfBytes(Pad(Head(data, 5), 5, 0)))) + Encode(Tail(data, 5))
  {
  }

  lemma EncodeNothing()
    ensures Encode([]) == []
  {
  }

  /** The bits of a block's first digits. */
  function BitsSoFar(v: seq<nat>, n: nat): nat
    requires n <= |v| <= 8
  {
    if n == 0 then 0 else BitsSoFar(v, n - 1) + v[n - 1] * DigitWeight(n - 1)
  }

  lemma BitsSoFarAll(v: Digits)
    ensures BitsSoFar(v, 8) == BitsOfDigits(v)
  {
    assert BitsSoFar(v, 1) == v[0] * 0x8_0000_0000;
    assert BitsSoFar(v, 2) == BitsSoFar(v, 1) + v[1] * 0x4000_0000;
    assert BitsSoFar(v, 3) == BitsSoFar(v, 2) + v[2] * 0x200_0000;
    assert BitsSoFar(v, 4) == BitsSoFar(v, 3) + v[3] * 0x10_0000;
    assert BitsSoFar(v, 5) == BitsSoFar(v, 4) + v[4] * 0x8000;
    assert BitsSoFar(v, 6) == BitsSoFar(v, 5) + v[5] * 0x400;
    assert BitsSoFar(v, 7) == BitsSoFar(v, 6) + v[6] * 0x20;
  }

  lemma {:induction false} BitsSoFarPrefix(v: seq<nat>, w: seq<nat>, n: nat)
    requires n <= |v| <= 8 && n <= |w| <= 8 && forall i | 0 <= i < n :: v[i] == w[i]
    ensures BitsSoFar(v, n) == BitsSoFar(w, n)
    decreases n
  {
    if n > 0 {
      BitsSoFarPrefix(v, w, n - 1);
    }
  }

  lemma BadBlock(text: seq<byte>, i: nat)
    requires text != [] && i < 8 && ValueOf(Block(text)[i]).None?
    requires forall j | 0 <= j < i :: ValueOf(Block(text)[j]).Some?
    ensures Decode(text) == Err(BadCharacter(Block(text)[i]))
  {
    var block := Block(text);
    DigitsOfMeans(block);
    var k :| 0 <= k < 8 && DigitsOf(block) == Err(BadCharacter(block[k])) && ValueOf(block[k]).None?
          && forall j | 0 <= j < k :: ValueOf(block[j]).Some?;
    assert k == i;
  }

  lemma GoodBlock(text: seq<byte>, v: Digits)
    requires text != [] && forall j | 0 <= j < 8 :: ValueOf(Block(text)[j]) == Some(v[j])
    ensures Decode(text) == Followed(BytesOfBits(BitsSoFar(v, 8)), Decode(Tail(text, 8)))
  {
    var block := Block(text);
    DigitsOfMeans(block);
    assert v == DigitsOf(block).value;
    BitsSoFarAll(v);
  }

  function Followed(out: seq<byte>, rest: Result<seq<byte>, DecodeError>): Result<seq<byte>, DecodeError> {
    match rest
    case Err(e) => Err(e)
    case Ok(more) => Ok(out + more)
  }

  lemma FollowedTwice(a: seq<byte>, b: seq<byte>, rest: Result<seq<byte>, DecodeError>)
    ensures Followed(a, Followed(b, rest)) == Followed(a + b, rest) && Followed([], rest) == rest
    ensures Followed(a, Ok([])) == Ok(a)
  {
    if rest.Ok? {
      assert a + (b + rest.value) == a + b + rest.value;
      assert [] + rest.value == rest.value;
    }
    assert a + [] == a;
  }

  /** Sums the digits of each chunk of eight characters and pushes five bytes. */
  method Base32Decode(text: seq<byte>) returns (r: Result<seq<byte>, DecodeError>)
    ensures r == Decode(text)
  {
    hide DigitsOf, Decode, BytesOfBits, BitsSoFar, DigitWeight, ValueOf, Block, Symbol;
    var out: seq<byte> := [];
    var rest := text;
    FollowedTwice([], [], Decode(text));
    while rest != []
      invariant Decode(text) == Followed(out, Decode(rest))
      decreases |rest|
    {
      var chunk := Head(rest, 8);
      var bits := 0;
      ghost var v: seq<nat> := [];
      NoBitsYet();
      for i := 0 to 8
        invariant |v| == i && forall j | 0 <= j < i :: ValueOf(Block(rest)[j]) == Some(v[j])
        invariant forall j | 0 <= j < i :: v[j] < 32
        invariant bits == BitsSoFar(v, i)
      {
        var c := if i < |chunk| then chunk[i] else ZERO;
        BlockAt(rest, i);
        var value := ValueOf(c);
        if value.None? {
          BadBlock(rest, i);
          return Err(BadCharacter(c));
        }
        ValueSymbol(c);
        BitsSoFarNext(v, value.value);
        bits := bits + value.value * DigitWeight(i);
        v := v + [value.value];
      }
      GoodBlock(rest, v);
      FollowedTwice(out, BytesOfBits(bits), Decode(Tail(rest, 8)));
      out := out + BytesOfBits(bits);
      rest := Tail(rest, 8);
    }
    EmptyDecodes();
    FollowedTwice(out, [], Decode([]));
    r := Ok(out);
  }

  lemma BlockAt(text: seq<byte>, i: nat)
    requires i < 8
    ensures Block(text)[i] == if i < |Head(text, 8)| then Head(text, 8)[i] else ZERO
  {
  }

  lemma NoBitsYet()
    ensures BitsSoFar([], 0) == 0
  {
  }

  lemma BitsSoFarNext(v: seq<nat>, d: nat)
    requires |v| < 8
    ensures BitsSoFar(v + [d], |v| + 1) == BitsSoFar(v, |v|) + d * DigitWeight(|v|)
  {
    hide DigitWeight;
    BitsSoFarPrefix(v, v + [d], |v|);
  }

  lemma EmptyDecodes()
    ensures Decode([]) == Ok([])
  {
  }
}
