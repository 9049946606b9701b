/** The recovery key: the outer key written down (`vault/recovery.rs`). */
module Recovery {
  import opened Common
  import opened Chars
  import Base32

  const PREFIX := "SYPH1"
  const KEY_LEN := 32
  const CHECKSUM_LEN := 4
  const BODY_LEN := 64

  datatype RecoveryError = BadPrefix | BadCharacter(c: byte) | BadLength(expected: nat, got: nat) | BadChecksum

  type Digest = d: seq<byte> | |d| == 32 witness seq(32, _ => 0)

  type RawKey = k: seq<byte> | |k| == KEY_LEN witness seq(KEY_LEN, _ => 0)

  /** Text over ASCII and its bytes. */
  function AsText(bytes: seq<byte>): (s: string)
    requires forall i | 0 <= i < |bytes| :: bytes[i] < 128
    ensures |s| == |bytes|
  {
    seq(|bytes|, i requires 0 <= i < |bytes| => bytes[i] as char)
  }

  function DomainTag(): seq<byte> {
    var tag := "sypherstore/v1/recovery-checksum";
    seq(|tag|, i requires 0 <= i < |tag| => if tag[i] < '\U{80}' then tag[i] as int else 0)
  }

  /** The first bytes of a domain-separated digest; the digest itself is a parameter. */
  function Checksum(sha: seq<byte> -> Digest, bytes: seq<byte>): (c: seq<byte>)
    ensures |c| == CHECKSUM_LEN
  {
    sha(DomainTag() + bytes)[..CHECKSUM_LEN]
  }

  function Payload(sha: seq<byte> -> Digest, key: RawKey): (p: seq<byte>)
    ensures |p| == KEY_LEN + CHECKSUM_LEN
  {
    key + Checksum(sha, key)
  }

  /** `chunks(8)` joined with dashes. */
  function Grouped(text: string): string {
    if |text| <= 8 then text else text[..8] + "-" + Grouped(text[8..])
  }

  function Encode(sha: seq<byte> -> Digest, key: RawKey): string {
    var body := Base32.Encode(Payload(sha, key));
    EncodedIsAscii(Payload(sha, key));
    PREFIX + "-" + Grouped(AsText(body))
  }

  predicate InAlphabet(c: byte) {
    (48 <= c <= 57 || 65 <= c <= 90) && Base32.ValueOf(c).Some?
  }

  lemma SymbolInAlphabet(i: nat)
    requires i < 32
    ensures InAlphabet(Base32.Symbol(i))
  {
    hide Base32.ValueOf, Base32.Find;
    Base32.SymbolValue(i);
    AlphabetRange(Base32.ALPHABET[i]);
  }

  lemma AlphabetRange(c: char)
    requires c in Base32.ALPHABET
    ensures '0' <= c <= '9' || 'A' <= c <= 'Z'
  {
  }

  lemma {:induction false} EncodedIsAscii(data: seq<byte>)
    ensures forall i | 0 <= i < |Base32.Encode(data)| :: InAlphabet(Base32.Encode(data)[i])
    ensures |Base32.Encode(data)| == Base32.Base32Len(|data|)
    decreases |data|
  {
    hide Base32.DigitsOfBits, Base32.BitsOfBytes, Base32.Symbol, InAlphabet;
    if data != [] {
      EncodedIsAscii(Base32.Tail(data, 5));
      var v := Base32.DigitsOfBits(Base32.BitsOfBytes(Base32.Pad(Base32.Head(data, 5), 5, 0)));
      forall i | 0 <= i < 8 ensures InAlphabet(Base32.SymbolsOf(v)[i]) {
        SymbolInAlphabet(v[i]);
      }
      assert Base32.DivCeil(|data|, 5) == 1 + Base32.DivCeil(|Base32.Tail(data, 5)|, 5);
    }
  }

  // ---- Parsing -----------------------------------------------------------------

  predicate IsSeparator(c: char) {
    IsWhitespace(c) || c == '-'
  }

  function Clean(s: string): string {
    if s == "" then "" else (if IsSeparator(s[0]) then "" else [s[0]]) + Clean(s[1..])
  }

  function Normal(input: string): string {
    ToUpper(Clean(input))
  }

  /** The UTF-8 bytes of a character. */
  function Utf8Char(c: char): seq<byte> {
    var n := c as int;
    if n < 0x80 then [n]
    else if n < 0x800 then [0xC0 + n / 0x40, 0x80 + n % 0x40]
    else if n < 0x1_0000 then [0xE0 + n / 0x1000, 0x80 + n / 0x40 % 0x40, 0x80 + n % 0x40]
    else [0xF0 + n / 0x4_0000, 0x80 + n / 0x1000 % 0x40, 0x80 + n / 0x40 % 0x40, 0x80 + n % 0x40]
  }

  /** How many bytes a character takes, by its first byte (section 3 of RFC 3629). */
  function Utf8Width(first: byte): nat {
    if first < 0x80 then 1 else if first < 0xE0 then 2 else if first < 0xF0 then 3 else 4
  }

  /** The number that the bytes of a character stand for: the low bits of the first byte and six bits of
      each other. */
  function Utf8Value(b: seq<byte>): int
    requires b != [] && |b| == Utf8Width(b[0])
  {
    var n: seq<int> := seq(|b|, i requires 0 <= i < |b| => b[i] as int);
    if |b| == 1 then n[0]
    else if |b| == 2 then (n[0] - 0xC0) * 0x40 + (n[1] - 0x80)
    else if |b| == 3 then (n[0] - 0xE0) * 0x1000 + (n[1] - 0x80) * 0x40 + (n[2] - 0x80)
    else (n[0] - 0xF0) * 0x4_0000 + (n[1] - 0x80) * 0x1000 + (n[2] - 0x80) * 0x40 + (n[3] - 0x80)
  }

  /** A character's bytes read back as its code point, and follow on one from the other. */
  lemma Utf8Reads(c: char)
    ensures var b := Utf8Char(c);
            && b != [] && |b| == Utf8Width(b[0]) && Utf8Value(b) == c as int
            && forall i | 1 <= i < |b| :: 0x80 <= b[i] < 0xC0
  {
    var n := c as int;
    assert n == n / 0x40 * 0x40 + n % 0x40;
    assert n / 0x40 == n / 0x1000 * 0x40 + n / 0x40 % 0x40;
    assert n / 0x1000 == n / 0x4_0000 * 0x40 + n / 0x1000 % 0x40;
  }

  /** Different texts have different bytes. */
  lemma {:induction false} Utf8Injective(s: string, t: string)
    requires Utf8(s) == Utf8(t)
    ensures s == t
    decreases |s|
  {
    hide Utf8Char, Utf8Value;
    if s != "" {
      Utf8Reads(s[0]);
    }
    if t != "" {
      Utf8Reads(t[0]);
    }
    if s != "" && t != "" {
      var a, b := Utf8Char(s[0]), Utf8Char(t[0]);
      assert Utf8(s)[0] == a[0] && Utf8(t)[0] == b[0];
      assert a == Utf8(s)[..|a|] && b == Utf8(t)[..|b|];
      assert Utf8(s[1..]) == Utf8(s)[|a|..] && Utf8(t[1..]) == Utf8(t)[|b|..];
      Utf8Injective(s[1..], t[1..]);
      assert s == [s[0]] + s[1..] && t == [t[0]] + t[1..];
    }
  }

  function Utf8(s: string): seq<byte> {
    if s == "" then [] else Utf8Char(s[0]) + Utf8(s[1..])
  }

  /** The bytes after the prefix, if the prefix is there. */
  function Body(normal: string): Option<seq<byte>> {
    if PREFIX <= normal then Some(Utf8(normal[|PREFIX|..])) else None
  }

  function Decode(sha: seq<byte> -> Digest, input: string): Result<RawKey, RecoveryError> {
    match Body(Normal(input))
    case None => Err(BadPrefix)
    case Some(body) =>
      var expected := Base32.Base32Len(KEY_LEN + CHECKSUM_LEN);
      if |body| != expected then Err(BadLength(expected, |body|))
      else
        match Base32.Decode(body)
        case Err(e) => Err(BadCharacter(e.c))
        case Ok(decoded) =>
          if |decoded| < KEY_LEN + CHECKSUM_LEN then Err(BadLength(expected, |body|))
          else
            var key, provided := decoded[..KEY_LEN], decoded[KEY_LEN..KEY_LEN + CHECKSUM_LEN];
            if Checksum(sha, key) != provided then Err(BadChecksum) else Ok(key)
  }

  lemma {:induction false} CleanConcat(a: string, b: string)
    ensures Clean(a + b) == Clean(a) + Clean(b)
    decreases |a|
  {
    if a == "" {
      assert a + b == b;
    } else {
      assert (a + b)[1..] == a[1..] + b;
      CleanConcat(a[1..], b);
    }
  }

  lemma {:induction false} CleanNothing(s: string)
    requires forall i | 0 <= i < |s| :: !IsSeparator(s[i])
    ensures Clean(s) == s
    decreases |s|
  {
    if s != "" {
      CleanNothing(s[1..]);
    }
  }

  lemma {:induction false} CleanGrouped(text: string)
    requires forall i | 0 <= i < |text| :: !IsSeparator(text[i])
    ensures Clean(Grouped(text)) == text
    decreases |text|
  {
    if |text| <= 8 {
      CleanNothing(text);
    } else {
      CleanGrouped(text[8..]);
      CleanNothing(text[..8]);
      CleanConcat(text[..8] + "-", Grouped(text[8..]));
      CleanConcat(text[..8], "-");
      assert Clean("-") == "";
      assert text == text[..8] + text[8..];
    }
  }

  lemma {:induction false} Utf8Ascii(bytes: seq<byte>)
    requires forall i | 0 <= i < |bytes| :: bytes[i] < 128
    ensures Utf8(AsText(bytes)) == bytes
    decreases |bytes|
  {
    if bytes != [] {
      Utf8Ascii(bytes[1..]);
      assert AsText(bytes)[1..] == AsText(bytes[1..]);
      assert bytes == [bytes[0]] + bytes[1..];
    }
  }

  /** What the parser sees of the canonical rendering. */
  lemma NormalOfEncode(sha: seq<byte> -> Digest, key: RawKey)
    ensures Body(Normal(Encode(sha, key))) == Some(Base32.Encode(Payload(sha, key)))
  {
    var body := Base32.Encode(Payload(sha, key));
    EncodedIsAscii(Payload(sha, key));
    var text := AsText(body);
    assert forall i | 0 <= i < |text| :: InAlphabet(body[i]) && text[i] == body[i] as char;
    AlphabetText(body);
    hide Base32.Encode, Clean, Utf8, AsText, ToUpper, Payload, InAlphabet;
    CleanRendered(text);
    assert (PREFIX + text)[|PREFIX|..] == text;
    Utf8Ascii(body);
  }

  lemma AlphabetText(body: seq<byte>)
    requires forall i | 0 <= i < |body| :: InAlphabet(body[i]) && body[i] < 128
    ensures var text := AsText(body);
            && (forall i | 0 <= i < |text| :: !IsSeparator(text[i]))
            && ToUpper(PREFIX + text) == PREFIX + text
  {
    hide Base32.ValueOf;
    var text := AsText(body);
    forall i | 0 <= i < |text| ensures !IsSeparator(text[i]) && UpperChar(text[i]) == text[i] {
      assert text[i] == body[i] as char && (48 <= body[i] <= 57 || 65 <= body[i] <= 90);
    }
  }

  lemma CleanRendered(text: string)
    requires forall i | 0 <= i < |text| :: !IsSeparator(text[i])
    ensures Clean(PREFIX + "-" + Grouped(text)) == PREFIX + text
  {
    CleanGrouped(text);
    CleanConcat(PREFIX + "-", Grouped(text));
    CleanPrefix();
    hide Clean;
    assert PREFIX + text == Clean(PREFIX + "-") + Clean(Grouped(text));
  }

  lemma CleanPrefix()
    ensures Clean(PREFIX + "-") == PREFIX
  {
    CleanConcat(PREFIX, "-");
    CleanNothing(PREFIX);
    assert Clean("-") == "";
  }

  /** Every key is recovered from its own rendering. */
  lemma RecoveryRoundTrip(sha: seq<byte> -> Digest, key: RawKey)
    ensures Decode(sha, Encode(sha, key)) == Ok(key)
  {
    NormalOfEncode(sha, key);
    EncodedIsAscii(Payload(sha, key));
    Base32.DecodeEncode(Payload(sha, key));
    var decoded := Base32.Padded(Payload(sha, key));
    assert decoded[..KEY_LEN + CHECKSUM_LEN] == Payload(sha, key);
    assert decoded[..KEY_LEN] == key;
    assert decoded[KEY_LEN..KEY_LEN + CHECKSUM_LEN] == Checksum(sha, key);
  }

  // ---- Retyping ------------------------------------------------------------------

  /** The ways of retyping that must not matter. */
  datatype Edit = Insert(at: nat, c: char) | Remove(at: nat) | Recase(at: nat)

  predicate Allowed(s: string, e: Edit) {
    match e
    case Insert(at, c) => at <= |s| && IsSeparator(c)
    case Remove(at) => at < |s| && IsSeparator(s[at])
    case Recase(at) => at < |s| && (IsLower(s[at]) || IsUpper(s[at]))
  }

  function Apply(s: string, e: Edit): string
    requires Allowed(s, e)
  {
    match e
    case Insert(at, c) => s[..at] + [c] + s[at..]
    case Remove(at) => s[..at] + s[at + 1..]
    case Recase(at) => s[at := if IsLower(s[at]) then UpperChar(s[at]) else LowerChar(s[at])]
  }

  ghost predicate AllAllowed(s: string, edits: seq<Edit>)
    decreases |edits|
  {
    edits != [] ==> Allowed(s, edits[0]) && AllAllowed(Apply(s, edits[0]), edits[1..])
  }

  ghost function ApplyAll(s: string, edits: seq<Edit>): string
    requires AllAllowed(s, edits)
    decreases |edits|
  {
    if edits == [] then s else ApplyAll(Apply(s, edits[0]), edits[1..])
  }

  lemma CleanAt(s: string, at: nat, c: char)
    requires at <= |s|
    ensures Clean(s[..at] + [c] + s[at..]) == Clean(s[..at]) + Clean([c]) + Clean(s[at..])
    ensures Clean(s) == Clean(s[..at]) + Clean(s[at..])
  {
    hide Clean;
    CleanConcat(s[..at] + [c], s[at..]);
    CleanConcat(s[..at], [c]);
    CleanConcat(s[..at], s[at..]);
    assert s == s[..at] + s[at..];
  }

  lemma InsertIsInvisible(s: string, at: nat, c: char)
    requires at <= |s| && IsSeparator(c)
    ensures Clean(s[..at] + [c] + s[at..]) == Clean(s)
  {
    assert Clean([c]) == "";
    CleanAt(s, at, c);
    hide Clean;
    assert Clean(s[..at]) + "" == Clean(s[..at]);
  }

  lemma RecaseIsInvisible(s: string, at: nat, c: char, d: char)
    requires at <= |s| && UpperChar(c) == UpperChar(d) && !IsSeparator(c) && !IsSeparator(d)
    ensures Normal(s[..at] + [c] + s[at..]) == Normal(s[..at] + [d] + s[at..])
  {
    CleanAt(s, at, c);
    CleanAt(s, at, d);
    CleanNothing([c]);
    CleanNothing([d]);
    var before, after := Clean(s[..at]), Clean(s[at..]);
    hide Clean, IsSeparator;
    assert forall i | 0 <= i < |before| + 1 + |after| :: ToUpper(before + [c] + after)[i] == ToUpper(before + [d] + after)[i];
  }

  lemma EditIsInvisible(s: string, e: Edit)
    requires Allowed(s, e)
    ensures Normal(Apply(s, e)) == Normal(s)
  {
    hide Clean, ToUpper, IsWhitespace;
    if e.Insert? {
      InsertIsInvisible(s, e.at, e.c);
    } else {
      var at := e.at;
      var rest := s[..at] + s[at + 1..];
      assert rest[..at] == s[..at] && rest[at..] == s[at + 1..];
      assert s == rest[..at] + [s[at]] + rest[at..];
      if e.Remove? {
        InsertIsInvisible(rest, at, s[at]);
      } else {
        var c := Apply(s, e)[at];
        assert Apply(s, e) == rest[..at] + [c] + rest[at..];
        LettersAreNotSeparators(c);
        LettersAreNotSeparators(s[at]);
        RecaseIsInvisible(rest, at, s[at], c);
      }
    }
  }

  lemma LettersAreNotSeparators(c: char)
    requires IsLower(c) || IsUpper(c)
    ensures !IsSeparator(c)
  {
  }

  /** Decoding gives the same answer, success or error, however the string is regrouped and recased. */
  lemma {:induction false} RetypingIsInvisible(sha: seq<byte> -> Digest, s: string, edits: seq<Edit>)
    requires AllAllowed(s, edits)
    ensures Decode(sha, ApplyAll(s, edits)) == Decode(sha, s)
    decreases |edits|
  {
    if edits != [] {
      EditIsInvisible(s, edits[0]);
      RetypingIsInvisible(sha, Apply(s, edits[0]), edits[1..]);
    }
  }

  // ---- What is accepted, exactly ---------------------------------------------------

  /** `body` spells the canonical text `canon` up to the last seven characters and the two lowest
      bits of the one before them, where the padding is. */
  predicate Spells(body: seq<byte>, canon: seq<byte>)
    requires |canon| == BODY_LEN
  {
    && |body| == BODY_LEN
    && (forall i | 0 <= i < BODY_LEN :: Base32.ValueOf(body[i]).Some?)
    && body[..57] == canon[..57]
    && Base32.ValueOf(canon[57]).Some?
    && Base32.ValueOf(body[57]).value / 4 == Base32.ValueOf(canon[57]).value / 4
  }

  lemma {:induction false} EncodeConcat(a: seq<byte>, b: seq<byte>)
    requires |a| % 5 == 0
    ensures Base32.Encode(a + b) == Base32.Encode(a) + Base32.Encode(b)
    decreases |a|
  {
    if a == [] {
      assert a + b == b;
    } else {
      assert Base32.Head(a + b, 5) == a[..5] == Base32.Head(a, 5);
      assert Base32.Tail(a + b, 5) == a[5..] + b && Base32.Tail(a, 5) == a[5..];
      EncodeConcat(a[5..], b);
    }
  }

  lemma WholeBlocksNeedNoPadding(a: seq<byte>)
    requires |a| % 5 == 0
    ensures Base32.Padded(a) == a
  {
    assert Base32.DivCeil(|a|, 5) * 5 == |a|;
  }

  lemma EncodeInjective(a: seq<byte>, b: seq<byte>)
    requires |a| % 5 == 0 && |b| % 5 == 0 && Base32.Encode(a) == Base32.Encode(b)
    ensures a == b
  {
    hide Base32.Encode, Base32.Decode, Base32.Padded;
    Base32.DecodeEncode(a);
    Base32.DecodeEncode(b);
    WholeBlocksNeedNoPadding(a);
    WholeBlocksNeedNoPadding(b);
  }

  /** The first byte of a block is its first character and the upper three bits of the second. */
  lemma FirstByte(v: Base32.Digits)
    ensures Base32.BytesOfBits(Base32.BitsOfDigits(v))[0] == v[0] * 8 + v[1] / 4
  {
    var n := Base32.BitsOfDigits(v);
    var v0, v1 := v[0], v[1];
    var low := v[2] * 0x200_0000 + v[3] * 0x10_0000 + v[4] * 0x8000 + v[5] * 0x400 + v[6] * 0x20 + v[7];
    assert 0 <= low < 0x4000_0000;
    assert n == (v0 * 8 + v1 / 4) * 0x1_0000_0000 + (v1 % 4) * 0x4000_0000 + low;
    assert n / 0x1_0000_0000 == v0 * 8 + v1 / 4;
  }

  lemma OneBlock(a: seq<byte>) returns (x: nat, y: nat)
    requires |a| == 5
    ensures |Base32.Encode(a)| == 8 && x < 32 && y < 32
    ensures Base32.Encode(a)[0] == Base32.Symbol(x) && Base32.ValueOf(Base32.Encode(a)[0]) == Some(x)
    ensures Base32.ValueOf(Base32.Encode(a)[1]) == Some(y)
    ensures a[0] == x * 8 + y / 4
  {
    var v: Base32.Digits := Base32.DigitsOfBits(Base32.BitsOfBytes(a));
    hide Base32.DigitsOfBits, Base32.BitsOfBytes, Base32.BytesOfBits, Base32.BitsOfDigits, Base32.Symbol, Base32.Find;
    assert Base32.Pad(Base32.Head(a, 5), 5, 0) == a && Base32.Tail(a, 5) == [];
    assert Base32.Encode(a) == Base32.SymbolsOf(v) + Base32.Encode([]);
    Base32.EncodedBlock(a);
    FirstByte(v);
    x, y := v[0], v[1];
    Base32.SymbolValue(x);
    Base32.SymbolValue(y);
  }

  lemma SameFirstByte(a: seq<byte>, b: seq<byte>)
    requires |a| == 5 && |b| == 5
    ensures var s, t := Base32.Encode(a), Base32.Encode(b);
            && |s| == 8 && |t| == 8
            && Base32.ValueOf(s[1]).Some? && Base32.ValueOf(t[1]).Some?
            && (a[0] == b[0] <==> s[0] == t[0] && Base32.ValueOf(s[1]).value / 4 == Base32.ValueOf(t[1]).value / 4)
  {
    var x, y := OneBlock(a);
    var z, w := OneBlock(b);
    hide Base32.Encode, Base32.Symbol, Base32.Find, Base32.ValueOf;
    assert 0 <= y / 4 < 8 && 0 <= w / 4 < 8;
    assert x * 8 + y / 4 == z * 8 + w / 4 <==> x == z && y / 4 == w / 4;
  }

  lemma SplitText(a: seq<byte>)
    requires |a| == 40
    ensures var s := Base32.Encode(a);
            && |s| == BODY_LEN
            && s[..56] == Base32.Encode(a[..35]) && s[56..] == Base32.Encode(a[35..])
            && s[..57] == s[..56] + [s[56]]
  {
    hide Base32.Encode;
    EncodedIsAscii(a);
    EncodedIsAscii(a[..35]);
    EncodeConcat(a[..35], a[35..]);
    assert a == a[..35] + a[35..];
  }

  lemma SnocEqual<T>(a: seq<T>, x: T, b: seq<T>, y: T)
    ensures a + [x] == b + [y] <==> a == b && x == y
  {
    if a + [x] == b + [y] {
      assert (a + [x])[..|a|] == a && (b + [y])[..|b|] == b;
      assert (a + [x])[|a|] == x && (b + [y])[|b|] == y;
    }
  }

  /** Forty decoded bytes begin with a payload exactly when their text spells the payload's text. */
  lemma SpellsPayload(d: seq<byte>, p: seq<byte>)
    requires |d| == 40 && |p| == 36
    ensures |Base32.Encode(p)| == BODY_LEN
    ensures d[..36] == p <==> Spells(Base32.Encode(d), Base32.Encode(p))
  {
    hide Base32.Encode, Base32.Find;
    EncodedIsAscii(d);
    EncodedIsAscii(p);
    var q := Base32.Padded(p);
    assert q[..35] == p[..35] && q[35] == p[35];
    SameEncoding(p);
    SplitText(d);
    SplitText(q);
    var s, t := Base32.Encode(d), Base32.Encode(q);
    SameFirstByte(d[35..], q[35..]);
    SnocEqual(s[..56], s[56], t[..56], t[56]);
    if s[..56] == t[..56] {
      EncodeInjective(d[..35], q[..35]);
    }
    assert d[..36] == d[..35] + [d[35]] && p == p[..35] + [p[35]];
    SnocEqual(d[..35], d[35], p[..35], p[35]);
    assert s[56..][0] == s[56] && t[56..][0] == t[56] && s[56..][1] == s[57] && t[56..][1] == t[57];
  }

  /** The padding changes nothing in the text. */
  lemma SameEncoding(p: seq<byte>)
    ensures Base32.Encode(Base32.Padded(p)) == Base32.Encode(p)
  {
    EncodedIsAscii(p);
    hide Base32.Encode, Base32.Decode, Base32.Padded, InAlphabet;
    Base32.DecodeEncode(p);
    assert Base32.Base32Len(|p|) % 8 == 0;
    Base32.EncodeDecode(Base32.Encode(p));
  }

  /** A string decodes to a key exactly when, normalised, it is the prefix and a body that spells that
      key's own rendering. Whatever is mistyped outside the padding is refused or decodes to a
      different key whose checksum is embedded. */
  lemma AcceptsExactly(sha: seq<byte> -> Digest, input: string, key: RawKey)
    ensures |Base32.Encode(Payload(sha, key))| == BODY_LEN
    ensures Decode(sha, input) == Ok(key)
       <==> Body(Normal(input)).Some? && Spells(Body(Normal(input)).value, Base32.Encode(Payload(sha, key)))
  {
    var p := Payload(sha, key);
    EncodedIsAscii(p);
    if Body(Normal(input)).Some? && |Body(Normal(input)).value| == BODY_LEN {
      var body := Body(Normal(input)).value;
      Base32.DecodeAccepts(body);
      if Base32.Decode(body).Ok? {
        Base32.EncodeDecode(body);
        var d := Base32.Decode(body).value;
        SpellsPayload(d, p);
        assert d[..KEY_LEN] == d[..36][..KEY_LEN] && d[KEY_LEN..36] == d[..36][KEY_LEN..];
        assert p[..KEY_LEN] == key && p[KEY_LEN..] == Checksum(sha, key);
        assert d[..36] == d[..KEY_LEN] + d[KEY_LEN..36];
      }
    }
  }

  /** `i` is the place of the first character outside the alphabet. */
  ghost predicate FirstStranger(body: seq<byte>, i: nat) {
    i < |body| && Base32.ValueOf(body[i]).None? && forall j | 0 <= j < i :: Base32.ValueOf(body[j]).Some?
  }

  /** A text is told the first of its faults: a wrong prefix, a wrong length, the first stranger, or a
      checksum that does not belong to the key. */
  lemma RefusedExactly(sha: seq<byte> -> Digest, input: string, i: nat)
    ensures Decode(sha, input) == Err(BadPrefix) <==> !(PREFIX <= Normal(input))
    ensures PREFIX <= Normal(input) ==>
              var body := Utf8(Normal(input)[|PREFIX|..]);
              && (|body| != BODY_LEN ==> Decode(sha, input) == Err(BadLength(BODY_LEN, |body|)))
              && (|body| == BODY_LEN && FirstStranger(body, i) ==> Decode(sha, input) == Err(BadCharacter(body[i])))
              && (|body| == BODY_LEN && (forall j | 0 <= j < |body| :: Base32.ValueOf(body[j]).Some?) ==>
                    Decode(sha, input).Ok? || Decode(sha, input) == Err(BadChecksum))
  {
    hide Normal, Utf8, Base32.ValueOf, Base32.Decode, Base32.Encode, Checksum, FirstStranger;
    if PREFIX <= Normal(input) {
      var body := Utf8(Normal(input)[|PREFIX|..]);
      if |body| == BODY_LEN {
        DecodedBody(body, i);
      }
    }
  }

  lemma DecodedBody(body: seq<byte>, i: nat)
    requires |body| == BODY_LEN
    ensures FirstStranger(body, i) ==> Base32.Decode(body) == Err(Base32.BadCharacter(body[i]))
    ensures (forall j | 0 <= j < |body| :: Base32.ValueOf(body[j]).Some?) ==>
              Base32.Decode(body).Ok? && |Base32.Decode(body).value| == 40
  {
    hide Base32.Decode, Base32.Encode, Base32.ValueOf;
    Base32.DecodeAccepts(body);
    if Base32.Decode(body).Ok? {
      Base32.EncodeDecode(body);
    }
  }

  // ---- The rendering ------------------------------------------------------------------

  lemma {:induction false} GroupedAt(text: string, i: nat)
    requires |text| % 8 == 0 && text != ""
    ensures |Grouped(text)| == |text| / 8 * 9 - 1
    ensures i < |Grouped(text)| ==>
              i / 9 * 8 + i % 9 <= |text|
              && if i % 9 == 8 then Grouped(text)[i] == '-'
                 else i / 9 * 8 + i % 9 < |text| && Grouped(text)[i] == text[i / 9 * 8 + i % 9]
    decreases |text|
  {
    if |text| > 8 {
      if i < 9 {
        GroupedAt(text[8..], 0);
      } else {
        GroupedAt(text[8..], i - 9);
        assert (i - 9) / 9 == i / 9 - 1 && (i - 9) % 9 == i % 9;
      }
    }
  }

  lemma EncodedText(sha: seq<byte> -> Digest, key: RawKey) returns (text: string)
    ensures var body := Base32.Encode(Payload(sha, key));
            && |body| == BODY_LEN && |text| == BODY_LEN && (forall j | 0 <= j < BODY_LEN :: text[j] as int == body[j])
            && Encode(sha, key) == PREFIX + "-" + Grouped(text)
  {
    hide Base32.Encode, Payload, Grouped, Base32.ValueOf;
    EncodedIsAscii(Payload(sha, key));
    assert Base32.Base32Len(36) == BODY_LEN;
    text := AsText(Base32.Encode(Payload(sha, key)));
  }

  /** The key is written as the prefix and eight groups of eight symbols, each after a dash. */
  lemma RenderedInEights(sha: seq<byte> -> Digest, key: RawKey, i: nat)
    requires i < 72
    ensures var (s, body) := (Encode(sha, key), Base32.Encode(Payload(sha, key)));
            && |s| == 77 && |body| == BODY_LEN && s[..5] == PREFIX
            && (i % 9 == 0 ==> s[5 + i] == '-')
            && (i % 9 > 0 ==> i / 9 * 8 + i % 9 - 1 < BODY_LEN && s[5 + i] as int == body[i / 9 * 8 + i % 9 - 1])
  {
    hide Base32.Encode, Payload, Grouped, Encode;
    var text := EncodedText(sha, key);
    if i > 0 {
      GroupedAt(text, i - 1);
      assert Encode(sha, key)[5 + i] == Grouped(text)[i - 1];
      if i % 9 == 0 {
        assert (i - 1) % 9 == 8;
      } else {
        assert (i - 1) / 9 == i / 9 && (i - 1) % 9 == i % 9 - 1;
      }
    } else {
      GroupedAt(text, 0);
    }
  }

  /** The symbols carry the bits of the key, and after them the first bits of the domain-separated digest. */
  lemma RenderedBits(sha: seq<byte> -> Digest, key: RawKey, k: nat)
    requires k < 288
    ensures var body := Base32.Encode(Payload(sha, key));
            && k < 5 * |body| && (forall i | 0 <= i < |body| :: Base32.ValueOf(body[i]).Some?)
            && Base32.TextBit(body, k)
               == if k < 256 then Base32.ByteBit(key, k) else Base32.ByteBit(sha(DomainTag() + key), k - 256)
  {
    hide Base32.Encode, Base32.Shifted, Base32.ValueOf, DomainTag;
    Base32.BitsInOrder(Payload(sha, key), k);
    if k < 256 {
      assert Payload(sha, key)[k / 8] == key[k / 8];
    } else {
      assert Payload(sha, key)[k / 8] == sha(DomainTag() + key)[(k - 256) / 8];
    }
  }
}
