/** The cursor token of SearchService.java:507-546: length-prefixed modified UTF-8,
    big-endian integers, unpadded base64url (section 5 of RFC 4648) and a tag.

    The tag is any function of the raw bytes with 32-byte results. */
module SearchCodec {
  import opened Common

  /** A Java string is a sequence of UTF-16 units. */
  type Unit = x: int | 0 <= x < 65536

  type Text = seq<Unit>

  // ---- Big-endian integers ------------------------------------------------------------

  function Power(width: nat): (p: nat)
    ensures p > 0
  {
    if width == 0 then 1 else 256 * Power(width - 1)
  }

  function BigEndian(n: nat, width: nat): (bytes: seq<Byte>)
    ensures |bytes| == width
  {
    if width == 0 then [] else BigEndian(n / 256, width - 1) + [n % 256]
  }

  function FromBigEndian(bytes: seq<Byte>): nat {
    if bytes == [] then 0 else FromBigEndian(bytes[..|bytes| - 1]) * 256 + bytes[|bytes| - 1]
  }

  lemma {:induction false} BigEndianRoundTrip(n: nat, width: nat)
    requires n < Power(width)
    ensures FromBigEndian(BigEndian(n, width)) == n
  {
    if width > 0 {
      BigEndianRoundTrip(n / 256, width - 1);
      assert BigEndian(n, width)[..width - 1] == BigEndian(n / 256, width - 1);
    }
  }

  const LONG_SPAN := 0x1_0000_0000_0000_0000
  const INT_SPAN := 0x1_0000_0000

  /** Two's complement of a signed value that fits half of `span` on either side. */
  function Unsigned(x: int, span: nat): nat
    requires -(span as int) <= 2 * x < span
  {
    if x < 0 then x + span else x
  }

  function Signed(n: nat, span: nat): int {
    if 2 * n < span then n else n - span
  }

  lemma SignedUnsigned(x: int, span: nat)
    requires -(span as int) <= 2 * x < span
    ensures Unsigned(x, span) < span && Signed(Unsigned(x, span), span) == x
  {
  }

  lemma Spans()
    ensures Power(8) == LONG_SPAN && Power(4) == INT_SPAN
  {
    assert Power(4) == 256 * Power(3);
    assert Power(8) == 256 * Power(7);
  }

  // ---- Modified UTF-8 -------------------------------------------------------------------

  function EncodeUnit(u: Unit): seq<Byte> {
    if 1 <= u <= 0x7F then [u]
    else if u <= 0x7FF then [0xC0 + u / 64, 0x80 + u % 64]
    else [0xE0 + u / 4096, 0x80 + (u / 64) % 64, 0x80 + u % 64]
  }

  function EncodeText(s: Text): seq<Byte> {
    if s == [] then [] else EncodeUnit(s[0]) + EncodeText(s[1..])
  }

  predicate Continues(b: Byte) { 0x80 <= b <= 0xBF }

  function Two(a: int, b: int): Unit
    requires 0xC0 <= a <= 0xDF && 0x80 <= b <= 0xBF
  {
    (a - 0xC0) * 64 + (b - 0x80)
  }

  function Three(a: int, b: int, c: int): Unit
    requires 0xE0 <= a <= 0xEF && 0x80 <= b <= 0xBF && 0x80 <= c <= 0xBF
  {
    (a - 0xE0) * 4096 + (b - 0x80) * 64 + (c - 0x80)
  }

  /** `readUTF`, lenient as in Java: it also accepts forms that `writeUTF` never writes. */
  function DecodeText(bytes: seq<Byte>): Option<Text> {
    if bytes == [] then Some([])
    else
      var b := bytes[0];
      if b < 0x80 then Prepend(b, DecodeText(bytes[1..]))
      else if 0xC0 <= b <= 0xDF && |bytes| >= 2 && Continues(bytes[1]) then
        Prepend(Two(b, bytes[1]), DecodeText(bytes[2..]))
      else if 0xE0 <= b <= 0xEF && |bytes| >= 3 && Continues(bytes[1]) && Continues(bytes[2]) then
        Prepend(Three(b, bytes[1], bytes[2]), DecodeText(bytes[3..]))
      else None
  }

  function Prepend(u: Unit, rest: Option<Text>): Option<Text> {
    if rest.None? then None else Some([u] + rest.value)
  }

  lemma UnitDigits(u: Unit)
    ensures u == (u / 4096) * 4096 + ((u / 64) % 64) * 64 + u % 64
  {
    assert u / 4096 == (u / 64) / 64;
  }

  lemma UnitRoundTrip(u: Unit, rest: seq<Byte>)
    ensures DecodeText(EncodeUnit(u) + rest) == Prepend(u, DecodeText(rest))
  {
    UnitDigits(u);
    var head := EncodeUnit(u);
    assert (head + rest)[|head|..] == rest;
  }

  lemma {:induction false} TextRoundTrip(s: Text)
    ensures DecodeText(EncodeText(s)) == Some(s)
  {
    if s != [] {
      TextRoundTrip(s[1..]);
      UnitRoundTrip(s[0], EncodeText(s[1..]));
      assert s == [s[0]] + s[1..];
      hide DecodeText, EncodeUnit;
    }
  }

  predicate Ascii(s: Text) {
    forall i | 0 <= i < |s| :: 1 <= s[i] <= 0x7F
  }

  lemma {:induction false} AsciiLength(s: Text)
    requires Ascii(s)
    ensures |EncodeText(s)| == |s|
  {
    if s != [] { AsciiLength(s[1..]); }
  }

  /** `writeUTF`: None where it throws, beyond 65535 encoded bytes. */
  function WriteUtf(s: Text): Option<seq<Byte>> {
    var bytes := EncodeText(s);
    if |bytes| > 65535 then None else Some(BigEndian(|bytes|, 2) + bytes)
  }

  /** `readUTF` from the front of the input; the rest is left. */
  function ReadUtf(input: seq<Byte>): Option<(Text, seq<Byte>)> {
    if |input| < 2 then None
    else
      var n := FromBigEndian(input[..2]);
      if |input| < 2 + n then None
      else
        var text := DecodeText(input[2..2 + n]);
        if text.None? then None else Some((text.value, input[2 + n..]))
  }

  lemma ReadsWhatWasWritten(s: Text, rest: seq<Byte>)
    requires WriteUtf(s).Some?
    ensures ReadUtf(WriteUtf(s).value + rest) == Some((s, rest))
  {
    var bytes := EncodeText(s);
    var input := WriteUtf(s).value + rest;
    assert Power(2) == 65536 by { assert Power(1) == 256; }
    BigEndianRoundTrip(|bytes|, 2);
    assert input[..2] == BigEndian(|bytes|, 2);
    assert input[2..2 + |bytes|] == bytes && input[2 + |bytes|..] == rest;
    TextRoundTrip(s);
  }

  function ReadNumber(input: seq<Byte>, width: nat): Option<(nat, seq<Byte>)> {
    if |input| < width then None else Some((FromBigEndian(input[..width]), input[width..]))
  }

  lemma ReadsNumber(n: nat, width: nat, rest: seq<Byte>)
    requires n < Power(width)
    ensures ReadNumber(BigEndian(n, width) + rest, width) == Some((n, rest))
  {
    BigEndianRoundTrip(n, width);
    assert (BigEndian(n, width) + rest)[..width] == BigEndian(n, width);
    assert (BigEndian(n, width) + rest)[width..] == rest;
  }

  // ---- The cursor record ------------------------------------------------------------------

  type Long = x: int | -0x8000_0000_0000_0000 <= x < 0x8000_0000_0000_0000
  type Int = x: int | -0x8000_0000 <= x < 0x8000_0000

  datatype Cursor = Cursor(keyHash: Text, generation: Long, queryHash: Text, resultHash: Text, storeId: Text,
                           position: Int)

  /** The units of "libjadx-search-v1". */
  const CURSOR_DOMAIN: Text := [108, 105, 98, 106, 97, 100, 120, 45, 115, 101, 97, 114, 99, 104, 45, 118, 49]

  /** The raw bytes of a cursor; None where a string is too long to be written. */
  function Raw(domainName: Text, c: Cursor): Option<seq<Byte>> {
    var domain, key, query := WriteUtf(domainName), WriteUtf(c.keyHash), WriteUtf(c.queryHash);
    var result, store := WriteUtf(c.resultHash), WriteUtf(c.storeId);
    if domain.None? || key.None? || query.None? || result.None? || store.None? then None
    else Some(domain.value + (key.value + (BigEndian(Unsigned(c.generation, LONG_SPAN), 8)
              + (query.value + (result.value + (store.value + BigEndian(Unsigned(c.position, INT_SPAN), 4)))))))
  }

  function Parse(domainName: Text, raw: seq<Byte>): Option<Cursor> {
    var domain := ReadUtf(raw);
    if domain.None? || domain.value.0 != domainName then None
    else
      var key := ReadUtf(domain.value.1);
      if key.None? then None
      else
        var generation := ReadNumber(key.value.1, 8);
        if generation.None? || generation.value.0 >= LONG_SPAN then None
        else ParseRest(key.value.0, Signed(generation.value.0, LONG_SPAN), generation.value.1)
  }

  function ParseRest(key: Text, generation: Long, input: seq<Byte>): Option<Cursor> {
    var query := ReadUtf(input);
    if query.None? then None
    else
      var result := ReadUtf(query.value.1);
      if result.None? then None
      else
        var store := ReadUtf(result.value.1);
        if store.None? then None
        else
          var position := ReadNumber(store.value.1, 4);
          if position.None? || position.value.0 >= INT_SPAN || position.value.1 != [] then None
          else Some(Cursor(key, generation, query.value.0, result.value.0, store.value.0,
                           Signed(position.value.0, INT_SPAN)))
  }

  lemma ParsesRest(domainName: Text, c: Cursor)
    requires Raw(domainName, c).Some?
    ensures var query, result := WriteUtf(c.queryHash).value, WriteUtf(c.resultHash).value;
            var store := WriteUtf(c.storeId).value;
            ParseRest(c.keyHash, c.generation,
                      query + (result + (store + BigEndian(Unsigned(c.position, INT_SPAN), 4)))) == Some(c)
  {
    hide EncodeText, DecodeText, WriteUtf, ReadUtf, ReadNumber, BigEndian, FromBigEndian, Power, Signed, Unsigned;
    var n := Unsigned(c.position, INT_SPAN);
    var number := BigEndian(n, 4);
    Spans();
    SignedUnsigned(c.position, INT_SPAN);
    ReadsNumber(n, 4, []);
    assert number + [] == number;
    var store := WriteUtf(c.storeId).value + number;
    ReadsWhatWasWritten(c.storeId, number);
    ReadsWhatWasWritten(c.resultHash, store);
    ReadsWhatWasWritten(c.queryHash, WriteUtf(c.resultHash).value + store);
  }

  lemma RawRoundTrip(domainName: Text, c: Cursor)
    requires Raw(domainName, c).Some?
    ensures Parse(domainName, Raw(domainName, c).value) == Some(c)
  {
    ParsesRest(domainName, c);
    hide ParseRest, EncodeText, DecodeText, ReadUtf, WriteUtf, ReadNumber;
    hide BigEndian, FromBigEndian, Power, Signed, Unsigned;
    Spans();
    SignedUnsigned(c.generation, LONG_SPAN);
    var tail := WriteUtf(c.queryHash).value
                + (WriteUtf(c.resultHash).value
                   + (WriteUtf(c.storeId).value + BigEndian(Unsigned(c.position, INT_SPAN), 4)));
    var number := BigEndian(Unsigned(c.generation, LONG_SPAN), 8);
    ReadsNumber(Unsigned(c.generation, LONG_SPAN), 8, tail);
    ReadsWhatWasWritten(c.keyHash, number + tail);
    ReadsWhatWasWritten(domainName, WriteUtf(c.keyHash).value + (number + tail));
  }

  // ---- Base64url without padding ------------------------------------------------------------

  type Sextet = x: int | 0 <= x < 64

  function Symbol(v: Sextet): Unit {
    if v < 26 then 65 + v
    else if v < 52 then 97 + (v - 26)
    else if v < 62 then 48 + (v - 52)
    else if v == 62 then 45
    else 95
  }

  function Value(u: Unit): Option<Sextet> {
    if 65 <= u <= 90 then Some(u - 65)
    else if 97 <= u <= 122 then Some(u - 97 + 26)
    else if 48 <= u <= 57 then Some(u - 48 + 52)
    else if u == 45 then Some(62)
    else if u == 95 then Some(63)
    else None
  }

  lemma SymbolValue(v: Sextet)
    ensures Value(Symbol(v)) == Some(v) && Symbol(v) != PERIOD && Symbol(v) != PAD
  {
  }

  const PERIOD: Unit := 46
  const PAD: Unit := 61

  function ToBase64(bytes: seq<Byte>): Text {
    if |bytes| == 0 then []
    else if |bytes| == 1 then [Symbol(bytes[0] / 4), Symbol(bytes[0] % 4 * 16)]
    else if |bytes| == 2 then
      [Symbol(bytes[0] / 4), Symbol(bytes[0] % 4 * 16 + bytes[1] / 16), Symbol(bytes[1] % 16 * 4)]
    else
      [Symbol(bytes[0] / 4), Symbol(bytes[0] % 4 * 16 + bytes[1] / 16),
       Symbol(bytes[1] % 16 * 4 + bytes[2] / 64), Symbol(bytes[2] % 64)] + ToBase64(bytes[3..])
  }

  /** Java's URL decoder: padding is optional and left-over bits are ignored. */
  function FromBase64(s: Text): Option<seq<Byte>> {
    if |s| == 0 then Some([])
    else if |s| == 1 || Value(s[0]).None? || Value(s[1]).None? then None
    else
      var a, b := Value(s[0]).value, Value(s[1]).value;
      var first: Byte := a * 4 + b / 16;
      if |s| == 2 || s[2..] == [PAD, PAD] then Some([first])
      else if Value(s[2]).None? then None
      else
        var c := Value(s[2]).value;
        var second: Byte := b % 16 * 16 + c / 4;
        if |s| == 3 || s[3..] == [PAD] then Some([first, second])
        else if Value(s[3]).None? then None
        else
          var third: Byte := c % 4 * 64 + Value(s[3]).value;
          var rest := FromBase64(s[4..]);
          if rest.None? then None else Some([first, second, third] + rest.value)
  }

  lemma PairRoundTrip(a: Byte, b: Byte)
    ensures FromBase64(ToBase64([a, b])) == Some([a, b])
  {
    var x, y, z := a / 4, a % 4 * 16 + b / 16, b % 16 * 4;
    var s := [Symbol(x), Symbol(y), Symbol(z)];
    SymbolValue(x);
    SymbolValue(y);
    SymbolValue(z);
    assert s[2..] == [Symbol(z)] && s[3..] == [];
    assert ToBase64([a, b]) == s;
    assert x * 4 + y / 16 == a && y % 16 * 16 + z / 4 == b;
  }

  lemma SingleRoundTrip(a: Byte)
    ensures FromBase64(ToBase64([a])) == Some([a])
  {
    SymbolValue(a / 4);
    SymbolValue(a % 4 * 16);
    assert ToBase64([a]) == [Symbol(a / 4), Symbol(a % 4 * 16)];
  }

  lemma TripleBits(a: Byte, b: Byte, c: Byte)
    ensures var w, x, y, z := a / 4, a % 4 * 16 + b / 16, b % 16 * 4 + c / 64, c % 64;
            && w < 64 && x < 64 && y < 64
            && w * 4 + x / 16 == a && x % 16 * 16 + y / 4 == b && y % 4 * 64 + z == c
  {
  }

  /** Four symbols and whatever follows. */
  lemma FourDecode(s: Text)
    requires |s| >= 4 && Value(s[0]).Some? && Value(s[1]).Some? && Value(s[2]).Some? && Value(s[3]).Some?
    ensures var w, x, y, z := Value(s[0]).value, Value(s[1]).value, Value(s[2]).value, Value(s[3]).value;
            FromBase64(s) == if FromBase64(s[4..]).None? then None
                             else Some([w * 4 + x / 16, x % 16 * 16 + y / 4, y % 4 * 64 + z] + FromBase64(s[4..]).value)
  {
    assert s[2..][0] != PAD && s[3..][0] != PAD;
  }

  lemma TripleRoundTrip(w: Sextet, x: Sextet, y: Sextet, z: Sextet, rest: Text)
    ensures FromBase64([Symbol(w), Symbol(x), Symbol(y), Symbol(z)] + rest)
            == if FromBase64(rest).None? then None
               else Some([w * 4 + x / 16, x % 16 * 16 + y / 4, y % 4 * 64 + z] + FromBase64(rest).value)
  {
    var s := [Symbol(w), Symbol(x), Symbol(y), Symbol(z)] + rest;
    SymbolValue(w);
    SymbolValue(x);
    SymbolValue(y);
    SymbolValue(z);
    hide Symbol, Value, FromBase64;
    FourDecode(s);
    assert s[4..] == rest;
  }

  lemma TripleStep(a: Byte, b: Byte, c: Byte, rest: seq<Byte>)
    requires FromBase64(ToBase64(rest)) == Some(rest)
    ensures FromBase64(ToBase64([a, b, c] + rest)) == Some([a, b, c] + rest)
  {
    hide FromBase64, Symbol;
    TripleBits(a, b, c);
    TripleRoundTrip(a / 4, a % 4 * 16 + b / 16, b % 16 * 4 + c / 64, c % 64, ToBase64(rest));
    assert ([a, b, c] + rest)[3..] == rest;
  }

  lemma {:induction false} Base64RoundTrip(bytes: seq<Byte>)
    ensures FromBase64(ToBase64(bytes)) == Some(bytes)
  {
    if |bytes| == 1 {
      SingleRoundTrip(bytes[0]);
      assert bytes == [bytes[0]];
    } else if |bytes| == 2 {
      PairRoundTrip(bytes[0], bytes[1]);
      assert bytes == [bytes[0], bytes[1]];
    } else if |bytes| >= 3 {
      Base64RoundTrip(bytes[3..]);
      TripleStep(bytes[0], bytes[1], bytes[2], bytes[3..]);
      assert bytes == [bytes[0], bytes[1], bytes[2]] + bytes[3..];
    }
    hide FromBase64, Symbol;
  }

  lemma {:induction false} Base64Shape(bytes: seq<Byte>)
    ensures |ToBase64(bytes)| == (4 * |bytes| + 2) / 3 && PERIOD !in ToBase64(bytes)
  {
    if |bytes| >= 3 { Base64Shape(bytes[3..]); }
  }

  // ---- The token ----------------------------------------------------------------------------

  /** `token.split("\\.", -1)`. */
  function Split(s: Text): (parts: seq<Text>)
    ensures |parts| > 0
  {
    if s == [] then [[]]
    else if s[0] == PERIOD then [[]] + Split(s[1..])
    else
      var parts := Split(s[1..]);
      [[s[0]] + parts[0]] + parts[1..]
  }

  lemma {:induction false} SplitWhole(s: Text)
    requires PERIOD !in s
    ensures Split(s) == [s]
  {
    if s != [] {
      SplitWhole(s[1..]);
      assert s == [s[0]] + s[1..];
    }
  }

  lemma {:induction false} SplitPair(a: Text, b: Text)
    requires PERIOD !in a && PERIOD !in b
    ensures Split(a + [PERIOD] + b) == [a, b]
  {
    var s := a + [PERIOD] + b;
    if a == [] {
      SplitWhole(b);
      assert s[1..] == b;
    } else {
      SplitPair(a[1..], b);
      assert s[1..] == a[1..] + [PERIOD] + b;
      assert a == [a[0]] + a[1..];
    }
  }

  const MAX_TOKEN := 1024

  /** What a token depends on besides its cursor: the tag function and the domain name. */
  datatype Codec = Codec(mac: seq<Byte> -> seq<Byte>, domain: Text)

  ghost predicate IsMac(codec: Codec) {
    forall raw :: |codec.mac(raw)| == 32
  }

  function Encode(codec: Codec, c: Cursor): Option<Text> {
    var raw := Raw(codec.domain, c);
    if raw.None? then None else Some(ToBase64(raw.value) + [PERIOD] + ToBase64(codec.mac(raw.value)))
  }

  /** None stands for every way a token is refused. */
  function Authenticate(codec: Codec, token: Text): Option<Cursor> {
    if |token| > MAX_TOKEN then None
    else
      var parts := Split(token);
      if |parts| != 2 then None
      else
        var raw, signature := FromBase64(parts[0]), FromBase64(parts[1]);
        if raw.None? || signature.None? || |signature.value| != 32 || signature.value != codec.mac(raw.value) then None
        else Parse(codec.domain, raw.value)
  }

  /** Decoding inverts encoding for every cursor, exactly up to the limit on the token. */
  lemma TokenRoundTrip(codec: Codec, c: Cursor)
    requires IsMac(codec) && Encode(codec, c).Some?
    ensures Authenticate(codec, Encode(codec, c).value)
            == if |Encode(codec, c).value| <= 1024 then Some(c) else None
  {
    var raw := Raw(codec.domain, c).value;
    Base64Shape(raw);
    Base64Shape(codec.mac(raw));
    SplitPair(ToBase64(raw), ToBase64(codec.mac(raw)));
    Base64RoundTrip(raw);
    Base64RoundTrip(codec.mac(raw));
    RawRoundTrip(codec.domain, c);
  }

  /** Different cursors never share a token, whatever its length. */
  lemma EncodeIsInjective(codec: Codec, a: Cursor, b: Cursor)
    requires Encode(codec, a).Some? && Encode(codec, a) == Encode(codec, b)
    ensures a == b
  {
    var x, y := Raw(codec.domain, a).value, Raw(codec.domain, b).value;
    Base64Shape(x);
    Base64Shape(y);
    Base64Shape(codec.mac(x));
    Base64Shape(codec.mac(y));
    SplitPair(ToBase64(x), ToBase64(codec.mac(x)));
    SplitPair(ToBase64(y), ToBase64(codec.mac(y)));
    Base64RoundTrip(x);
    Base64RoundTrip(y);
    RawRoundTrip(codec.domain, a);
    RawRoundTrip(codec.domain, b);
  }

  /** A cursor as `page` builds it: three unpadded base64url SHA-256 hashes of 43 units
      and a textual UUID of 36. */
  predicate PageCursor(c: Cursor) {
    && |c.keyHash| == 43 && |c.queryHash| == 43 && |c.resultHash| == 43 && |c.storeId| == 36
    && Ascii(c.keyHash) && Ascii(c.queryHash) && Ascii(c.resultHash) && Ascii(c.storeId)
  }

  lemma WrittenLength(s: Text)
    requires Ascii(s) && |s| <= 65535
    ensures WriteUtf(s).Some? && |WriteUtf(s).value| == |s| + 2
  {
    AsciiLength(s);
  }

  lemma DomainLength()
    ensures WriteUtf(CURSOR_DOMAIN).Some? && |WriteUtf(CURSOR_DOMAIN).value| == 19
  {
    WrittenLength(CURSOR_DOMAIN);
  }

  lemma RawLength(domainName: Text, c: Cursor)
    requires WriteUtf(domainName).Some? && WriteUtf(c.keyHash).Some? && WriteUtf(c.queryHash).Some?
    requires WriteUtf(c.resultHash).Some? && WriteUtf(c.storeId).Some?
    ensures Raw(domainName, c).Some?
    ensures |Raw(domainName, c).value| == |WriteUtf(domainName).value| + |WriteUtf(c.keyHash).value| + 8
                              + |WriteUtf(c.queryHash).value| + |WriteUtf(c.resultHash).value|
                              + |WriteUtf(c.storeId).value| + 4
  {
    hide WriteUtf, Unsigned;
  }

  lemma PageRaw(c: Cursor)
    requires PageCursor(c)
    ensures Raw(CURSOR_DOMAIN, c).Some? && |Raw(CURSOR_DOMAIN, c).value| == 204
  {
    WrittenLength(c.keyHash);
    WrittenLength(c.queryHash);
    WrittenLength(c.resultHash);
    WrittenLength(c.storeId);
    hide WriteUtf, Raw, Ascii;
    DomainLength();
    RawLength(CURSOR_DOMAIN, c);
  }

  lemma TokenLength(codec: Codec, c: Cursor)
    requires IsMac(codec) && Raw(codec.domain, c).Some?
    ensures Encode(codec, c).Some? && |Encode(codec, c).value| == (4 * |Raw(codec.domain, c).value| + 2) / 3 + 1 + 43
  {
    hide Raw, ToBase64;
    Base64Shape(Raw(codec.domain, c).value);
    Base64Shape(codec.mac(Raw(codec.domain, c).value));
  }

  /** Every token that `page` hands out has 316 units, within the limit, so it can be
      redeemed. */
  lemma PageTokenFits(codec: Codec, c: Cursor)
    requires IsMac(codec) && codec.domain == CURSOR_DOMAIN && PageCursor(c)
    ensures Encode(codec, c).Some? && |Encode(codec, c).value| == 316
    ensures Authenticate(codec, Encode(codec, c).value) == Some(c)
  {
    hide Raw, Encode, Authenticate;
    PageRaw(c);
    TokenLength(codec, c);
    TokenRoundTrip(codec, c);
  }

  /** Among the payloads somebody can come up with, no other one has the tag of this
      cursor's payload. */
  ghost predicate OwnTag(codec: Codec, payloads: iset<seq<Byte>>, c: Cursor) {
    && Raw(codec.domain, c).Some?
    && forall raw | raw in payloads && codec.mac(raw) == codec.mac(Raw(codec.domain, c).value) ::
         raw == Raw(codec.domain, c).value
  }

  /** Whatever payload the token spells is one of these. */
  ghost predicate Spells(token: Text, payloads: iset<seq<Byte>>) {
    FromBase64(Split(token)[0]).Some? ==> FromBase64(Split(token)[0]).value in payloads
  }

  predicate CarriesTag(codec: Codec, token: Text, c: Cursor) {
    && Raw(codec.domain, c).Some? && |Split(token)| == 2
    && FromBase64(Split(token)[1]) == Some(codec.mac(Raw(codec.domain, c).value))
  }

  /** A token that carries the tag of a cursor's payload, in whatever spelling, is accepted
      exactly if it is within the limit and its first part spells that payload, and then
      as that cursor. */
  lemma TagFixesCursor(codec: Codec, payloads: iset<seq<Byte>>, c: Cursor, token: Text)
    requires IsMac(codec) && OwnTag(codec, payloads, c) && CarriesTag(codec, token, c) && Spells(token, payloads)
    ensures Authenticate(codec, token)
            == if |token| <= 1024 && FromBase64(Split(token)[0]) == Raw(codec.domain, c) then Some(c) else None
  {
    RawRoundTrip(codec.domain, c);
  }

  /** So a client that cannot compute tags, and has only those of issued cursors, gets only
      issued cursors accepted: leniency in decoding lets a token be respelled, never a
      cursor be made up. */
  lemma OnlyIssuedCursors(codec: Codec, payloads: iset<seq<Byte>>, issued: set<Cursor>, token: Text)
    requires IsMac(codec) && Spells(token, payloads) && forall c | c in issued :: OwnTag(codec, payloads, c)
    requires |Split(token)| == 2 && FromBase64(Split(token)[1]).Some? ==>
               exists c | c in issued :: CarriesTag(codec, token, c)
    ensures Authenticate(codec, token).Some? ==>
              && Authenticate(codec, token).value in issued
              && FromBase64(Split(token)[0]) == Raw(codec.domain, Authenticate(codec, token).value)
  {
    if Authenticate(codec, token).Some? {
      var c :| c in issued && CarriesTag(codec, token, c);
      TagFixesCursor(codec, payloads, c, token);
    }
  }
}
