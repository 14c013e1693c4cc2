/** Text of an event stream: strict UTF-8 (RFC 3629) and decimal event identities. */
module SseText {
  import opened Common

  const NEWLINE: Byte := 10

  function EncodeChar(c: char): (bytes: seq<Byte>)
    ensures |bytes| > 0
  {
    var n := c as int;
    if n < 0x80 then [n]
    else if n < 0x800 then [0xC0 + n / 64, 0x80 + n % 64]
    else if n < 0x10000 then [0xE0 + n / 4096, 0x80 + (n / 64) % 64, 0x80 + n % 64]
    else [0xF0 + n / 262144, 0x80 + (n / 4096) % 64, 0x80 + (n / 64) % 64, 0x80 + n % 64]
  }

  function Encode(s: string): seq<Byte> {
    if s == "" then [] else EncodeChar(s[0]) + Encode(s[1..])
  }

  predicate Continues(b: Byte) { 0x80 <= b <= 0xBF }

  predicate IsScalar(n: int) { 0 <= n < 0xD800 || 0xE000 <= n < 0x110000 }

  /** The scalar value at the front and its length, or None if the bytes are not UTF-8:
      truncated, overlong, a surrogate, or out of range. */
  function DecodeChar(bytes: seq<Byte>): (r: Option<(char, nat)>)
    ensures r.Some? ==> 0 < r.value.1 <= |bytes|
  {
    if bytes == [] then None
    else
      var b := bytes[0] as int;
      if b < 0x80 then Some((b as char, 1))
      else if 0xC2 <= b <= 0xDF && |bytes| >= 2 && Continues(bytes[1]) then
        Some((((b - 0xC0) * 64 + (bytes[1] - 0x80)) as char, 2))
      else if 0xE0 <= b <= 0xEF && |bytes| >= 3 && Continues(bytes[1]) && Continues(bytes[2]) then
        var n := (b - 0xE0) * 4096 + (bytes[1] as int - 0x80) * 64 + (bytes[2] - 0x80);
        if n >= 0x800 && IsScalar(n) then Some((n as char, 3)) else None
      else if 0xF0 <= b <= 0xF4 && |bytes| >= 4
              && Continues(bytes[1]) && Continues(bytes[2]) && Continues(bytes[3]) then
        var n := (b - 0xF0) * 262144 + (bytes[1] as int - 0x80) * 4096
                 + (bytes[2] as int - 0x80) * 64 + (bytes[3] - 0x80);
        if n >= 0x10000 && IsScalar(n) then Some((n as char, 4)) else None
      else None
  }

  function Decode(bytes: seq<Byte>): Option<string> {
    if bytes == [] then Some("")
    else
      var first := DecodeChar(bytes);
      if first.None? then None
      else
        var rest := Decode(bytes[first.value.1..]);
        if rest.None? then None else Some([first.value.0] + rest.value)
  }

  lemma Digits64(n: nat)
    ensures n == (n / 64) * 64 + n % 64 && n == (n / 4096) * 4096 + ((n / 64) % 64) * 64 + n % 64
    ensures n == (n / 262144) * 262144 + ((n / 4096) % 64) * 4096 + ((n / 64) % 64) * 64 + n % 64
  {
    assert n / 4096 == (n / 64) / 64;
    assert n / 262144 == (n / 4096) / 64;
  }

  lemma ShortRoundTrip(c: char, rest: seq<Byte>)
    requires c as int < 0x800
    ensures DecodeChar(EncodeChar(c) + rest) == Some((c, |EncodeChar(c)|))
  {
    Digits64(c as int);
  }

  lemma TripleRoundTrip(c: char, rest: seq<Byte>)
    requires 0x800 <= c as int < 0x10000
    ensures DecodeChar(EncodeChar(c) + rest) == Some((c, |EncodeChar(c)|))
  {
    Digits64(c as int);
    assert IsScalar(c as int);
  }

  lemma QuadRoundTrip(c: char, rest: seq<Byte>)
    requires 0x10000 <= c as int
    ensures DecodeChar(EncodeChar(c) + rest) == Some((c, |EncodeChar(c)|))
  {
    Digits64(c as int);
    assert IsScalar(c as int);
  }

  lemma CharRoundTrip(c: char, rest: seq<Byte>)
    ensures DecodeChar(EncodeChar(c) + rest) == Some((c, |EncodeChar(c)|))
  {
    hide EncodeChar, DecodeChar;
    if c as int < 0x800 {
      ShortRoundTrip(c, rest);
    } else if c as int < 0x10000 {
      TripleRoundTrip(c, rest);
    } else {
      QuadRoundTrip(c, rest);
    }
  }

  lemma {:induction false} EncodeRoundTrip(s: string)
    ensures Decode(Encode(s)) == Some(s)
  {
    if s != "" {
      var head, rest := EncodeChar(s[0]), Encode(s[1..]);
      CharRoundTrip(s[0], rest);
      EncodeRoundTrip(s[1..]);
      assert (head + rest)[|head|..] == rest;
      assert s == [s[0]] + s[1..];
      hide EncodeChar, DecodeChar;
    }
  }

  lemma Split64(a: nat, b: nat)
    requires b < 64
    ensures (a * 64 + b) / 64 == a && (a * 64 + b) % 64 == b
  {
  }

  lemma PairStrict(bytes: seq<Byte>)
    requires bytes != [] && 0x80 <= bytes[0] < 0xE0 && DecodeChar(bytes).Some?
    ensures var r := DecodeChar(bytes).value; EncodeChar(r.0) == bytes[..r.1]
  {
    Split64(bytes[0] - 0xC0, bytes[1] - 0x80);
  }

  lemma TripleStrict(bytes: seq<Byte>)
    requires bytes != [] && 0xE0 <= bytes[0] < 0xF0 && DecodeChar(bytes).Some?
    ensures var r := DecodeChar(bytes).value; EncodeChar(r.0) == bytes[..r.1]
  {
    var a: int, b: int, c: int := bytes[0] - 0xE0, bytes[1] - 0x80, bytes[2] - 0x80;
    var n := DecodeChar(bytes).value.0 as int;
    assert n == (a * 64 + b) * 64 + c;
    Split64(a * 64 + b, c);
    Split64(a, b);
    assert n / 4096 == (n / 64) / 64;
  }

  lemma QuadStrict(bytes: seq<Byte>)
    requires bytes != [] && 0xF0 <= bytes[0] && DecodeChar(bytes).Some?
    ensures var r := DecodeChar(bytes).value; EncodeChar(r.0) == bytes[..r.1]
  {
    var a: int, b: int, c: int, d: int := bytes[0] - 0xF0, bytes[1] - 0x80, bytes[2] - 0x80, bytes[3] - 0x80;
    var n := DecodeChar(bytes).value.0 as int;
    assert n == ((a * 64 + b) * 64 + c) * 64 + d;
    Split64((a * 64 + b) * 64 + c, d);
    Split64(a * 64 + b, c);
    Split64(a, b);
    assert n / 4096 == (n / 64) / 64 && n / 262144 == (n / 4096) / 64;
  }

  lemma CharStrict(bytes: seq<Byte>)
    requires DecodeChar(bytes).Some?
    ensures var r := DecodeChar(bytes).value; EncodeChar(r.0) == bytes[..r.1]
  {
    if bytes[0] >= 0xF0 {
      QuadStrict(bytes);
    } else if bytes[0] >= 0xE0 {
      TripleStrict(bytes);
    } else if bytes[0] >= 0x80 {
      PairStrict(bytes);
    }
  }

  /** Decoding is strict: it accepts nothing but encodings. */
  lemma {:induction false} DecodeIsStrict(bytes: seq<Byte>)
    ensures Decode(bytes).Some? ==> Encode(Decode(bytes).value) == bytes
  {
    hide EncodeChar, DecodeChar;
    if bytes != [] && Decode(bytes).Some? {
      var n := DecodeChar(bytes).value.1;
      CharStrict(bytes);
      DecodeIsStrict(bytes[n..]);
      assert bytes == bytes[..n] + bytes[n..];
    }
  }

  lemma {:induction false} EncodeConcat(a: string, b: string)
    ensures Encode(a + b) == Encode(a) + Encode(b)
  {
    hide EncodeChar;
    if a == "" {
      assert a + b == b;
    } else {
      EncodeConcat(a[1..], b);
      assert (a + b)[1..] == a[1..] + b;
      assert EncodeChar(a[0]) + (Encode(a[1..]) + Encode(b)) == EncodeChar(a[0]) + Encode(a[1..]) + Encode(b);
    }
  }

  lemma {:induction false} NoNewline(s: string)
    requires '\n' !in s
    ensures NEWLINE !in Encode(s)
  {
    if s != "" {
      NoNewline(s[1..]);
      assert s[0] != '\n';
      assert NEWLINE !in EncodeChar(s[0]) by { NoNewlineIn(s[0]); }
    }
  }

  lemma NoNewlineIn(c: char)
    requires c != '\n'
    ensures NEWLINE !in EncodeChar(c)
  {
  }

  // ---- Decimal numbers -----------------------------------------------------------------

  predicate IsDigit(c: char) { '0' <= c <= '9' }

  predicate IsDecimal(s: string) {
    s != "" && forall i | 0 <= i < |s| :: IsDigit(s[i])
  }

  function Decimal(n: nat): (s: string)
    ensures IsDecimal(s)
  {
    if n < 10 then [('0' as int + n) as char] else Decimal(n / 10) + [('0' as int + n % 10) as char]
  }

  function ParseDecimal(s: string): nat
    requires forall i | 0 <= i < |s| :: IsDigit(s[i])
  {
    if s == "" then 0
    else
      assert IsDigit(s[|s| - 1]);
      ParseDecimal(s[..|s| - 1]) * 10 + (s[|s| - 1] as int - '0' as int)
  }

  lemma {:induction false} DecimalRoundTrip(n: nat)
    ensures ParseDecimal(Decimal(n)) == n
  {
    if n < 10 {
      assert Decimal(n)[..0] == "";
    } else {
      DecimalRoundTrip(n / 10);
      assert Decimal(n)[..|Decimal(n)| - 1] == Decimal(n / 10);
    }
  }
}
