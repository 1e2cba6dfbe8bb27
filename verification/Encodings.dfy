/** UTF-8, as strict as Rust's `str::from_utf8`. */
module Utf8 {
  import opened Util

  /** The byte that carries the six low bits of `n`. */
  function Low(n: nat): (b: Byte)
    ensures Follows(b)
  {
    0x80 + n % 0x40
  }

  predicate Follows(b: Byte) {
    0x80 <= b < 0xC0
  }

  /** The number read so far, six bits further on. */
  function More(n: nat, b: Byte): nat
    requires Follows(b)
  {
    n * 0x40 + (b - 0x80)
  }

  lemma {:induction false} MoreIffLow(n: nat, high: nat, b: Byte)
    requires Follows(b)
    ensures More(high, b) == n <==> high == n / 0x40 && b == Low(n)
  {
  }

  function Encoded(c: char): (r: seq<Byte>)
    ensures |r| == Width(c as int)
  {
    var n := c as int;
    if n < 0x80 then [n]
    else if n < 0x800 then [0xC0 + n / 0x40, Low(n)]
    else if n < 0x1_0000 then [0xE0 + n / 0x40 / 0x40, Low(n / 0x40), Low(n)]
    else [0xF0 + n / 0x40 / 0x40 / 0x40, Low(n / 0x40 / 0x40), Low(n / 0x40), Low(n)]
  }

  function Encode(s: string): seq<Byte> {
    if s == "" then [] else Encoded(s[0]) + Encode(s[1..])
  }

  /** The shortest spelling is the only one allowed. */
  function Width(n: nat): (w: nat)
    ensures 1 <= w <= 4
  {
    if n < 0x80 then 1 else if n < 0x800 then 2 else if n < 0x1_0000 then 3 else 4
  }

  predicate Scalar(n: nat) {
    n < 0xD800 || 0xE000 <= n < 0x11_0000
  }

  /** The code point at the front of `b` and the bytes it takes, however long its spelling. */
  function CodePoint(b: seq<Byte>): (r: Option<(nat, nat)>)
    ensures r.Some? ==> 0 < r.value.1 <= |b|
  {
    if b == [] then None
    else if b[0] < 0x80 then Some((b[0], 1))
    else if 0xC0 <= b[0] < 0xE0 && |b| >= 2 && Follows(b[1]) then Some((More(b[0] - 0xC0, b[1]), 2))
    else if 0xE0 <= b[0] < 0xF0 && |b| >= 3 && Follows(b[1]) && Follows(b[2]) then
      Some((More(More(b[0] - 0xE0, b[1]), b[2]), 3))
    else if 0xF0 <= b[0] < 0xF8 && |b| >= 4 && Follows(b[1]) && Follows(b[2]) && Follows(b[3]) then
      Some((More(More(More(b[0] - 0xF0, b[1]), b[2]), b[3]), 4))
    else None
  }

  /** The character at the front of `b` and the bytes it takes. */
  function DecodeFirst(b: seq<Byte>): (r: Option<(char, nat)>)
    ensures r.Some? ==> 0 < r.value.1 <= |b|
  {
    var p := CodePoint(b);
    if p.Some? && Scalar(p.value.0) && p.value.1 == Width(p.value.0) then Some((p.value.0 as char, p.value.1))
    else None
  }

  function Decode(b: seq<Byte>): Option<string> {
    if b == [] then Some("")
    else
      var first := DecodeFirst(b);
      if first.None? then None
      else
        var rest := Decode(b[first.value.1..]);
        if rest.None? then None else Some([first.value.0] + rest.value)
  }

  lemma {:induction false} FirstOfEncoded(c: char, rest: seq<Byte>)
    ensures DecodeFirst(Encoded(c) + rest) == Some((c, |Encoded(c)|))
  {
    var n := c as int;
    MoreIffLow(n, n / 0x40, Low(n));
    MoreIffLow(n / 0x40, n / 0x40 / 0x40, Low(n / 0x40));
    MoreIffLow(n / 0x40 / 0x40, n / 0x40 / 0x40 / 0x40, Low(n / 0x40 / 0x40));
  }

  lemma {:induction false} EncodedOfFirst(b: seq<Byte>)
    requires DecodeFirst(b).Some?
    ensures var (c, width) := DecodeFirst(b).value; Encoded(c) == b[..width]
  {
    var (n, width) := CodePoint(b).value;
    if width == 2 {
      MoreIffLow(n, b[0] - 0xC0, b[1]);
      assert b[..width] == [b[0], b[1]];
    } else if width == 3 {
      MoreIffLow(n, n / 0x40, b[2]);
      MoreIffLow(n / 0x40, b[0] - 0xE0, b[1]);
      assert b[..width] == [b[0], b[1], b[2]];
    } else if width == 4 {
      MoreIffLow(n, n / 0x40, b[3]);
      MoreIffLow(n / 0x40, n / 0x40 / 0x40, b[2]);
      MoreIffLow(n / 0x40 / 0x40, b[0] - 0xF0, b[1]);
      assert b[..width] == [b[0], b[1], b[2], b[3]];
    }
  }

  lemma {:induction false} DecodeOfEncode(s: string)
    ensures Decode(Encode(s)) == Some(s)
  {
    if s != "" {
      var e := Encoded(s[0]);
      FirstOfEncoded(s[0], Encode(s[1..]));
      DecodeOfEncode(s[1..]);
      assert (e + Encode(s[1..]))[|e|..] == Encode(s[1..]);
      assert s == [s[0]] + s[1..];
    }
  }

  lemma {:induction false} EncodeOfNext(c: char, s: string)
    ensures Encode([c] + s) == Encoded(c) + Encode(s)
  {
    assert ([c] + s)[1..] == s;
  }

  lemma {:induction false} EncodeOfDecode(b: seq<Byte>)
    requires Decode(b).Some?
    ensures Encode(Decode(b).value) == b
  {
    if b != [] {
      EncodedOfFirst(b);
      var (c, width) := DecodeFirst(b).value;
      var rest := Decode(b[width..]).value;
      EncodeOfDecode(b[width..]);
      EncodeOfNext(c, rest);
      assert b == b[..width] + b[width..];
    }
  }
}

/** Section 5 of RFC 4648, without padding and without stray low bits. */
module Base64Url {
  import opened Util

  type Sextet = n: int | 0 <= n < 64

  // --- bytes as sextets -----------------------------------------------------------------

  function Sextets(a: Byte, b: Byte, c: Byte): (Sextet, Sextet, Sextet, Sextet) {
    (a / 4, a % 4 * 16 + b / 16, b % 16 * 4 + c / 64, c % 64)
  }

  function Bytes(p: Sextet, q: Sextet, r: Sextet, s: Sextet): (Byte, Byte, Byte) {
    (p * 4 + q / 16, q % 16 * 16 + r / 4, r % 4 * 64 + s)
  }

  lemma {:induction false} BytesOfSextets(a: Byte, b: Byte, c: Byte)
    ensures var (p, q, r, s) := Sextets(a, b, c); Bytes(p, q, r, s) == (a, b, c)
  {
  }

  lemma {:induction false} SextetsOfBytes(p: Sextet, q: Sextet, r: Sextet, s: Sextet)
    ensures var (a, b, c) := Bytes(p, q, r, s); Sextets(a, b, c) == (p, q, r, s)
  {
    var (a, b, c) := Bytes(p, q, r, s);
    assert a / 4 == p && a % 4 == q / 16;
    assert b / 16 == q % 16 && b % 16 == r / 4;
    assert c / 64 == r % 4 && c % 64 == s;
  }

  /** Missing bytes of the last group read as zero, and their sextets are not sent. */
  function Pack(b: seq<Byte>): seq<Sextet> {
    if |b| == 0 then []
    else if |b| == 1 then
      var (p, q, _, _) := Sextets(b[0], 0, 0);
      [p, q]
    else if |b| == 2 then
      var (p, q, r, _) := Sextets(b[0], b[1], 0);
      [p, q, r]
    else
      var (p, q, r, s) := Sextets(b[0], b[1], b[2]);
      [p, q, r, s] + Pack(b[3..])
  }

  /** A lone sextet, or low bits that belong to no byte, are refused. */
  function Unpack(x: seq<Sextet>): Option<seq<Byte>> {
    if |x| == 0 then Some([])
    else if |x| == 1 then None
    else if |x| == 2 then
      var (a, b, _) := Bytes(x[0], x[1], 0, 0);
      if b == 0 then Some([a]) else None
    else if |x| == 3 then
      var (a, b, c) := Bytes(x[0], x[1], x[2], 0);
      if c == 0 then Some([a, b]) else None
    else
      var (a, b, c) := Bytes(x[0], x[1], x[2], x[3]);
      var rest := Unpack(x[4..]);
      if rest.None? then None else Some([a, b, c] + rest.value)
  }

  lemma {:induction false} UnpackOfPack(b: seq<Byte>)
    ensures Unpack(Pack(b)) == Some(b)
  {
    if |b| == 0 {
      assert b == [];
    } else if |b| == 1 {
      BytesOfSextets(b[0], 0, 0);
      assert b == [b[0]];
    } else if |b| == 2 {
      BytesOfSextets(b[0], b[1], 0);
      assert b == [b[0], b[1]];
    } else if |b| >= 3 {
      BytesOfSextets(b[0], b[1], b[2]);
      UnpackOfPack(b[3..]);
      assert Pack(b)[4..] == Pack(b[3..]);
      assert b == [b[0], b[1], b[2]] + b[3..];
    }
  }

  lemma {:induction false} PackOfUnpack(x: seq<Sextet>)
    requires Unpack(x).Some?
    ensures Pack(Unpack(x).value) == x
  {
    if |x| == 2 {
      SextetsOfBytes(x[0], x[1], 0, 0);
    } else if |x| == 3 {
      SextetsOfBytes(x[0], x[1], x[2], 0);
    } else if |x| >= 4 {
      SextetsOfBytes(x[0], x[1], x[2], x[3]);
      PackOfUnpack(x[4..]);
      assert Unpack(x).value[3..] == Unpack(x[4..]).value;
      assert x == [x[0], x[1], x[2], x[3]] + x[4..];
    }
  }

  // --- sextets as letters -----------------------------------------------------------------

  predicate InAlphabet(c: char) {
    'A' <= c <= 'Z' || 'a' <= c <= 'z' || '0' <= c <= '9' || c == '-' || c == '_'
  }

  function Letter(n: Sextet): (c: char)
    ensures InAlphabet(c) && Value(c) == n
  {
    if n < 26 then ('A' as int + n) as char
    else if n < 52 then ('a' as int + (n - 26)) as char
    else if n < 62 then ('0' as int + (n - 52)) as char
    else if n == 62 then '-'
    else '_'
  }

  function Value(c: char): Sextet
    requires InAlphabet(c)
  {
    if 'A' <= c <= 'Z' then c as int - 'A' as int
    else if 'a' <= c <= 'z' then c as int - 'a' as int + 26
    else if '0' <= c <= '9' then c as int - '0' as int + 52
    else if c == '-' then 62
    else 63
  }

  function Spell(x: seq<Sextet>): string {
    if x == [] then "" else [Letter(x[0])] + Spell(x[1..])
  }

  function Values(s: string): Option<seq<Sextet>> {
    if s == "" then Some([])
    else if !InAlphabet(s[0]) then None
    else
      var rest := Values(s[1..]);
      if rest.None? then None else Some([Value(s[0])] + rest.value)
  }

  lemma {:induction false} LetterOfValue(c: char)
    requires InAlphabet(c)
    ensures Letter(Value(c)) == c
  {
  }

  lemma {:induction false} ValuesOfSpell(x: seq<Sextet>)
    ensures Values(Spell(x)) == Some(x)
  {
    if x == [] {
      assert Values("") == Some(x);
    } else {
      ValuesOfSpell(x[1..]);
      assert Spell(x)[1..] == Spell(x[1..]);
      assert x == [x[0]] + x[1..];
    }
  }

  lemma {:induction false} SpellOfValues(s: string)
    requires Values(s).Some?
    ensures Spell(Values(s).value) == s
  {
    if s != "" {
      LetterOfValue(s[0]);
      SpellOfValues(s[1..]);
      assert Values(s).value[1..] == Values(s[1..]).value;
    }
  }

  // --- both -------------------------------------------------------------------------------------

  function Encode(b: seq<Byte>): string {
    Spell(Pack(b))
  }

  function Decode(s: string): Option<seq<Byte>> {
    var x := Values(s);
    if x.None? then None else Unpack(x.value)
  }

  /** One spelling for every byte string, and no other text is accepted. */
  lemma {:induction false} DecodeIffEncode(s: string, b: seq<Byte>)
    ensures Decode(s) == Some(b) <==> s == Encode(b)
  {
    UnpackOfPack(b);
    ValuesOfSpell(Pack(b));
    if Decode(s) == Some(b) {
      SpellOfValues(s);
      PackOfUnpack(Values(s).value);
    }
  }

  /** A dot never appears in an encoding, so it can separate two of them. */
  lemma {:induction false} SpellHasNoDot(x: seq<Sextet>)
    ensures '.' !in Spell(x)
  {
    if x != [] {
      SpellHasNoDot(x[1..]);
    }
  }
}
