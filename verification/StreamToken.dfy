/**
Signed stream tokens: a fixed-template JSON text and a keyed digest of it, both
in base64url and joined by a dot. The digest is any function of key and text,
and so is the test for the decimals that denote a finite double.
*/
module StreamToken {
  import opened Decimal
  import opened Json
  import opened Pieces
  import opened Util
  import Base64Url
  import Utf8

  type I64 = n: int | -0x8000_0000_0000_0000 <= n < 0x8000_0000_0000_0000
  type U32 = n: int | 0 <= n < 0x1_0000_0000
  type Mac = (seq<Byte>, seq<Byte>) -> seq<Byte>
  type Finite = string -> bool

  datatype StreamKind = Live | Vod | Series | Catchup | Segment | Remux | Playlist | Recording

  function AsWire(k: StreamKind): string {
    match k
    case Live => "live"
    case Vod => "vod"
    case Series => "series"
    case Catchup => "catchup"
    case Segment => "segment"
    case Remux => "remux"
    case Playlist => "playlist"
    case Recording => "recording"
  }

  function FromWire(s: string): Option<StreamKind> {
    match s
    case "live" => Some(Live)
    case "vod" => Some(Vod)
    case "series" => Some(Series)
    case "catchup" => Some(Catchup)
    case "segment" => Some(Segment)
    case "remux" => Some(Remux)
    case "playlist" => Some(Playlist)
    case "recording" => Some(Recording)
    case _ => None
  }

  datatype StreamClaims = StreamClaims(
    exp: I64, iat: I64, jti: string, k: StreamKind, nbf: I64, rid: string, sub: string, v: U32)

  datatype TokenError = Malformed | BadBase64 | BadSignature | BadPayload | UnsupportedVersion | UnknownKind

  // --- signing ----------------------------------------------------------------------------

  /** What the canonical text says, in key order. */
  function Claimed(c: StreamClaims): (r: seq<Field>)
    ensures |r| == 8
  {
    [Field("exp", Num(c.exp)), Field("iat", Num(c.iat)), Field("jti", Str(c.jti)), Field("k", Str(AsWire(c.k))),
     Field("nbf", Num(c.nbf)), Field("rid", Str(c.rid)), Field("sub", Str(c.sub)), Field("v", Num(c.v))]
  }

  function CanonicalText(c: StreamClaims): string {
    Object(Claimed(c))
  }

  function Signed(mac: Mac, key: seq<Byte>, payload: seq<Byte>): string {
    Base64Url.Encode(payload) + "." + Base64Url.Encode(mac(key, payload))
  }

  /** A string its holder grows. */
  class Text {
    var content: string

    constructor ()
      ensures content == ""
    {
      content := "";
    }

    method PushStr(s: string)
      modifies this
      ensures content == old(content) + s
    {
      content := content + s;
    }
  }

  method PushEscaped(c: char, out: Text)
    modifies out
    ensures out.content == old(out.content) + EscapedChar(c)
  {
    match c {
      case '"' => out.PushStr("\\\"");
      case '\\' => out.PushStr("\\\\");
      case '\U{0008}' => out.PushStr("\\b");
      case '\U{0009}' => out.PushStr("\\t");
      case '\U{000A}' => out.PushStr("\\n");
      case '\U{000C}' => out.PushStr("\\f");
      case '\U{000D}' => out.PushStr("\\r");
      case _ =>
        if c as int < 0x20 {
          out.PushStr("\\u00" + [HexDigit(c as int / 16), HexDigit(c as int % 16)]);
        } else {
          out.PushStr([c]);
        }
    }
  }

  /** Appends `s`, quoted, character by character. */
  method JsonEscapeString(s: string, out: Text)
    modifies out
    ensures out.content == old(out.content) + Quoted(s)
  {
    out.PushStr("\"");
    ghost var start := out.content;
    for i := 0 to |s|
      invariant out.content == start + Escaped(s[..i])
    {
      PushEscaped(s[i], out);
      EscapedOfPrefix(s, i, start);
    }
    assert s[..|s|] == s;
    ghost var inside := out.content;
    out.PushStr("\"");
    CloseQuote(old(out.content), s, inside);
  }

  lemma {:induction false} CloseQuote(before: string, s: string, inside: string)
    requires inside == before + "\"" + Escaped(s)
    ensures inside + "\"" == before + Quoted(s)
  {
  }

  lemma {:induction false} EscapedOfPrefix(s: string, i: nat, start: string)
    requires i < |s|
    ensures start + Escaped(s[..i + 1]) == start + Escaped(s[..i]) + EscapedChar(s[i])
  {
    assert s[..i + 1] == s[..i] + [s[i]];
    EscapedOfNext(s[..i], s[i]);
    Assoc(start, Escaped(s[..i]), EscapedChar(s[i]));
  }

  lemma {:induction false} EscapedOfNext(s: string, c: char)
    ensures Escaped(s + [c]) == Escaped(s) + EscapedChar(c)
  {
    if s == "" {
      assert s + [c] == [c] && [c][1..] == "";
    } else {
      assert (s + [c])[1..] == s[1..] + [c];
      EscapedOfNext(s[1..], c);
    }
  }

  /** The fixed template, filled in from the left. */
  method CanonicalBytes(c: StreamClaims) returns (r: seq<Byte>)
    ensures r == Utf8.Encode(CanonicalText(c))
  {
    var s := new Text();
    s.PushStr("{\"exp\":");
    s.PushStr(Show(c.exp));
    s.PushStr(",\"iat\":");
    s.PushStr(Show(c.iat));
    ghost var start := s.content;
    s.PushStr(",\"jti\":");
    JsonEscapeString(c.jti, s);
    s.PushStr(",\"k\":");
    JsonEscapeString(AsWire(c.k), s);
    ghost var front := s.content;
    s.PushStr(",\"nbf\":");
    s.PushStr(Show(c.nbf));
    s.PushStr(",\"rid\":");
    JsonEscapeString(c.rid, s);
    ghost var middle := s.content;
    s.PushStr(",\"sub\":");
    JsonEscapeString(c.sub, s);
    s.PushStr(",\"v\":");
    s.PushStr(Show(c.v));
    TemplateStart(c, start);
    TemplateFront(c, start, front);
    TemplateMiddle(c, front, middle);
    TemplateBack(c, middle, s.content);
    s.PushStr("}");
    r := Utf8.Encode(s.content);
  }

  lemma {:induction false} TemplateStart(c: StreamClaims, start: string)
    requires start == "" + "{\"exp\":" + Show(c.exp) + ",\"iat\":" + Show(c.iat)
    ensures start == Filled(c, 2)
  {
    var one := "" + "{\"exp\":" + Show(c.exp);
    FirstEntry(c, one);
    NextEntry(c, 1, one, ",\"iat\":", start);
  }

  lemma {:induction false} TemplateFront(c: StreamClaims, start: string, front: string)
    requires start == Filled(c, 2)
    requires front == start + ",\"jti\":" + Quoted(c.jti) + ",\"k\":" + Quoted(AsWire(c.k))
    ensures front == Filled(c, 4)
  {
    var three := start + ",\"jti\":" + Quoted(c.jti);
    NextEntry(c, 2, start, ",\"jti\":", three);
    NextEntry(c, 3, three, ",\"k\":", front);
  }

  lemma {:induction false} TemplateMiddle(c: StreamClaims, front: string, middle: string)
    requires front == Filled(c, 4)
    requires middle == front + ",\"nbf\":" + Show(c.nbf) + ",\"rid\":" + Quoted(c.rid)
    ensures middle == Filled(c, 6)
  {
    var five := front + ",\"nbf\":" + Show(c.nbf);
    NextEntry(c, 4, front, ",\"nbf\":", five);
    NextEntry(c, 5, five, ",\"rid\":", middle);
  }

  lemma {:induction false} TemplateBack(c: StreamClaims, middle: string, all: string)
    requires middle == Filled(c, 6)
    requires all == middle + ",\"sub\":" + Quoted(c.sub) + ",\"v\":" + Show(c.v)
    ensures all + "}" == CanonicalText(c)
  {
    var seven := middle + ",\"sub\":" + Quoted(c.sub);
    NextEntry(c, 6, middle, ",\"sub\":", seven);
    NextEntry(c, 7, seven, ",\"v\":", all);
    WholeTemplate(c);
  }

  lemma {:induction false} WholeTemplate(c: StreamClaims)
    ensures Filled(c, 8) + "}" == CanonicalText(c)
  {
    assert Claimed(c)[..8] == Claimed(c);
  }

  /** The template so far, with `n` claims in it. */
  function Filled(c: StreamClaims, n: nat): string
    requires 0 < n <= 8
  {
    "{" + Entries(Claimed(c)[..n])
  }

  lemma {:induction false} FirstEntry(c: StreamClaims, s: string)
    requires s == "{\"exp\":" + Show(c.exp)
    ensures s == Filled(c, 1)
  {
    PlainKey("exp");
    assert Claimed(c)[..1] == [Field("exp", Num(c.exp))];
    assert s == "{" + ("\"exp\"" + ":" + Show(c.exp));
  }

  lemma {:induction false} NextEntry(c: StreamClaims, n: nat, before: string, lead: string, after: string)
    requires 0 < n < 8 && before == Filled(c, n)
    requires lead == ",\"" + Claimed(c)[n].key + "\":" && after == before + lead + Shown(Claimed(c)[n].value)
    ensures after == Filled(c, n + 1)
  {
    PlainKeys(c, n);
    Appended(Claimed(c)[..n], Claimed(c)[n]);
    NextFilled(Claimed(c), n);
  }

  lemma {:induction false} NextFilled(fields: seq<Field>, n: nat)
    requires n < |fields|
    ensures fields[..n + 1] == fields[..n] + [fields[n]]
  {
  }

  lemma {:induction false} PlainKeys(c: StreamClaims, n: nat)
    requires n < 8
    ensures var key := Claimed(c)[n].key; Quoted(key) == "\"" + key + "\""
  {
    PlainKey(Claimed(c)[n].key);
  }

  lemma {:induction false} EntriesOfNext(fields: seq<Field>, f: Field)
    requires fields != []
    ensures Entries(fields + [f]) == Entries(fields) + "," + Entry(f)
  {
    assert (fields + [f])[..|fields|] == fields;
  }

  lemma {:induction false} Appended(fields: seq<Field>, f: Field)
    requires fields != [] && Quoted(f.key) == "\"" + f.key + "\""
    ensures "{" + Entries(fields) + (",\"" + f.key + "\":") + Shown(f.value) == "{" + Entries(fields + [f])
  {
    EntriesOfNext(fields, f);
    LeadIn(f.key, Quoted(f.key));
    Relabel("{", Entries(fields), Quoted(f.key), Shown(f.value));
  }

  lemma {:induction false} LeadIn(key: string, quoted: string)
    requires quoted == "\"" + key + "\""
    ensures ",\"" + key + "\":" == "," + (quoted + ":")
  {
  }

  lemma {:induction false} Relabel(open: string, init: string, key: string, value: string)
    ensures open + init + ("," + (key + ":")) + value == open + (init + "," + (key + ":" + value))
  {
  }

  lemma {:induction false} PlainKey(s: string)
    requires forall i | 0 <= i < |s| :: 'a' <= s[i] <= 'z'
    ensures Quoted(s) == "\"" + s + "\""
  {
    Unescaped(s);
  }

  lemma {:induction false} Unescaped(s: string)
    requires forall i | 0 <= i < |s| :: 'a' <= s[i] <= 'z'
    ensures Escaped(s) == s
  {
    if s != "" {
      Unescaped(s[1..]);
      assert s == [s[0]] + s[1..];
    }
  }

  method Sign(mac: Mac, key: seq<Byte>, c: StreamClaims) returns (token: string)
    ensures token == Signed(mac, key, Utf8.Encode(CanonicalText(c)))
  {
    var canonical := CanonicalBytes(c);
    var sig := mac(key, canonical);
    token := Base64Url.Encode(canonical);
    token := token + ".";
    token := token + Base64Url.Encode(sig);
  }

  // --- verifying ---------------------------------------------------------------------------

  function SplitToken(token: string): Result<(seq<Byte>, seq<Byte>), TokenError> {
    var parts := Split(token, '.');
    if |parts| != 2 then Err(Malformed)
    else
      var payload, sig := Base64Url.Decode(parts[0]), Base64Url.Decode(parts[1]);
      if payload.None? || sig.None? then Err(BadBase64) else Ok((payload.value, sig.value))
  }

  function GetI64(obj: map<string, Value>, key: string): Result<I64, TokenError> {
    if key in obj && obj[key].Num? && -0x8000_0000_0000_0000 <= obj[key].n < 0x8000_0000_0000_0000
    then Ok(obj[key].n)
    else Err(BadPayload)
  }

  function GetStr(obj: map<string, Value>, key: string): Result<string, TokenError> {
    if key in obj && obj[key].Str? then Ok(obj[key].s) else Err(BadPayload)
  }

  /** The version must be an unsigned 64-bit number before it is compared. */
  function CheckVersion(obj: map<string, Value>): Option<TokenError> {
    if !("v" in obj && obj["v"].Num? && 0 <= obj["v"].n < 0x1_0000_0000_0000_0000) then Some(BadPayload)
    else if obj["v"].n != 1 then Some(UnsupportedVersion)
    else None
  }

  function GetKind(obj: map<string, Value>): Result<StreamKind, TokenError> {
    var s := GetStr(obj, "k");
    if s.Err? then Err(s.error)
    else
      var k := FromWire(s.value);
      if k.None? then Err(UnknownKind) else Ok(k.value)
  }

  function ParseClaims(obj: map<string, Value>): Result<StreamClaims, TokenError> {
    var version := CheckVersion(obj);
    if version.Some? then Err(version.value)
    else
      var k := GetKind(obj);
      if k.Err? then Err(k.error)
      else
        var exp, iat, nbf := GetI64(obj, "exp"), GetI64(obj, "iat"), GetI64(obj, "nbf");
        var jti, rid, sub := GetStr(obj, "jti"), GetStr(obj, "rid"), GetStr(obj, "sub");
        if exp.Err? || iat.Err? || jti.Err? || nbf.Err? || rid.Err? || sub.Err? then Err(BadPayload)
        else Ok(StreamClaims(exp.value, iat.value, jti.value, k.value, nbf.value, rid.value, sub.value, 1))
  }

  function ParseCanonical(payload: seq<Byte>, finite: Finite): Result<StreamClaims, TokenError> {
    var text := Utf8.Decode(payload);
    if text.None? then Err(BadPayload)
    else
      var obj := ReadObject(text.value, finite);
      if obj.None? then Err(BadPayload) else ParseClaims(obj.value)
  }

  function Verify(mac: Mac, finite: Finite, key: seq<Byte>, token: string): Result<StreamClaims, TokenError> {
    var parts := SplitToken(token);
    if parts.Err? then Err(parts.error)
    else if parts.value.1 != mac(key, parts.value.0) then Err(BadSignature)
    else ParseCanonical(parts.value.0, finite)
  }

  /** The claims, and whether only the fallback key fitted. */
  function VerifyDualKey(mac: Mac, finite: Finite, primary: seq<Byte>, fallback: seq<Byte>, token: string):
    Result<(StreamClaims, bool), TokenError>
  {
    var parts := SplitToken(token);
    if parts.Err? then Err(parts.error)
    else
      var primaryOk := parts.value.1 == mac(primary, parts.value.0);
      var fallbackOk := parts.value.1 == mac(fallback, parts.value.0);
      if !primaryOk && !fallbackOk then Err(BadSignature)
      else
        var claims := ParseCanonical(parts.value.0, finite);
        if claims.Err? then Err(claims.error) else Ok((claims.value, !primaryOk && fallbackOk))
  }

  // --- the envelope ------------------------------------------------------------------------

  /** A token splits into a payload and a signature in exactly one spelling. */
  lemma {:induction false} SplitIffJoined(token: string, payload: seq<Byte>, sig: seq<Byte>)
    ensures SplitToken(token) == Ok((payload, sig))
        <==> token == Base64Url.Encode(payload) + "." + Base64Url.Encode(sig)
  {
    var p, s := Base64Url.Encode(payload), Base64Url.Encode(sig);
    Base64Url.SpellHasNoDot(Base64Url.Pack(payload));
    Base64Url.SpellHasNoDot(Base64Url.Pack(sig));
    SplitOfJoin([p, s], '.');
    assert Join([p, s], '.') == p + "." + s by {
      assert [p, s][1..] == [s];
    }
    Base64Url.DecodeIffEncode(p, payload);
    Base64Url.DecodeIffEncode(s, sig);
    var parts := Split(token, '.');
    if SplitToken(token) == Ok((payload, sig)) {
      Base64Url.DecodeIffEncode(parts[0], payload);
      Base64Url.DecodeIffEncode(parts[1], sig);
      JoinOfSplit(token, '.');
      assert parts == [p, s];
    }
  }

  /** A token is accepted exactly when it is the signed form of a payload that parses. */
  lemma {:induction false} OnlySignedTokensVerify(mac: Mac, finite: Finite, key: seq<Byte>, token: string,
                                                  c: StreamClaims)
    ensures Verify(mac, finite, key, token) == Ok(c)
        <==> exists p: seq<Byte> :: ParseCanonical(p, finite) == Ok(c) && token == Signed(mac, key, p)
  {
    var parts := SplitToken(token);
    if Verify(mac, finite, key, token) == Ok(c) {
      var p := parts.value.0;
      SplitIffJoined(token, p, parts.value.1);
      assert ParseCanonical(p, finite) == Ok(c) && token == Signed(mac, key, p);
    }
    forall p: seq<Byte> | ParseCanonical(p, finite) == Ok(c) && token == Signed(mac, key, p)
      ensures Verify(mac, finite, key, token) == Ok(c)
    {
      SplitIffJoined(token, p, mac(key, p));
    }
  }

  /** No second token carries the same payload under the same key. */
  lemma {:induction false} TokensAreNotMalleable(mac: Mac, finite: Finite, key: seq<Byte>, a: string, b: string)
    requires Verify(mac, finite, key, a).Ok? && Verify(mac, finite, key, b).Ok?
    requires SplitToken(a).value.0 == SplitToken(b).value.0
    ensures a == b
  {
    var payload := SplitToken(a).value.0;
    SplitIffJoined(a, payload, mac(key, payload));
    SplitIffJoined(b, payload, mac(key, payload));
  }

  /** Two keys accept what either key accepts, and the flag says whether the primary key refused it. */
  lemma {:induction false} DualKeyIsEitherKey(mac: Mac, finite: Finite, primary: seq<Byte>, fallback: seq<Byte>,
                                              token: string, c: StreamClaims, usedFallback: bool)
    ensures VerifyDualKey(mac, finite, primary, fallback, token) == Ok((c, usedFallback))
        <==> if usedFallback
             then
               && Verify(mac, finite, primary, token) == Err(BadSignature)
               && Verify(mac, finite, fallback, token) == Ok(c)
             else Verify(mac, finite, primary, token) == Ok(c)
  {
    var parts := SplitToken(token);
    if parts.Ok? {
      var parsed := ParseCanonical(parts.value.0, finite);
      assert parsed != Err(BadSignature);
    }
  }

  // --- the payload ---------------------------------------------------------------------------

  lemma {:induction false} FromWireOfAsWire(k: StreamKind)
    ensures FromWire(AsWire(k)) == Some(k)
  {
  }

  lemma {:induction false} ReadingOfClaimed(c: StreamClaims)
    ensures var r := Reading(Claimed(c));
            && "exp" in r && r["exp"] == Num(c.exp) && "iat" in r && r["iat"] == Num(c.iat)
            && "jti" in r && r["jti"] == Str(c.jti) && "k" in r && r["k"] == Str(AsWire(c.k))
            && "nbf" in r && r["nbf"] == Num(c.nbf) && "rid" in r && r["rid"] == Str(c.rid)
            && "sub" in r && r["sub"] == Str(c.sub) && "v" in r && r["v"] == Num(c.v)
  {
    var f := Claimed(c);
    forall n | 0 <= n < 8 ensures f[n].key in Reading(f) && Reading(f)[f[n].key] == f[n].value {
      LastReading(f, n);
    }
    assert f[0] == Field("exp", Num(c.exp)) && f[1] == Field("iat", Num(c.iat)) && f[2] == Field("jti", Str(c.jti));
    assert f[3] == Field("k", Str(AsWire(c.k))) && f[4] == Field("nbf", Num(c.nbf));
    assert f[5] == Field("rid", Str(c.rid)) && f[6] == Field("sub", Str(c.sub)) && f[7] == Field("v", Num(c.v));
  }

  lemma {:induction false} LastReading(f: seq<Field>, n: nat)
    requires n < |f| && forall i | n < i < |f| :: f[i].key != f[n].key
    ensures f[n].key in Reading(f) && Reading(f)[f[n].key] == f[n].value
  {
    if n < |f| - 1 {
      LastReading(f[..|f| - 1], n);
    }
  }

  lemma {:induction false} ReadOfCanonical(c: StreamClaims, finite: Finite)
    ensures Utf8.Decode(Utf8.Encode(CanonicalText(c))) == Some(CanonicalText(c))
    ensures ReadObject(CanonicalText(c), finite) == Some(Reading(Claimed(c)))
  {
    Utf8.DecodeOfEncode(CanonicalText(c));
    ReadOfObject(Claimed(c), finite);
  }

  /** Different claims never share a canonical form, whatever their version. */
  lemma {:induction false} CanonicalBytesAreInjective(a: StreamClaims, b: StreamClaims)
    ensures Utf8.Encode(CanonicalText(a)) == Utf8.Encode(CanonicalText(b)) <==> a == b
  {
    if Utf8.Encode(CanonicalText(a)) == Utf8.Encode(CanonicalText(b)) {
      ReadOfCanonical(a, _ => true);
      ReadOfCanonical(b, _ => true);
      ReadingOfClaimed(a);
      ReadingOfClaimed(b);
      FromWireOfAsWire(a.k);
      FromWireOfAsWire(b.k);
    }
  }

  lemma {:induction false} ParseOfCanonical(c: StreamClaims, finite: Finite)
    ensures ParseCanonical(Utf8.Encode(CanonicalText(c)), finite) == if c.v == 1 then Ok(c) else Err(UnsupportedVersion)
  {
    ReadOfCanonical(c, finite);
    ReadingOfClaimed(c);
    FromWireOfAsWire(c.k);
  }

  /** What was signed is what verifies, for every string, kind and number; other versions are refused. */
  lemma {:induction false} VerifyUndoesSign(mac: Mac, finite: Finite, key: seq<Byte>, c: StreamClaims)
    ensures Verify(mac, finite, key, Signed(mac, key, Utf8.Encode(CanonicalText(c))))
         == if c.v == 1 then Ok(c) else Err(UnsupportedVersion)
  {
    var payload := Utf8.Encode(CanonicalText(c));
    SplitIffJoined(Signed(mac, key, payload), payload, mac(key, payload));
    ParseOfCanonical(c, finite);
  }

  /** A token signed under the old key still verifies, and is reported unless both keys agree on it. */
  lemma {:induction false} FallbackKeyVerifies(mac: Mac, finite: Finite, primary: seq<Byte>, fallback: seq<Byte>,
                                               c: StreamClaims)
    requires c.v == 1
    ensures var payload := Utf8.Encode(CanonicalText(c));
            VerifyDualKey(mac, finite, primary, fallback, Signed(mac, fallback, payload))
              == Ok((c, mac(primary, payload) != mac(fallback, payload)))
  {
    var payload := Utf8.Encode(CanonicalText(c));
    SplitIffJoined(Signed(mac, fallback, payload), payload, mac(fallback, payload));
    ParseOfCanonical(c, finite);
  }
}
