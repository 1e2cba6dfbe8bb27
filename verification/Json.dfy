/**
JSON objects: the printer escapes as section 7 of RFC 8259 asks, and the reader
accepts what serde_json accepts. Whether the double a number denotes is finite
is a parameter of the reader.
*/
module Json {
  import opened Decimal
  import opened Util

  /** A string, an integer of 64 bits, or anything else, which nobody looks into. */
  datatype Value = Str(s: string) | Num(n: int) | Other

  /** How deep serde_json follows arrays and objects. */
  const DEPTH: nat := 128

  // --- printing ------------------------------------------------------------------------

  function HexDigit(n: nat): (c: char)
    requires n < 16
  {
    if n < 10 then DigitChar(n) else ('a' as int + (n - 10)) as char
  }

  function EscapedChar(c: char): (r: string)
    ensures r != "" && r[0] != '"'
  {
    match c
    case '"' => "\\\""
    case '\\' => "\\\\"
    case '\U{0008}' => "\\b"
    case '\t' => "\\t"
    case '\n' => "\\n"
    case '\U{000C}' => "\\f"
    case '\r' => "\\r"
    case _ =>
      if c < ' ' then "\\u00" + [HexDigit(c as int / 16), HexDigit(c as int % 16)] else [c]
  }

  function Escaped(s: string): string {
    if s == "" then "" else EscapedChar(s[0]) + Escaped(s[1..])
  }

  function Quoted(s: string): string {
    "\"" + Escaped(s) + "\""
  }

  function Shown(v: Value): string {
    match v
    case Str(s) => Quoted(s)
    case Num(n) => Show(n)
    case Other => "null"
  }

  datatype Field = Field(key: string, value: Value)

  function Entry(f: Field): string {
    Quoted(f.key) + ":" + Shown(f.value)
  }

  function Entries(fields: seq<Field>): string
    requires fields != []
  {
    var last := fields[|fields| - 1];
    if |fields| == 1 then Entry(last) else Entries(fields[..|fields| - 1]) + "," + Entry(last)
  }

  function Object(fields: seq<Field>): string
    requires fields != []
  {
    "{" + Entries(fields) + "}"
  }

  /** What an object says: the last entry of a key wins. */
  function Reading(fields: seq<Field>): map<string, Value> {
    if fields == [] then map[]
    else
      var last := fields[|fields| - 1];
      Reading(fields[..|fields| - 1])[last.key := last.value]
  }

  // --- reading strings ---------------------------------------------------------------------

  function HexValue(c: char): Option<nat> {
    if '0' <= c <= '9' then Some(c as int - '0' as int)
    else if 'a' <= c <= 'f' then Some(c as int - 'a' as int + 10)
    else if 'A' <= c <= 'F' then Some(c as int - 'A' as int + 10)
    else None
  }

  function Hex4(s: string, at: nat): (r: Option<nat>)
    ensures r.Some? ==> at + 4 <= |s| && r.value < 0x1_0000
  {
    if |s| < at + 4 then None
    else
      var a, b, c, d := HexValue(s[at]), HexValue(s[at + 1]), HexValue(s[at + 2]), HexValue(s[at + 3]);
      if a.None? || b.None? || c.None? || d.None? then None
      else Some(a.value * 0x1000 + b.value * 0x100 + c.value * 0x10 + d.value)
  }

  predicate HighSurrogate(n: nat) {
    0xD800 <= n < 0xDC00
  }

  predicate LowSurrogate(n: nat) {
    0xDC00 <= n < 0xE000
  }

  /** A `\u` escape, or two of them spelling one character. */
  function UnicodeEscape(s: string): (r: Option<(char, nat)>)
    ensures r.Some? ==> 0 < r.value.1 <= |s|
  {
    var n := Hex4(s, 2);
    if n.None? || LowSurrogate(n.value) then None
    else if !HighSurrogate(n.value) then Some((n.value as char, 6))
    else
      var m := Hex4(s, 8);
      if m.None? || s[6] != '\\' || s[7] != 'u' || !LowSurrogate(m.value) then None
      else Some(((0x1_0000 + (n.value - 0xD800) * 0x400 + (m.value - 0xDC00)) as char, 12))
  }

  function ShortEscape(c: char): Option<char> {
    match c
    case '"' => Some('"')
    case '\\' => Some('\\')
    case '/' => Some('/')
    case 'b' => Some('\U{0008}')
    case 'f' => Some('\U{000C}')
    case 'n' => Some('\n')
    case 'r' => Some('\r')
    case 't' => Some('\t')
    case _ => None
  }

  /** The character spelled at the front of a string's inside, and the length of its spelling. */
  function FirstChar(s: string): (r: Option<(char, nat)>)
    requires s != ""
    ensures r.Some? ==> 0 < r.value.1 <= |s|
  {
    if s[0] != '\\' then if s[0] < ' ' then None else Some((s[0], 1))
    else if |s| < 2 then None
    else if s[1] == 'u' then UnicodeEscape(s)
    else
      var c := ShortEscape(s[1]);
      if c.None? then None else Some((c.value, 2))
  }

  /** A string's inside up to its closing quote, and what follows. */
  function ReadString(s: string): (r: Option<(string, string)>)
    ensures r.Some? ==> |r.value.1| < |s|
  {
    if s == "" then None
    else if s[0] == '"' then Some(("", s[1..]))
    else
      var first := FirstChar(s);
      if first.None? then None
      else
        var rest := ReadString(s[first.value.1..]);
        if rest.None? then None else Some(([first.value.0] + rest.value.0, rest.value.1))
  }

  // --- reading values ------------------------------------------------------------------------

  function Digits(s: string): (n: nat)
    ensures n <= |s| && forall i | 0 <= i < n :: Digit(s[i])
    ensures n < |s| ==> !Digit(s[n])
  {
    if s == "" || !Digit(s[0]) then 0 else 1 + Digits(s[1..])
  }

  /** The digits of a whole part: at least one, and no leading zero. */
  function IntLength(s: string): (r: Option<nat>)
    ensures r.Some? ==> 0 < r.value <= |s|
  {
    var n := Digits(s);
    if n == 0 || (n > 1 && s[0] == '0') then None else Some(n)
  }

  function FractionLength(s: string): (r: Option<nat>)
    ensures r.Some? ==> r.value <= |s|
  {
    if s == "" || s[0] != '.' then Some(0)
    else
      var n := Digits(s[1..]);
      if n == 0 then None else Some(1 + n)
  }

  function ExponentLength(s: string): (r: Option<nat>)
    ensures r.Some? ==> r.value <= |s|
  {
    if s == "" || s[0] !in {'e', 'E'} then Some(0)
    else
      var start := if |s| > 1 && s[1] in {'+', '-'} then 2 else 1;
      var n := Digits(s[start..]);
      if n == 0 then None else Some(start + n)
  }

  predicate Fits(n: int) {
    -0x8000_0000_0000_0000 <= n < 0x1_0000_0000_0000_0000
  }

  /** Negative zero is a float to serde_json, and so is an integer beyond 64 bits; a float must be finite. */
  function Numeric(negative: bool, n: nat, whole: bool): Value {
    if whole && !negative && Fits(n) then Num(n)
    else if whole && negative && n > 0 && Fits(-(n as int)) then Num(-(n as int))
    else Other
  }

  function ReadNumber(s: string, finite: string -> bool): (r: Option<(Value, string)>)
    requires s != ""
    ensures r.Some? ==> |r.value.1| < |s|
  {
    var sign := if s[0] == '-' then 1 else 0;
    var integer := IntLength(s[sign..]);
    if integer.None? then None
    else
      var a := sign + integer.value;
      var fraction := FractionLength(s[a..]);
      if fraction.None? then None
      else
        var b := a + fraction.value;
        var exponent := ExponentLength(s[b..]);
        if exponent.None? then None
        else
          var c := b + exponent.value;
          var value := Numeric(sign == 1, ReadNat(s[sign..a]), a == c);
          if value.Other? && !finite(s[..c]) then None else Some((value, s[c..]))
  }

  function ReadLiteral(s: string): (r: Option<(Value, string)>)
    ensures r.Some? ==> |r.value.1| < |s|
  {
    if "null" <= s || "true" <= s then Some((Other, s[4..]))
    else if "false" <= s then Some((Other, s[5..]))
    else None
  }

  predicate Space(c: char) {
    c == ' ' || c == '\t' || c == '\n' || c == '\r'
  }

  function Trim(s: string): (r: string)
    ensures |r| <= |s|
    ensures s != "" && !Space(s[0]) ==> r == s
  {
    if s != "" && Space(s[0]) then Trim(s[1..]) else s
  }

  /** A value, and what follows it; `room` is how deep it may still nest. */
  function ReadValue(s: string, finite: string -> bool, room: nat): (r: Option<(Value, string)>)
    ensures r.Some? ==> |r.value.1| < |s|
    decreases |s|, 0
  {
    if s == "" then None
    else if s[0] == '"' then
      var text := ReadString(s[1..]);
      if text.None? then None else Some((Str(text.value.0), text.value.1))
    else if s[0] == '-' || Digit(s[0]) then ReadNumber(s, finite)
    else if s[0] == '{' || s[0] == '[' then
      if room <= 1 then None else ReadNested(s, finite, room - 1)
    else ReadLiteral(s)
  }

  /** An array or an object inside another one. */
  function ReadNested(s: string, finite: string -> bool, room: nat): (r: Option<(Value, string)>)
    requires s != ""
    ensures r.Some? ==> |r.value.1| < |s|
    decreases |s| - 1, 4
  {
    var inside := Trim(s[1..]);
    if s[0] == '{' then
      var inner := ReadInside(inside, finite, room);
      if inner.None? then None else Some((Other, inner.value.1))
    else if inside != "" && inside[0] == ']' then Some((Other, inside[1..]))
    else
      var rest := ReadElements(inside, finite, room);
      if rest.None? then None else Some((Other, rest.value))
  }

  /** The elements of an array up to its closing bracket. */
  function ReadElements(s: string, finite: string -> bool, room: nat): (r: Option<string>)
    ensures r.Some? ==> |r.value| < |s|
    decreases |s|, 1
  {
    var value := ReadValue(Trim(s), finite, room);
    if value.None? then None
    else
      var rest := Trim(value.value.1);
      if rest == "" then None
      else if rest[0] == ']' then Some(rest[1..])
      else if rest[0] == ',' then ReadElements(rest[1..], finite, room)
      else None
  }

  // --- reading objects -------------------------------------------------------------------------

  /** A key and its colon, and what follows them. */
  function ReadKey(s: string): (r: Option<(string, string)>)
    ensures r.Some? ==> |r.value.1| < |s|
  {
    if s == "" || s[0] != '"' then None
    else
      var key := ReadString(s[1..]);
      if key.None? then None
      else
        var rest := Trim(key.value.1);
        if rest == "" || rest[0] != ':' then None else Some((key.value.0, Trim(rest[1..])))
  }

  /** One entry, and what follows it. */
  function ReadEntry(s: string, finite: string -> bool, room: nat): (r: Option<(Field, string)>)
    ensures r.Some? ==> |r.value.1| < |s|
    decreases |s|, 1
  {
    var key := ReadKey(Trim(s));
    if key.None? then None
    else
      var value := ReadValue(key.value.1, finite, room);
      if value.None? then None else Some((Field(key.value.0, value.value.0), Trim(value.value.1)))
  }

  function ReadEntries(s: string, finite: string -> bool, room: nat, seen: map<string, Value>):
    (r: Option<(map<string, Value>, string)>)
    ensures r.Some? ==> |r.value.1| < |s|
    decreases |s|, 2
  {
    var entry := ReadEntry(s, finite, room);
    if entry.None? then None
    else
      var (f, rest) := entry.value;
      var now := seen[f.key := f.value];
      if rest == "" then None
      else if rest[0] == '}' then Some((now, rest[1..]))
      else if rest[0] == ',' then ReadEntries(rest[1..], finite, room, now)
      else None
  }

  /** The rest of an object after its opening brace, and what follows it. */
  function ReadInside(s: string, finite: string -> bool, room: nat): (r: Option<(map<string, Value>, string)>)
    ensures r.Some? ==> |r.value.1| < |s|
    decreases |s|, 3
  {
    if s != "" && s[0] == '}' then Some((map[], s[1..])) else ReadEntries(s, finite, room, map[])
  }

  /** A text that is one object and nothing else. */
  function ReadObject(s: string, finite: string -> bool): Option<map<string, Value>> {
    var start := Trim(s);
    if start == "" || start[0] != '{' then None
    else
      var inner := ReadInside(Trim(start[1..]), finite, DEPTH - 1);
      if inner.Some? && Trim(inner.value.1) == "" then Some(inner.value.0) else None
  }

  // --- reading undoes printing ---------------------------------------------------------------

  lemma {:induction false} HexOfDigit(n: nat)
    requires n < 16
    ensures HexValue(HexDigit(n)) == Some(n)
  {
  }

  lemma {:induction false} FirstOfEscaped(c: char, rest: string)
    ensures FirstChar(EscapedChar(c) + rest) == Some((c, |EscapedChar(c)|))
  {
    if c < ' ' {
      HexOfDigit(c as int / 16);
      HexOfDigit(c as int % 16);
    }
  }

  lemma {:induction false} ReadOneMore(c: char, tail: string, s: string, rest: string)
    requires ReadString(tail) == Some((s, rest))
    ensures ReadString(EscapedChar(c) + tail) == Some(([c] + s, rest))
  {
    var e := EscapedChar(c);
    FirstOfEscaped(c, tail);
    assert (e + tail)[|e|..] == tail;
  }

  lemma {:induction false} Assoc(a: string, b: string, c: string)
    ensures a + b + c == a + (b + c)
  {
  }

  lemma {:induction false} Tail(a: string, b: string, c: string, d: string)
    ensures a + b + c + d == a + (b + c + d)
  {
  }

  lemma {:induction false} ReadOfEscaped(s: string, rest: string)
    ensures ReadString(Escaped(s) + "\"" + rest) == Some((s, rest))
  {
    var text := Escaped(s) + "\"" + rest;
    if s == "" {
      assert text == "\"" + rest;
    } else {
      var e := EscapedChar(s[0]);
      var tail := Escaped(s[1..]) + "\"" + rest;
      Tail(e, Escaped(s[1..]), "\"", rest);
      ReadOfEscaped(s[1..], rest);
      ReadOneMore(s[0], tail, s[1..], rest);
      assert s == [s[0]] + s[1..];
    }
  }

  /** The text after a value: it can not be taken for more of a number. */
  predicate Ends(rest: string) {
    rest != "" && (rest[0] == ',' || rest[0] == '}')
  }

  lemma {:induction false} DigitsOfShown(s: string, rest: string)
    requires (forall i | 0 <= i < |s| :: Digit(s[i])) && Ends(rest)
    ensures Digits(s + rest) == |s|
  {
    if s == "" {
      assert s + rest == rest;
    } else {
      assert (s + rest)[1..] == s[1..] + rest;
      DigitsOfShown(s[1..], rest);
    }
  }

  /** Decimal digits with an ending are a whole part and nothing more. */
  lemma {:induction false} WholeOfShown(n: nat, rest: string)
    requires Ends(rest)
    ensures var digits := ShowNat(n);
            && IntLength(digits + rest) == Some(|digits|)
            && ReadNat(digits) == n
  {
    var digits := ShowNat(n);
    DigitsOfShown(digits, rest);
    ReadOfShow(n);
    assert (digits + rest)[0] == digits[0];
    assert digits[0] == '0' ==> digits == "0";
  }

  lemma {:induction false} Middle(a: string, b: string, c: string)
    ensures (a + b + c)[|a|..] == b + c
    ensures (a + b + c)[|a|..|a| + |b|] == b
    ensures (a + b + c)[|a| + |b|..] == c
  {
  }

  /** An ending starts neither a fraction nor an exponent. */
  lemma {:induction false} NothingFollows(rest: string)
    requires Ends(rest)
    ensures FractionLength(rest) == Some(0) && ExponentLength(rest) == Some(0) && rest[0..] == rest
  {
  }

  lemma {:induction false} ReadOfDigits(sign: string, digits: string, n: nat, rest: string, finite: string -> bool)
    requires sign == "" || (sign == "-" && n > 0)
    requires digits != "" && Digit(digits[0]) && Ends(rest)
    requires IntLength(digits + rest) == Some(|digits|)
    requires (forall i | 0 <= i < |digits| :: Digit(digits[i])) && ReadNat(digits) == n
    requires Fits(if sign == "-" then -(n as int) else n)
    ensures ReadNumber(sign + digits + rest, finite) == Some((Num(if sign == "-" then -(n as int) else n), rest))
  {
    var s := sign + digits + rest;
    Middle(sign, digits, rest);
    NothingFollows(rest);
    assert s[0] == if sign == "" then digits[0] else '-';
  }

  lemma {:induction false} ReadOfShown(n: int, rest: string, finite: string -> bool)
    requires Ends(rest) && Fits(n)
    ensures ReadNumber(Show(n) + rest, finite) == Some((Num(n), rest))
  {
    var size: nat := if n < 0 then -n else n;
    WholeOfShown(size, rest);
    ReadOfDigits(if n < 0 then "-" else "", ShowNat(size), size, rest, finite);
    assert "" + ShowNat(size) == ShowNat(size);
  }

  lemma {:induction false} ReadOfText(t: string, rest: string, finite: string -> bool, room: nat)
    ensures ReadValue(Quoted(t) + rest, finite, room) == Some((Str(t), rest))
  {
    var text := Quoted(t) + rest;
    var inside := Escaped(t) + "\"" + rest;
    assert text[0] == '"' && text[1..] == inside;
    ReadOfEscaped(t, rest);
  }

  predicate Printable(v: Value) {
    v.Num? ==> Fits(v.n)
  }

  lemma {:induction false} ReadOfValue(v: Value, rest: string, finite: string -> bool, room: nat)
    requires Ends(rest) && Printable(v)
    ensures ReadValue(Shown(v) + rest, finite, room) == Some((v, rest))
  {
    var text := Shown(v) + rest;
    match v
    case Str(s) =>
      ReadOfText(s, rest, finite, room);
    case Num(n) =>
      ReadOfShown(n, rest, finite);
      ShownIsTight(v);
      assert text[0] == Shown(v)[0];
    case Other =>
      assert text[..4] == "null" && text[4..] == rest;
  }

  lemma {:induction false} ReadOfKey(key: string, rest: string)
    requires rest != "" && !Space(rest[0])
    ensures ReadKey(Quoted(key) + ":" + rest) == Some((key, rest))
  {
    var text := Quoted(key) + ":" + rest;
    ReadOfEscaped(key, ":" + rest);
    assert text[1..] == Escaped(key) + "\"" + (":" + rest);
    assert (":" + rest)[1..] == rest;
  }

  lemma {:induction false} ReadOfEntry(f: Field, rest: string, finite: string -> bool, room: nat)
    requires Ends(rest) && Printable(f.value)
    ensures ReadEntry(Entry(f) + rest, finite, room) == Some((f, rest))
  {
    var text := Entry(f) + rest;
    var value := Shown(f.value) + rest;
    assert text == Quoted(f.key) + ":" + value;
    ShownIsTight(f.value);
    assert value[0] == Shown(f.value)[0];
    ReadOfKey(f.key, value);
    ReadOfValue(f.value, rest, finite, room);
    assert Trim(text) == text by { assert text[0] == '"'; }
  }

  lemma {:induction false} ShownIsTight(v: Value)
    ensures Shown(v) != "" && !Space(Shown(v)[0])
    ensures v.Num? ==> Shown(v)[0] == '-' || Digit(Shown(v)[0])
  {
    if v.Num? && v.n >= 0 {
      assert Digit(ShowNat(v.n)[0]);
    }
  }

  lemma {:induction false} Regroup<T>(a: seq<T>, b: seq<T>, c: seq<T>, d: seq<T>, e: seq<T>)
    ensures (a + b + c) + d + e == a + b + (c + d + e)
    ensures (a + b + c) + d + e == a + (b + (c + d + e))
  {
  }

  lemma {:induction false} EntriesFromFront(fields: seq<Field>)
    requires |fields| > 1
    ensures Entries(fields) == Entry(fields[0]) + "," + Entries(fields[1..])
  {
    var n := |fields|;
    var init := fields[..n - 1];
    assert fields[1..][..n - 2] == init[1..];
    if n > 2 {
      EntriesFromFront(init);
      Regroup(Entry(fields[0]), ",", Entries(init[1..]), ",", Entry(fields[n - 1]));
    }
  }

  /** `seen` with the fields on top. */
  function Over(seen: map<string, Value>, fields: seq<Field>): map<string, Value>
    decreases |fields|
  {
    if fields == [] then seen else Over(seen[fields[0].key := fields[0].value], fields[1..])
  }

  lemma {:induction false} OverIsReading(seen: map<string, Value>, fields: seq<Field>)
    ensures Over(seen, fields) == seen + Reading(fields)
    decreases |fields|
  {
    if fields != [] {
      var n := |fields|;
      OverFromBack(seen, fields);
      OverIsReading(seen, fields[..n - 1]);
    }
  }

  lemma {:induction false} OverFromBack(seen: map<string, Value>, fields: seq<Field>)
    requires fields != []
    ensures var last := fields[|fields| - 1];
            Over(seen, fields) == Over(seen, fields[..|fields| - 1])[last.key := last.value]
    decreases |fields|
  {
    if |fields| > 1 {
      OverFromBack(seen[fields[0].key := fields[0].value], fields[1..]);
      assert fields[1..][..|fields| - 2] == fields[..|fields| - 1][1..];
    }
  }

  /** One step of the reader, on an entry that is followed by a comma or a brace. */
  lemma {:induction false} ReadStep(f: Field, mark: char, rest: string, finite: string -> bool, room: nat,
                                    seen: map<string, Value>)
    requires (mark == ',' || mark == '}') && Printable(f.value)
    ensures var now := seen[f.key := f.value];
            ReadEntries(Entry(f) + ([mark] + rest), finite, room, seen)
              == if mark == '}' then Some((now, rest)) else ReadEntries(rest, finite, room, now)
  {
    ReadOfEntry(f, [mark] + rest, finite, room);
    assert ([mark] + rest)[1..] == rest;
  }

  lemma {:induction false} ReadOfEntries(fields: seq<Field>, rest: string, finite: string -> bool, room: nat,
                                         seen: map<string, Value>)
    requires fields != [] && forall i | 0 <= i < |fields| :: Printable(fields[i].value)
    ensures ReadEntries(Entries(fields) + "}" + rest, finite, room, seen) == Some((Over(seen, fields), rest))
    decreases |fields|
  {
    var f, others := fields[0], fields[1..];
    if |fields| == 1 {
      Assoc(Entry(f), "}", rest);
      ReadStep(f, '}', rest, finite, room, seen);
      assert others == [];
    } else {
      EntriesFromFront(fields);
      Regroup(Entry(f), ",", Entries(others), "}", rest);
      ReadStep(f, ',', Entries(others) + "}" + rest, finite, room, seen);
      ReadOfEntries(others, rest, finite, room, seen[f.key := f.value]);
    }
  }

  lemma {:induction false} ReadOfInside(fields: seq<Field>, finite: string -> bool, room: nat)
    requires fields != [] && forall i | 0 <= i < |fields| :: Printable(fields[i].value)
    ensures ReadInside(Entries(fields) + "}", finite, room) == Some((Reading(fields), ""))
  {
    var inside := Entries(fields) + "}";
    EntriesOpenQuoted(fields);
    assert inside[0] == '"';
    ReadOfEntries(fields, "", finite, room, map[]);
    assert inside + "" == inside;
    OverIsReading(map[], fields);
    assert map[] + Reading(fields) == Reading(fields);
  }

  /** Every printed object of strings and 64-bit integers reads back as what it says. */
  lemma {:induction false} ReadOfObject(fields: seq<Field>, finite: string -> bool)
    requires fields != [] && forall i | 0 <= i < |fields| :: Printable(fields[i].value)
    ensures ReadObject(Object(fields), finite) == Some(Reading(fields))
  {
    var text := Object(fields);
    var inside := Entries(fields) + "}";
    assert text[0] == '{' && text[1..] == inside;
    EntriesOpenQuoted(fields);
    assert inside[0] == '"' && Trim(inside) == inside;
    ReadOfInside(fields, finite, DEPTH - 1);
  }

  lemma {:induction false} EntriesOpenQuoted(fields: seq<Field>)
    requires fields != []
    ensures Entries(fields) != "" && Entries(fields)[0] == '"'
  {
    if |fields| > 1 {
      EntriesOpenQuoted(fields[..|fields| - 1]);
    }
  }
}
