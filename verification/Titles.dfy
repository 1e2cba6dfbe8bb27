/**
Title sanitizing: controls become spaces, whitespace runs collapse to one
space, the ends are trimmed and the length is capped in UTF-16 code units.
*/
module Titles {
  const MAX_TITLE_LEN: nat := 200

  /** JS whitespace: Unicode White_Space without U+0085, plus U+FEFF. */
  predicate JsSpace(c: char) {
    var u := c as int;
    9 <= u <= 13 || u == 0x20 || u == 0xA0 || u == 0x1680 || 0x2000 <= u <= 0x200A ||
    u == 0x2028 || u == 0x2029 || u == 0x202F || u == 0x205F || u == 0x3000 || u == 0xFEFF
  }

  predicate Control(c: char) {
    c as int <= 0x1F || c as int == 0x7F
  }

  function Spaced(s: string): (r: string)
    ensures |r| == |s|
    ensures forall i | 0 <= i < |s| :: r[i] == if Control(s[i]) then ' ' else s[i]
  {
    seq(|s|, i requires 0 <= i < |s| => if Control(s[i]) then ' ' else s[i])
  }

  /** UTF-16 code units of a character. */
  function Units(c: char): nat {
    if c as int < 0x10000 then 1 else 2
  }

  function Length(s: string): nat {
    if s == "" then 0 else Units(s[0]) + Length(s[1..])
  }

  /** The longest prefix of at most `n` UTF-16 code units. */
  function Slice(s: string, n: nat): (r: string)
    ensures r <= s
    ensures Length(r) <= n
    ensures r != s ==> Length(s[..|r| + 1]) > n
  {
    if s == "" then ""
    else if Units(s[0]) > n then
      assert s[..1] == [s[0]]; ""
    else
      var rest := Slice(s[1..], n - Units(s[0]));
      assert ([s[0]] + rest)[1..] == rest;
      assert rest != s[1..] ==> s[..|rest| + 2][1..] == s[1..][..|rest| + 1];
      assert [s[0]] + s[1..] == s;
      [s[0]] + rest
  }

  /** Where the leading run of non-space characters ends. */
  function WordEnd(s: string): (n: nat)
    ensures n <= |s|
    ensures forall i | 0 <= i < n :: !JsSpace(s[i])
    ensures n < |s| ==> JsSpace(s[n])
  {
    if s == "" || JsSpace(s[0]) then 0 else 1 + WordEnd(s[1..])
  }

  /** The non-empty pieces between whitespace. */
  function Words(s: string): seq<string>
    decreases |s|
  {
    if s == "" then []
    else if JsSpace(s[0]) then Words(s[1..])
    else [s[..WordEnd(s)]] + Words(s[WordEnd(s)..])
  }

  function Spread(words: seq<string>): string {
    if |words| == 0 then ""
    else if |words| == 1 then words[0]
    else words[0] + " " + Spread(words[1..])
  }

  function Collapse(s: string): string {
    Spread(Words(Spaced(s)))
  }

  function Clean(raw: string, max: nat): string {
    Slice(Collapse(raw), max)
  }

  // --- what a cleaned title looks like ---------------------------------------

  /** No control, the plain space is the only whitespace, never first and never twice in a row. */
  ghost predicate Tidy(s: string) {
    && (forall i | 0 <= i < |s| :: !Control(s[i]) && (JsSpace(s[i]) ==> s[i] == ' '))
    && (s != "" ==> s[0] != ' ')
    && (forall i, j | 0 <= i < j < |s| && s[i] == ' ' && s[j] == ' ' :: i + 1 < j)
  }

  predicate EndsInSpace(s: string) {
    s != "" && s[|s| - 1] == ' '
  }

  lemma {:induction false} SpreadIsTidy(s: string)
    requires forall i | 0 <= i < |s| :: !Control(s[i])
    ensures var t := Spread(Words(s)); Tidy(t) && !EndsInSpace(t) && (Words(s) != [] ==> t != "")
    decreases |s|
  {
    if s == "" {
    } else if JsSpace(s[0]) {
      SpreadIsTidy(s[1..]);
    } else {
      var n := WordEnd(s);
      SpreadIsTidy(s[n..]);
      var w, rest := s[..n], Words(s[n..]);
      var t := Spread([w] + rest);
      assert ([w] + rest)[1..] == rest;
      if rest != [] {
        var tail := Spread(rest);
        assert t == w + " " + tail;
        assert forall i | n < i < |t| :: t[i] == tail[i - n - 1];
      }
    }
  }

  lemma {:induction false} TidySuffix(s: string, m: nat)
    requires Tidy(s) && m <= |s| && (m < |s| ==> s[m] != ' ')
    ensures Tidy(s[m..])
  {
    var t := s[m..];
    assert forall i | 0 <= i < |t| :: t[i] == s[m + i];
  }

  /** A word, then a space, then a string that does not start with one. */
  lemma {:induction false} WordsOfFirst(s: string, n: nat, rest: string)
    requires Tidy(s) && n == WordEnd(s) < |s| && rest == s[n + 1..]
    ensures s == s[..n] + " " + rest
    ensures Tidy(rest)
    ensures Words(s) == [s[..n]] + Words(rest)
    ensures rest != "" ==> Words(rest) != []
  {
    assert s[n] == ' ';
    assert rest != "" ==> s[n + 1] != ' ' && !JsSpace(rest[0]);
    TidySuffix(s, n + 1);
    assert s[n..][1..] == rest;
    assert Words(s[n..]) == Words(rest);
  }

  function TrimEnd(s: string): string {
    if EndsInSpace(s) then s[..|s| - 1] else s
  }

  lemma {:induction false} TrimEndOfConcat(a: string, rest: string)
    ensures TrimEnd(a + " " + rest) == if rest == "" then a else a + " " + TrimEnd(rest)
  {
    var s := a + " " + rest;
    if rest == "" {
      assert s[..|s| - 1] == a;
    } else {
      assert s[|s| - 1] == rest[|rest| - 1];
      assert s[..|s| - 1] == a + " " + rest[..|rest| - 1];
    }
  }

  /** A tidy string loses at most its trailing space. */
  lemma {:induction false} CollapseOfTidy(s: string)
    requires Tidy(s)
    ensures Spread(Words(s)) == TrimEnd(s)
    decreases |s|
  {
    var n := WordEnd(s);
    if n < |s| {
      var rest := s[n + 1..];
      WordsOfFirst(s, n, rest);
      CollapseOfTidy(rest);
      SpreadOfCons(s[..n], Words(rest));
      TrimEndOfConcat(s[..n], rest);
    } else if s != "" {
      assert s[..n] == s;
      assert Words(s[n..]) == [];
      assert !JsSpace(s[|s| - 1]);
    }
  }

  lemma {:induction false} SpreadOfCons(word: string, rest: seq<string>)
    ensures Spread([word] + rest) == if rest == [] then word else word + " " + Spread(rest)
  {
    assert ([word] + rest)[1..] == rest;
  }

  lemma {:induction false} SliceOfShort(s: string, t: string, n: nat)
    requires t <= s && Length(s) <= n
    ensures Slice(t, n) == t
  {
    if Slice(t, n) != t {
      var m := |Slice(t, n)| + 1;
      assert t[..m] <= s;
      LengthOfPrefix(s, t[..m]);
    }
  }

  lemma {:induction false} LengthOfPrefix(s: string, t: string)
    requires t <= s
    ensures Length(t) <= Length(s)
  {
    if t != "" {
      LengthOfPrefix(s[1..], t[1..]);
    }
  }

  /** No control character, no doubled or leading space, at most `max` UTF-16 units. */
  lemma {:induction false} CleanIsTidy(raw: string, max: nat)
    ensures Tidy(Clean(raw, max)) && Length(Clean(raw, max)) <= max
  {
    assert !Control(' ');
    SpreadIsTidy(Spaced(raw));
    assert Clean(raw, max) <= Collapse(raw);
  }

  /** The strings that cleaning leaves alone: tidy, within the cap, and without a trailing space. */
  lemma {:induction false} FixedPoints(t: string, max: nat)
    ensures Clean(t, max) == t <==> Tidy(t) && Length(t) <= max && !EndsInSpace(t)
  {
    CleanIsTidy(t, max);
    if Tidy(t) && Length(t) <= max {
      assert Spaced(t) == t;
      CollapseOfTidy(t);
      SliceOfShort(t, Collapse(t), max);
    }
  }

  /** A cleaned title is a fixed point exactly when the cap did not leave a trailing space. */
  lemma {:induction false} CleanTwice(raw: string, max: nat)
    ensures Clean(Clean(raw, max), max) == Clean(raw, max) <==> !EndsInSpace(Clean(raw, max))
  {
    CleanIsTidy(raw, max);
    FixedPoints(Clean(raw, max), max);
  }

  /** The cap does leave one: 199 letters, a space and a letter. */
  lemma {:induction false} CleanIsNotIdempotent()
    ensures exists raw :: Clean(Clean(raw, MAX_TITLE_LEN), MAX_TITLE_LEN) != Clean(raw, MAX_TITLE_LEN)
  {
    var word := seq(199, i => 'a');
    var raw := word + " b";
    assert Tidy(raw) && !EndsInSpace(raw);
    assert Spaced(raw) == raw;
    CollapseOfTidy(raw);
    LengthOfAscii(raw[..200]);
    LengthOfAscii(raw);
    LengthOfAscii(Clean(raw, MAX_TITLE_LEN));
    var t := Clean(raw, MAX_TITLE_LEN);
    assert t != raw;
    if |t| < 200 {
      LengthOfAscii(raw[..|t| + 1]);
    }
    assert t == raw[..200] && t[199] == ' ';
    CleanTwice(raw, MAX_TITLE_LEN);
  }

  lemma {:induction false} LengthOfAscii(s: string)
    requires forall i | 0 <= i < |s| :: s[i] as int < 0x80
    ensures Length(s) == |s|
  {
    if s != "" {
      LengthOfAscii(s[1..]);
    }
  }
}
