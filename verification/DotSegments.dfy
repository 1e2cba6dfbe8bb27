/**
Dot segments of a request path. The gateway works on the list of segments; the
WHATWG URL Standard (section 4.4, path state) reads the path character by
character. The two are shown to agree on every rooted path.
*/
module DotSegments {
  import opened Pieces
  import opened Util

  function Lower(c: char): char {
    if 'A' <= c <= 'Z' then c + 32 as char else c
  }

  function Lowered(s: string): string {
    seq(|s|, i requires 0 <= i < |s| => Lower(s[i]))
  }

  predicate Single(s: string) {
    s == "." || Lowered(s) == "%2e"
  }

  predicate Double(s: string) {
    Lowered(s) in {"..", ".%2e", "%2e.", "%2e%2e"}
  }

  predicate Dot(s: string) {
    Single(s) || Double(s)
  }

  // --- the standard, character by character -------------------------------------------

  predicate Slash(c: char) {
    c == '/' || c == '\\'
  }

  /** The buffer is complete: a slash follows it, or the path ends. */
  function Commit(path: seq<string>, buffer: string, atEnd: bool): seq<string> {
    if Double(buffer) then
      var shortened := if path == [] then [] else path[..|path| - 1];
      if atEnd then shortened + [""] else shortened
    else if Single(buffer) then if atEnd then path + [""] else path
    else path + [buffer]
  }

  function PathState(path: seq<string>, buffer: string, rest: string): seq<string>
    decreases |rest|
  {
    if rest == "" then Commit(path, buffer, true)
    else if Slash(rest[0]) then PathState(Commit(path, buffer, false), "", rest[1..])
    else PathState(path, buffer + [rest[0]], rest[1..])
  }

  predicate Rooted(path: string) {
    path != "" && Slash(path[0])
  }

  /** The path as the standard's parser serializes it. */
  function Standard(path: string): string
    requires Rooted(path)
  {
    "/" + Join(PathState([], "", path[1..]), '/')
  }

  // --- the gateway, segment by segment --------------------------------------------------

  /** Every backslash reads as a slash. */
  function Slashed(path: string): (r: string)
    ensures |r| == |path| && '\\' !in r
    ensures forall i | 0 <= i < |path| :: r[i] == if path[i] == '\\' then '/' else path[i]
  {
    seq(|path|, i requires 0 <= i < |path| => if path[i] == '\\' then '/' else path[i])
  }

  predicate AnyDot(segs: seq<string>) {
    exists i | 0 <= i < |segs| :: Dot(segs[i])
  }

  function Resolve(out: seq<string>, segs: seq<string>): seq<string>
    decreases |segs|
  {
    if segs == [] then out else Resolve(Commit(out, segs[0], |segs| == 1), segs[1..])
  }

  /** The standard's path when there is something to rewrite; an unrooted path is only slashed. */
  function Answer(path: string): Option<string> {
    if Rooted(path) then
      if '\\' in path || AnyDot(Split(Slashed(path)[1..], '/')) then Some(Standard(path)) else None
    else if '\\' in path then Some(Slashed(path)) else None
  }

  /** The path without dot segments, or None when it has none. */
  method RemoveDotSegments(path: string) returns (r: Option<string>)
    ensures r == Answer(path)
    ensures Rooted(path) && r.None? ==> Standard(path) == path
    decreases '\\' in path
  {
    SlashedTwice(path);
    if '\\' in path {
      var slashed := Slashed(path);
      r := RemoveDotSegments(slashed);
      if Rooted(path) {
        StandardOfSlashed(path);
      }
      return Some(if r.Some? then r.value else slashed);
    }
    if path == "" || path[0] != '/' {
      return None;
    }
    var segs := Split(path[1..], '/');
    StandardIsResolve(path);
    if !AnyDot(segs) {
      ResolveOfNoDots([], segs);
      JoinOfSplit(path[1..], '/');
      assert [] + segs == segs;
      return None;
    }
    var out: seq<string> := [];
    var i := 0;
    while i < |segs|
      invariant 0 <= i <= |segs|
      invariant Resolve(out, segs[i..]) == Resolve([], segs)
    {
      var last := i + 1 == |segs|;
      var s := segs[i];
      assert segs[i..][0] == s && segs[i..][1..] == segs[i + 1..];
      if Double(s) {
        if out != [] {
          out := out[..|out| - 1];
        }
        if last {
          out := out + [""];
        }
      } else if !Single(s) {
        out := out + [s];
      } else if last {
        out := out + [""];
      }
      i := i + 1;
    }
    r := Some("/" + Join(out, '/'));
  }

  // --- why they agree -----------------------------------------------------------------------

  lemma {:induction false} SlashedTwice(path: string)
    ensures Slashed(Slashed(path)) == Slashed(path)
    ensures '\\' !in path ==> Slashed(path) == path
    ensures Rooted(path) <==> Rooted(Slashed(path))
  {
  }

  lemma {:induction false} PathStateOfSlashed(path: seq<string>, buffer: string, rest: string)
    ensures PathState(path, buffer, Slashed(rest)) == PathState(path, buffer, rest)
    decreases |rest|
  {
    if rest != "" {
      assert Slashed(rest)[1..] == Slashed(rest[1..]);
      if Slash(rest[0]) {
        PathStateOfSlashed(Commit(path, buffer, false), "", rest[1..]);
      } else {
        PathStateOfSlashed(path, buffer + [rest[0]], rest[1..]);
      }
    }
  }

  lemma {:induction false} StandardOfSlashed(path: string)
    requires Rooted(path)
    ensures Rooted(Slashed(path)) && Standard(Slashed(path)) == Standard(path)
  {
    assert Slashed(path)[1..] == Slashed(path[1..]);
    PathStateOfSlashed([], "", path[1..]);
  }

  /** What the character machine still has to do, in segments. */
  lemma {:induction false} PathStateIsResolve(path: seq<string>, buffer: string, rest: string)
    requires '\\' !in rest
    ensures PathState(path, buffer, rest) == Resolve(path, [buffer + Split(rest, '/')[0]] + Split(rest, '/')[1..])
    decreases |rest|
  {
    var segs := Split(rest, '/');
    if rest == "" {
      assert buffer + "" == buffer;
      assert ([buffer] + segs[1..])[1..] == [];
    } else {
      var tail := Split(rest[1..], '/');
      if rest[0] == '/' {
        PathStateIsResolve(Commit(path, buffer, false), "", rest[1..]);
        assert buffer + "" == buffer;
        assert "" + tail[0] == tail[0];
        assert [buffer + segs[0]] + segs[1..] == [buffer] + tail;
        assert ([buffer] + tail)[1..] == tail;
        assert ["" + tail[0]] + tail[1..] == tail;
      } else {
        PathStateIsResolve(path, buffer + [rest[0]], rest[1..]);
        assert buffer + [rest[0]] + tail[0] == buffer + ([rest[0]] + tail[0]);
      }
    }
  }

  lemma {:induction false} StandardIsResolve(path: string)
    requires Rooted(path) && '\\' !in path
    ensures Standard(path) == "/" + Join(Resolve([], Split(path[1..], '/')), '/')
  {
    PathStateIsResolve([], "", path[1..]);
    var segs := Split(path[1..], '/');
    assert "" + segs[0] == segs[0];
    assert ["" + segs[0]] + segs[1..] == segs;
  }

  lemma {:induction false} ResolveOfNoDots(out: seq<string>, segs: seq<string>)
    requires !AnyDot(segs)
    ensures Resolve(out, segs) == out + segs
    decreases |segs|
  {
    if segs != [] {
      assert !Dot(segs[0]);
      assert forall i | 0 <= i < |segs| - 1 :: segs[1..][i] == segs[i + 1];
      ResolveOfNoDots(out + [segs[0]], segs[1..]);
      assert out + [segs[0]] + segs[1..] == out + segs;
    }
  }

  // --- what is left -----------------------------------------------------------------------------

  /** No backslash, and no segment any gate or parser would still resolve. */
  predicate CleanPath(path: string) {
    '\\' !in path && !AnyDot(Split(path, '/'))
  }

  predicate Plain(segs: seq<string>) {
    forall i | 0 <= i < |segs| :: !Dot(segs[i]) && '/' !in segs[i] && '\\' !in segs[i]
  }

  lemma {:induction false} ResolveIsPlain(out: seq<string>, segs: seq<string>)
    requires Plain(out) && forall i | 0 <= i < |segs| :: '/' !in segs[i] && '\\' !in segs[i]
    ensures Plain(Resolve(out, segs)) && (segs != [] ==> Resolve(out, segs) != [])
    decreases |segs|
  {
    if segs != [] {
      assert !Dot("");
      var next := Commit(out, segs[0], |segs| == 1);
      assert Plain(next);
      if |segs| == 1 {
        assert segs[1..] == [];
      }
      ResolveIsPlain(next, segs[1..]);
    }
  }

  lemma {:induction false} SplitHasNoBackslash(s: string)
    requires '\\' !in s
    ensures forall i | 0 <= i < |Split(s, '/')| :: '\\' !in Split(s, '/')[i]
  {
    if s != "" {
      SplitHasNoBackslash(s[1..]);
    }
  }

  lemma {:induction false} JoinHasNoBackslash(segs: seq<string>)
    requires forall i | 0 <= i < |segs| :: '\\' !in segs[i]
    ensures '\\' !in Join(segs, '/')
  {
    if |segs| > 1 {
      JoinHasNoBackslash(segs[1..]);
    }
  }

  /** The standard's result has nothing left to resolve and is its own result: it stays under the root. */
  lemma {:induction false} StandardIsClean(path: string)
    requires Rooted(path)
    ensures var r := Standard(path);
            r[0] == '/' && CleanPath(r) && !AnyDot(Split(Slashed(r)[1..], '/')) && Standard(r) == r
  {
    StandardOfSlashed(path);
    var slashed := Slashed(path);
    StandardIsResolve(slashed);
    var segs := Split(slashed[1..], '/');
    SplitHasNoBackslash(slashed[1..]);
    ResolveIsPlain([], segs);
    var out := Resolve([], segs);
    SplitOfJoin(out, '/');
    JoinHasNoBackslash(out);
    var r := "/" + Join(out, '/');
    assert r[1..] == Join(out, '/');
    assert Split(r, '/') == [""] + out;
    assert !Dot("");
    SlashedTwice(r);
    StandardIsResolve(r);
    ResolveOfNoDots([], out);
    assert [] + out == out;
  }

  /**
  A rewritten path is clean exactly when the path was rooted, or had no dot
  segment to begin with: the gateway leaves the segments of a path that does
  not start with a slash alone.
  */
  lemma {:induction false} RewrittenPathIsClean(path: string)
    requires Answer(path).Some?
    ensures CleanPath(Answer(path).value) <==> Rooted(path) || CleanPath(Slashed(path))
  {
    if Rooted(path) {
      StandardIsClean(path);
    }
  }

  /** A second pass finds nothing to do. */
  lemma {:induction false} SecondPassIsIdle(path: string)
    requires Answer(path).Some?
    ensures Answer(Answer(path).value) == None
  {
    SlashedTwice(path);
    if Rooted(path) {
      StandardIsClean(path);
    }
  }

  /** As a function it takes any string: this one, which no request target parses to, keeps its dot segment. */
  lemma {:induction false} AnUnrootedPathKeepsItsDots()
    ensures Answer("x\\..") == Some("x/..") && !CleanPath("x/..")
  {
    assert Slashed("x\\..") == "x/..";
    SplitOfJoin(["x", ".."], '/');
    assert Join(["x", ".."], '/') == "x/.." by { assert ["x", ".."][1..] == [".."]; }
    assert Lowered("..") == "..";
    assert Dot(Split("x/..", '/')[1]);
  }
}
