/**
An append-only JSONL file: a backward tail reader that walks the file block by
block, and an appender that rotates the file once it has grown past 5 MiB.
*/
module JsonlLog {
  import opened Pieces
  import opened Util

  const NEWLINE: Byte := 10
  const ROTATE_AT_BYTES: nat := 5 * 1024 * 1024

  // --- what a file says, read as a whole ----------------------------------------------

  /** The non-empty pieces, last one first. */
  function NewestFirst(pieces: seq<seq<Byte>>): seq<seq<Byte>> {
    if pieces == [] then []
    else NewestFirst(pieces[1..]) + (if pieces[0] == [] then [] else [pieces[0]])
  }

  function Tail(file: seq<Byte>, limit: nat): seq<seq<Byte>> {
    Take(NewestFirst(Split(file, NEWLINE)), limit)
  }

  // --- laws of splitting -----------------------------------------------------------------

  predicate OneLine(s: seq<Byte>) {
    NEWLINE !in s
  }

  lemma {:induction false} NewestFirstOfConcat(a: seq<seq<Byte>>, b: seq<seq<Byte>>)
    ensures NewestFirst(a + b) == NewestFirst(b) + NewestFirst(a)
  {
    if a == [] {
      assert a + b == b;
    } else {
      assert (a + b)[1..] == a[1..] + b;
      NewestFirstOfConcat(a[1..], b);
    }
  }

  /** A block with the unfinished piece after it splits like the file from that block on. */
  lemma {:induction false} SplitOfBlock(block: seq<Byte>, rest: seq<Byte>)
    ensures Split(block + rest, NEWLINE) == Split(block + Split(rest, NEWLINE)[0], NEWLINE) + Split(rest, NEWLINE)[1..]
  {
    var leftover := Split(rest, NEWLINE)[0];
    SplitOfConcat(block, rest, NEWLINE);
    SplitOfConcat(block, leftover, NEWLINE);
    SplitOfOnePiece(leftover, NEWLINE);
  }

  lemma {:induction false} TakeOfLonger<T>(a: seq<T>, b: seq<T>, n: nat)
    ensures Take(a + b, n) == Take(Take(a, n) + b, n)
    ensures |Take(a, n)| >= n ==> Take(a + b, n) == Take(a, n)
  {
  }

  // --- the reader ---------------------------------------------------------------------------

  /** Push the pieces, last one first, until there are enough lines. */
  method PushPieces(lines: seq<seq<Byte>>, pieces: seq<seq<Byte>>, limit: nat) returns (r: seq<seq<Byte>>)
    requires |lines| <= limit
    ensures r == Take(lines + NewestFirst(pieces), limit)
  {
    r := lines;
    var j := |pieces|;
    assert pieces[j..] == [] && lines + NewestFirst([]) == lines;
    while j > 0 && |r| < limit
      invariant 0 <= j <= |pieces|
      invariant r == Take(lines + NewestFirst(pieces[j..]), limit)
    {
      j := j - 1;
      var more := if pieces[j] == [] then [] else [pieces[j]];
      assert pieces[j..] == [pieces[j]] + pieces[j + 1..];
      assert NewestFirst(pieces[j..]) == NewestFirst(pieces[j + 1..]) + more;
      assert lines + NewestFirst(pieces[j..]) == (lines + NewestFirst(pieces[j + 1..])) + more;
      TakeOfLonger(lines + NewestFirst(pieces[j + 1..]), more, limit);
      if pieces[j] != [] {
        r := r + [pieces[j]];
      }
    }
    assert pieces == pieces[..j] + pieces[j..];
    NewestFirstOfConcat(pieces[..j], pieces[j..]);
    assert lines + NewestFirst(pieces) == (lines + NewestFirst(pieces[j..])) + NewestFirst(pieces[..j]);
    TakeOfLonger(lines + NewestFirst(pieces[j..]), NewestFirst(pieces[..j]), limit);
    if j == 0 {
      assert pieces[..0] == [] && pieces[0..] == pieces;
    }
  }

  /** One block further back, the complete lines grow by the pieces of that block. */
  lemma {:induction false} BlockBefore(file: seq<Byte>, pos: nat, n: nat)
    requires pos + n <= |file|
    ensures var before := Split(file[pos + n..], NEWLINE);
            var pieces := Split(file[pos..pos + n] + before[0], NEWLINE);
            && Split(file[pos..], NEWLINE)[0] == pieces[0]
            && NewestFirst(Split(file[pos..], NEWLINE)[1..]) == NewestFirst(before[1..]) + NewestFirst(pieces[1..])
  {
    var before := Split(file[pos + n..], NEWLINE);
    var pieces := Split(file[pos..pos + n] + before[0], NEWLINE);
    assert file[pos..] == file[pos..pos + n] + file[pos + n..];
    SplitOfBlock(file[pos..pos + n], file[pos + n..]);
    assert Split(file[pos..], NEWLINE)[1..] == pieces[1..] + before[1..];
    NewestFirstOfConcat(pieces[1..], before[1..]);
  }

  /** The file's first line is the last to be found. */
  lemma {:induction false} FirstLineLast(file: seq<Byte>, limit: nat)
    ensures var s := Split(file, NEWLINE);
            Tail(file, limit) == Take(Take(NewestFirst(s[1..]), limit) + (if s[0] == [] then [] else [s[0]]), limit)
  {
    var s := Split(file, NEWLINE);
    TakeOfLonger(NewestFirst(s[1..]), if s[0] == [] then [] else [s[0]], limit);
  }

  /**
  Walk back from the end in blocks. `readable` is the disk's answer for each
  block, by where it starts. Whatever the block size, the result is what the
  whole file's last lines are; a read that fails costs at most the oldest line
  returned and what lies before it.
  */
  method ReadTail(file: seq<Byte>, limit: nat, chunk: nat, readable: nat -> bool) returns (lines: seq<seq<Byte>>)
    requires chunk >= 1
    ensures (forall at: nat | at < |file| :: readable(at)) ==> lines == Tail(file, limit)
    ensures lines != [] ==> lines[..|lines| - 1] <= Tail(file, limit)
  {
    var pos := |file|;
    var leftover: seq<Byte> := [];
    lines := [];
    assert file[pos..] == [];
    while pos > 0 && |lines| < limit
      invariant 0 <= pos <= |file| && |lines| <= limit
      invariant leftover == Split(file[pos..], NEWLINE)[0]
      invariant lines == Take(NewestFirst(Split(file[pos..], NEWLINE)[1..]), limit)
    {
      ghost var before := file[pos..];
      var n := Min(chunk, pos);
      if !readable(pos - n) {
        PrefixOfTail(file, pos, limit);
        if pos - n == 0 && leftover != [] {
          // The block before it could not be read, so this line may be cut short.
          lines := lines + [leftover];
        }
        return;
      }
      pos := pos - n;
      var buf := file[pos..pos + n] + leftover;
      BlockBefore(file, pos, n);
      var pieces := Split(buf, NEWLINE);
      leftover := pieces[0];
      lines := PushPieces(lines, pieces[1..], limit);
      TakeOfLonger(NewestFirst(Split(before, NEWLINE)[1..]), NewestFirst(pieces[1..]), limit);
    }
    PrefixOfTail(file, pos, limit);
    if pos == 0 {
      assert file[0..] == file;
      FirstLineLast(file, limit);
      if leftover != [] && |lines| < limit {
        lines := lines + [leftover];
      }
    }
  }

  /** The complete lines from any position on are the file's last lines. */
  lemma {:induction false} PrefixOfTail(file: seq<Byte>, pos: nat, limit: nat)
    requires pos <= |file|
    ensures var found := Take(NewestFirst(Split(file[pos..], NEWLINE)[1..]), limit);
            found <= Tail(file, limit) && (|found| >= limit ==> found == Tail(file, limit))
  {
    assert file == file[..pos] + file[pos..];
    SplitOfConcat(file[..pos], file[pos..], NEWLINE);
    var sa, sb := Split(file[..pos], NEWLINE), Split(file[pos..], NEWLINE);
    var front := sa[..|sa| - 1] + [sa[|sa| - 1] + sb[0]];
    NewestFirstOfConcat(front, sb[1..]);
    TakeOfLonger(NewestFirst(sb[1..]), NewestFirst(front), limit);
  }

  // --- the appender ---------------------------------------------------------------------------

  /** Both files; a missing file is None. */
  datatype Files = Files(live: Option<seq<Byte>>, rotated: Option<seq<Byte>>)

  function Bytes(file: Option<seq<Byte>>): seq<Byte> {
    if file.Some? then file.value else []
  }

  function Appended(fs: Files, line: seq<Byte>, renameOk: bool): Files {
    var rolled := if |Bytes(fs.live)| > ROTATE_AT_BYTES && renameOk then Files(None, fs.live) else fs;
    rolled.(live := Some(Bytes(rolled.live) + line + [NEWLINE]))
  }

  class Log {
    var live: Option<seq<Byte>>
    var rotated: Option<seq<Byte>>

    constructor ()
      ensures live == None && rotated == None
    {
      live, rotated := None, None;
    }

    /** Append the line; a file already past the threshold is renamed first, and a failed rename keeps appending. */
    method Append(line: seq<Byte>, renameOk: bool)
      modifies this
      ensures Files(live, rotated) == Appended(Files(old(live), old(rotated)), line, renameOk)
    {
      var size := if live.Some? then |live.value| else 0;
      if size > ROTATE_AT_BYTES {
        if renameOk {
          rotated := live;
          live := None;
        }
      }
      if live.None? {
        live := Some([]);
      }
      live := Some(live.value + line + [NEWLINE]);
    }
  }

  /** The files after these lines were appended; `renames` says for each whether a rename would succeed. */
  function Run(lines: seq<seq<Byte>>, renames: seq<bool>): Files
    requires |lines| == |renames|
  {
    if lines == [] then Files(None, None)
    else
      var n := |lines| - 1;
      Appended(Run(lines[..n], renames[..n]), lines[n], renames[n])
  }

  /** The file that holds exactly these lines. */
  function Written(lines: seq<seq<Byte>>): seq<Byte> {
    if lines == [] then [] else Written(lines[..|lines| - 1]) + lines[|lines| - 1] + [NEWLINE]
  }

  predicate Proper(lines: seq<seq<Byte>>) {
    forall i | 0 <= i < |lines| :: lines[i] != [] && OneLine(lines[i])
  }

  function Reversed<T>(s: seq<T>): seq<T> {
    if s == [] then [] else [s[|s| - 1]] + Reversed(s[..|s| - 1])
  }

  lemma {:induction false} SplitOfEndedLine(line: seq<Byte>)
    requires OneLine(line)
    ensures Split(line + [NEWLINE], NEWLINE) == [line, []]
  {
    assert [NEWLINE][1..] == [] && Split([NEWLINE], NEWLINE) == [[], []];
    SplitOfOnePiece(line, NEWLINE);
    SplitOfConcat(line, [NEWLINE], NEWLINE);
    assert [line][..0] == [] && line + [] == line;
  }

  lemma {:induction false} SplitOfNextLine(file: seq<Byte>, line: seq<Byte>)
    requires OneLine(line) && Split(file, NEWLINE)[|Split(file, NEWLINE)| - 1] == []
    ensures Split(file + line + [NEWLINE], NEWLINE) == Split(file, NEWLINE)[..|Split(file, NEWLINE)| - 1] + [line, []]
  {
    SplitOfEndedLine(line);
    assert file + line + [NEWLINE] == file + (line + [NEWLINE]);
    SplitOfConcat(file, line + [NEWLINE], NEWLINE);
    assert [] + line == line;
  }

  lemma {:induction false} NewestFirstOfNextLine(init: seq<seq<Byte>>, line: seq<Byte>)
    requires line != []
    ensures NewestFirst(init + [line, []]) == [line] + NewestFirst(init + [[]])
  {
    var end: seq<seq<Byte>> := [[]];
    NewestFirstOfConcat(init, end);
    NewestFirstOfConcat(init, [line, []]);
    assert [line, []][1..] == end && end[1..] == [];
    assert NewestFirst(end) == [] && NewestFirst([line, []]) == [line];
  }

  /** A file reads back as the lines written to it, newest first. */
  lemma {:induction false} WrittenReadsBack(lines: seq<seq<Byte>>)
    requires Proper(lines)
    ensures NewestFirst(Split(Written(lines), NEWLINE)) == Reversed(lines)
    ensures Split(Written(lines), NEWLINE)[|Split(Written(lines), NEWLINE)| - 1] == []
  {
    if lines != [] {
      var front, last := lines[..|lines| - 1], lines[|lines| - 1];
      WrittenReadsBack(front);
      var file := Written(front);
      var init := Split(file, NEWLINE)[..|Split(file, NEWLINE)| - 1];
      assert Split(file, NEWLINE) == init + [[]];
      SplitOfNextLine(file, last);
      NewestFirstOfNextLine(init, last);
    }
  }

  lemma {:induction false} WrittenThen(lines: seq<seq<Byte>>, line: seq<Byte>)
    ensures Written(lines + [line]) == Written(lines) + line + [NEWLINE]
  {
    assert (lines + [line])[..|lines|] == lines;
  }

  /** The rotated file holds these lines, and the live file those. */
  predicate Holds(fs: Files, older: seq<seq<Byte>>, newer: seq<seq<Byte>>) {
    Bytes(fs.rotated) == Written(older) && Bytes(fs.live) == Written(newer)
  }

  lemma {:induction false} AppendedHolds(fs: Files, older: seq<seq<Byte>>, newer: seq<seq<Byte>>,
                                         line: seq<Byte>, renameOk: bool)
    requires Holds(fs, older, newer)
    ensures var after := Appended(fs, line, renameOk);
            if |Bytes(fs.live)| > ROTATE_AT_BYTES && renameOk then Holds(after, newer, [line])
            else Holds(after, older, newer + [line])
  {
    WrittenThen([], line);
    WrittenThen(newer, line);
    assert [] + [line] == [line] && [] + line == line;
  }

  lemma {:induction false} Slices<T>(s: seq<T>, from: nat, cut: nat)
    requires from <= cut < |s|
    ensures var n := |s| - 1;
            && s[..n][from..cut] == s[from..cut] && s[..n][cut..] == s[cut..n]
            && s[cut..] == s[cut..n] + [s[n]] && s[n..] == [s[n]]
  {
  }

  lemma {:induction false} ProperSlice(lines: seq<seq<Byte>>, from: nat, to: nat)
    requires Proper(lines) && from <= to <= |lines|
    ensures Proper(lines[from..to])
  {
  }

  /** Where the rotated file's lines and the live file's lines begin in the history. */
  lemma {:induction false} FilesHoldTheNewestLines(lines: seq<seq<Byte>>, renames: seq<bool>)
    returns (from: nat, cut: nat)
    requires |lines| == |renames|
    ensures from <= cut <= |lines|
    ensures Holds(Run(lines, renames), lines[from..cut], lines[cut..])
  {
    if lines == [] {
      from, cut := 0, 0;
    } else {
      var n := |lines| - 1;
      var before := lines[..n];
      from, cut := FilesHoldTheNewestLines(before, renames[..n]);
      var fs := Run(before, renames[..n]);
      AppendedHolds(fs, before[from..cut], before[cut..], lines[n], renames[n]);
      Slices(lines, from, cut);
      if |Bytes(fs.live)| > ROTATE_AT_BYTES && renames[n] {
        from, cut := cut, n;
      }
    }
  }

  /**
  After any run of completed appends, failed renames included: the rotated file
  then the live file hold a suffix of everything appended, in order, and
  reading the live file's tail gives its newest lines, newest first.
  */
  lemma {:induction false} NothingRecentIsLost(lines: seq<seq<Byte>>, renames: seq<bool>, limit: nat)
    returns (from: nat, cut: nat)
    requires |lines| == |renames| && Proper(lines)
    ensures from <= cut <= |lines|
    ensures var fs := Run(lines, renames);
            && NewestFirst(Split(Bytes(fs.live), NEWLINE)) + NewestFirst(Split(Bytes(fs.rotated), NEWLINE))
               == Reversed(lines[from..])
            && Tail(Bytes(fs.live), limit) == Take(Reversed(lines[cut..]), limit)
  {
    from, cut := FilesHoldTheNewestLines(lines, renames);
    ProperSlice(lines, from, cut);
    ProperSlice(lines, cut, |lines|);
    assert lines[cut..] == lines[cut..|lines|];
    ReadBackSlices(Run(lines, renames), lines, from, cut);
  }

  lemma {:induction false} ReadBackSlices(fs: Files, lines: seq<seq<Byte>>, from: nat, cut: nat)
    requires from <= cut <= |lines| && Holds(fs, lines[from..cut], lines[cut..])
    requires Proper(lines[from..cut]) && Proper(lines[cut..])
    ensures NewestFirst(Split(Bytes(fs.live), NEWLINE)) == Reversed(lines[cut..])
    ensures NewestFirst(Split(Bytes(fs.live), NEWLINE)) + NewestFirst(Split(Bytes(fs.rotated), NEWLINE))
         == Reversed(lines[from..])
  {
    HeldLinesReadBack(fs, lines[from..cut], lines[cut..]);
    assert lines[from..] == lines[from..cut] + lines[cut..];
  }

  lemma {:induction false} HeldLinesReadBack(fs: Files, older: seq<seq<Byte>>, newer: seq<seq<Byte>>)
    requires Holds(fs, older, newer) && Proper(older) && Proper(newer)
    ensures NewestFirst(Split(Bytes(fs.live), NEWLINE)) == Reversed(newer)
    ensures NewestFirst(Split(Bytes(fs.live), NEWLINE)) + NewestFirst(Split(Bytes(fs.rotated), NEWLINE))
         == Reversed(older + newer)
  {
    WrittenReadsBack(older);
    WrittenReadsBack(newer);
    ReversedOfConcat(older, newer);
  }

  lemma {:induction false} ReversedOfConcat<T>(a: seq<T>, b: seq<T>)
    ensures Reversed(a + b) == Reversed(b) + Reversed(a)
  {
    if b == [] {
      assert a + b == a;
    } else {
      assert (a + b)[..|a + b| - 1] == a + b[..|b| - 1];
      ReversedOfConcat(a, b[..|b| - 1]);
    }
  }

  /** While renames succeed, the live file passes the threshold by at most its last line. */
  lemma {:induction false} LiveFileIsBounded(lines: seq<seq<Byte>>, renames: seq<bool>)
    requires |lines| == |renames| > 0 && renames[|lines| - 1]
    ensures |Bytes(Run(lines, renames).live)| <= ROTATE_AT_BYTES + |lines[|lines| - 1]| + 1
  {
  }
}
