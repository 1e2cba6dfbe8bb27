/**
The session gate's cache of passed token checks: one per sub, valid for a
quarter of an hour, and at most a thousand, of which the oldest write goes
first. It is measured against the whole history of its writes.
*/
module PlexGate {
  import opened Util

  const TTL_SECS: int := 15 * 60
  const MAX_ENTRIES: nat := 1000

  /** A pass written for a sub: the token's fingerprint, the server, and when it was checked. */
  datatype Write = Write(sub: string, fingerprint: string, serverId: string, at: int)

  datatype Entry = Entry(checkedAt: int, seqNo: nat, fingerprint: string, serverId: string)

  type Entries = map<string, Entry>

  // --- what history says ----------------------------------------------------------------

  function LastWrite(h: seq<Write>, sub: string): (r: Option<nat>)
    ensures r.Some? ==> r.value < |h| && h[r.value].sub == sub
    ensures r.Some? ==> forall i | r.value < i < |h| :: h[i].sub != sub
    ensures r.None? ==> forall i | 0 <= i < |h| :: h[i].sub != sub
  {
    if h == [] then None
    else if h[|h| - 1].sub == sub then Some(|h| - 1)
    else LastWrite(h[..|h| - 1], sub)
  }

  /** The subs written after a position. */
  function SubsAfter(h: seq<Write>, i: nat): set<string> {
    set j | i < j < |h| :: h[j].sub
  }

  /** Within the TTL, for this token and server, and not pushed out by a thousand other subs. */
  ghost predicate Passed(h: seq<Write>, sub: string, fingerprint: string, serverId: string, now: int) {
    var i := LastWrite(h, sub);
    && i.Some?
    && |SubsAfter(h, i.value)| < MAX_ENTRIES
    && now - h[i.value].at < TTL_SECS
    && h[i.value].fingerprint == fingerprint && h[i.value].serverId == serverId
  }

  // --- what the table keeps ----------------------------------------------------------------

  function EntryOf(h: seq<Write>, i: nat): Entry
    requires i < |h|
  {
    Entry(h[i].at, i + 1, h[i].fingerprint, h[i].serverId)
  }

  /** Entries are last writes, and nothing written later than an entry is missing. */
  ghost predicate Recent(h: seq<Write>, m: Entries) {
    && (forall s | s in m :: LastWrite(h, s).Some? && m[s] == EntryOf(h, LastWrite(h, s).value))
    && (forall s, i | s in m && LastWrite(h, s).value < i < |h| :: h[i].sub in m)
  }

  /** What is missing was pushed out by enough others. */
  ghost predicate PushedOut(h: seq<Write>, m: Entries) {
    forall s | s !in m && LastWrite(h, s).Some? :: |SubsAfter(h, LastWrite(h, s).value)| >= MAX_ENTRIES
  }

  ghost predicate Kept(h: seq<Write>, m: Entries) {
    Recent(h, m) && PushedOut(h, m) && |m| <= MAX_ENTRIES
  }

  lemma {:induction false} SubsetCount<T>(a: set<T>, b: set<T>)
    requires a <= b
    ensures |a| <= |b|
  {
    assert b == a + (b - a);
  }

  /** An entry is there exactly while fewer than a thousand others were written since. */
  lemma {:induction false} KeptIff(h: seq<Write>, m: Entries, sub: string)
    requires Kept(h, m)
    ensures sub in m <==> LastWrite(h, sub).Some? && |SubsAfter(h, LastWrite(h, sub).value)| < MAX_ENTRIES
  {
    if sub in m {
      var later := SubsAfter(h, LastWrite(h, sub).value);
      assert later <= m.Keys - {sub};
      SubsetCount(later, m.Keys - {sub});
      assert |m.Keys| == |m|;
    }
  }

  lemma {:induction false} LastWriteOfNext(h: seq<Write>, w: Write, s: string)
    ensures LastWrite(h + [w], s) == if s == w.sub then Some(|h|) else LastWrite(h, s)
  {
    assert (h + [w])[..|h|] == h;
  }

  lemma {:induction false} SubsAfterGrows(h: seq<Write>, w: Write, i: nat)
    requires i < |h|
    ensures |SubsAfter(h, i)| <= |SubsAfter(h + [w], i)|
  {
    var more := h + [w];
    forall s | s in SubsAfter(h, i) ensures s in SubsAfter(more, i) {
      var j :| i < j < |h| && h[j].sub == s;
      assert more[j].sub == s;
    }
    SubsetCount(SubsAfter(h, i), SubsAfter(more, i));
  }

  lemma {:induction false} InsertKeeps(h: seq<Write>, m: Entries, w: Write, e: Entry)
    requires Kept(h, m) && e == Entry(w.at, |h| + 1, w.fingerprint, w.serverId)
    ensures Recent(h + [w], m[w.sub := e]) && PushedOut(h + [w], m[w.sub := e])
    ensures |m[w.sub := e]| <= MAX_ENTRIES + 1
  {
    InsertCount(m, w.sub, e);
    var h' := h + [w];
    var m' := m[w.sub := e];
    forall s ensures LastWrite(h', s) == if s == w.sub then Some(|h|) else LastWrite(h, s) {
      LastWriteOfNext(h, w, s);
    }
    forall s, i | s in m' && LastWrite(h', s).value < i < |h'| ensures h'[i].sub in m' {
      if i < |h| {
        assert h'[i] == h[i];
      }
    }
    InsertPushesOut(h, m, w, e);
  }

  lemma {:induction false} InsertPushesOut(h: seq<Write>, m: Entries, w: Write, e: Entry)
    requires PushedOut(h, m)
    ensures PushedOut(h + [w], m[w.sub := e])
  {
    var h' := h + [w];
    forall s | s != w.sub && s !in m && LastWrite(h', s).Some?
      ensures |SubsAfter(h', LastWrite(h', s).value)| >= MAX_ENTRIES
    {
      LastWriteOfNext(h, w, s);
      SubsAfterGrows(h, w, LastWrite(h, s).value);
    }
  }

  /** Dropping the oldest entry of a table that is over the cap. */
  lemma {:induction false} EvictKeeps(h: seq<Write>, m: Entries, oldest: string)
    requires Recent(h, m) && PushedOut(h, m) && |m| == MAX_ENTRIES + 1 && oldest in m
    requires forall s | s in m :: m[oldest].seqNo <= m[s].seqNo
    ensures Kept(h, m - {oldest})
  {
    var i := LastWrite(h, oldest).value;
    var others := m.Keys - {oldest};
    forall s | s in others ensures s in SubsAfter(h, i) {
      var j := LastWrite(h, s).value;
      assert h[j].sub == s && i <= j && h[i].sub == oldest;
    }
    SubsetCount(others, SubsAfter(h, i));
    assert |m.Keys| == |m|;
    assert |others| == |m.Keys| - 1;
    var m' := m - {oldest};
    assert m'.Keys == others;
    forall s, k | s in m' && LastWrite(h, s).value < k < |h| ensures h[k].sub in m' {
      assert m[oldest].seqNo <= m[s].seqNo;
    }
  }

  lemma {:induction false} InsertCount(m: Entries, sub: string, e: Entry)
    ensures |m[sub := e]| <= |m| + 1
  {
    assert m[sub := e].Keys == m.Keys + {sub};
    assert |m.Keys| == |m| && |m[sub := e].Keys| == |m[sub := e]|;
  }

  lemma {:induction false} FirstThenRest(start: seq<Write>, writes: seq<Write>)
    requires writes != []
    ensures start + [writes[0]] + writes[1..] == start + writes
  {
  }

  // --- the gate -----------------------------------------------------------------------------

  /** What plex.tv said about a token: 401 or 403, or anything else, an outage included. */
  datatype Probe = Refused | Tolerated

  class Gate {
    var writes: nat
    var entries: Entries
    ghost var history: seq<Write>

    ghost predicate Valid()
      reads this
    {
      writes == |history| && Kept(history, entries)
    }

    constructor ()
      ensures Valid() && history == []
    {
      writes, entries, history := 0, map[], [];
    }

    /** A pass for this token and server within the TTL. */
    method Fresh(sub: string, fingerprint: string, serverId: string, now: int) returns (r: bool)
      requires Valid()
      ensures r == Passed(history, sub, fingerprint, serverId, now)
    {
      KeptIff(history, entries, sub);
      r := sub in entries
           && now - entries[sub].checkedAt < TTL_SECS
           && entries[sub].fingerprint == fingerprint
           && entries[sub].serverId == serverId;
    }

    method Set(sub: string, fingerprint: string, serverId: string, now: int)
      requires Valid()
      modifies this
      ensures Valid() && history == old(history) + [Write(sub, fingerprint, serverId, now)]
    {
      ghost var w := Write(sub, fingerprint, serverId, now);
      writes := writes + 1;
      var entry := Entry(now, writes, fingerprint, serverId);
      InsertKeeps(history, entries, w, entry);
      var grown := entries[sub := entry];
      history := history + [w];
      entries := Capped(history, grown);
    }

    /** What other tasks write in the meantime. */
    method Others(theirs: seq<Write>)
      requires Valid()
      modifies this
      ensures Valid() && history == old(history) + theirs
      decreases |theirs|
    {
      ghost var start := history;
      if theirs != [] {
        Set(theirs[0].sub, theirs[0].fingerprint, theirs[0].serverId, theirs[0].at);
        assert history == start + [theirs[0]];
        Others(theirs[1..]);
        FirstThenRest(start, theirs);
      }
    }

    /**
    The token check, around one probe of plex.tv, with whatever other tasks
    write while it waits for the probe lock and for the probe. It fails only
    when plex.tv refuses the token and neither look finds a pass, and a refusal
    is not cached.
    */
    method TokenLive(sub: string, fingerprint: string, serverId: string, asked: int, waiting: seq<Write>, now: int,
                     probing: seq<Write>, probe: Probe)
      returns (live: bool)
      requires Valid()
      modifies this
      ensures Valid()
      ensures var first := old(history);
              var second := first + waiting;
              if Passed(first, sub, fingerprint, serverId, asked) then live && history == first
              else if Passed(second, sub, fingerprint, serverId, now) then live && history == second
              else
                && live == probe.Tolerated?
                && history == second + probing
                              + if live then [Write(sub, fingerprint, serverId, now)] else []
    {
      var hit := Fresh(sub, fingerprint, serverId, asked);
      if hit {
        return true;
      }
      Others(waiting);
      hit := Fresh(sub, fingerprint, serverId, now);
      if hit {
        return true;
      }
      Others(probing);
      if probe.Refused? {
        return false;
      }
      Set(sub, fingerprint, serverId, now);
      return true;
    }
  }

  /** A table one over the cap loses its oldest write. */
  method Capped(ghost h: seq<Write>, m: Entries) returns (kept: Entries)
    requires Recent(h, m) && PushedOut(h, m) && |m| <= MAX_ENTRIES + 1
    ensures Kept(h, kept)
  {
    kept := m;
    if |m| > MAX_ENTRIES {
      var some :| some in m;
      var oldest := OldestOf(m, some);
      EvictKeeps(h, m, oldest);
      kept := m - {oldest};
    }
  }

  method OldestOf(m: Entries, some: string) returns (oldest: string)
    requires some in m
    ensures oldest in m && forall s | s in m :: m[oldest].seqNo <= m[s].seqNo
  {
    oldest := some;
    var left := m.Keys;
    while left != {}
      invariant oldest in m && left <= m.Keys
      invariant forall s | s in m && s !in left :: m[oldest].seqNo <= m[s].seqNo
      decreases left
    {
      var s :| s in left;
      left := left - {s};
      if m[s].seqNo < m[oldest].seqNo {
        oldest := s;
      }
    }
  }
}
