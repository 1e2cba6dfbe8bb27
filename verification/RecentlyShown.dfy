/**
What each user was shown lately: newest first, one entry per id, at most 150 of
them, for at most 200 users. The oldest-used user is dropped when a new one
does not fit.
*/
module RecentlyShown {
  import opened Util

  const CAP: nat := 150
  const MAX_KEYS: nat := 200

  /** A suggested item, as far as the record reads it. */
  datatype Shown = Shown(id: int, title: string)

  /** A user's list, under its sub and kind. */
  datatype Entry = Entry(key: string, list: seq<Shown>)

  // --- lists ------------------------------------------------------------------------------

  predicate Kept(s: Shown) {
    s.title != "" && s.id >= 0
  }

  function Titled(batch: seq<Shown>): seq<Shown> {
    if batch == [] then []
    else (if Kept(batch[0]) then [batch[0]] else []) + Titled(batch[1..])
  }

  function Ids(s: seq<Shown>): set<int> {
    if s == [] then {} else {s[0].id} + Ids(s[1..])
  }

  /** The first occurrence of every id outside `seen`. */
  function Fresh(s: seq<Shown>, seen: set<int>): seq<Shown>
    decreases |s|
  {
    if s == [] then []
    else if s[0].id in seen then Fresh(s[1..], seen)
    else [s[0]] + Fresh(s[1..], seen + {s[0].id})
  }

  /** The newest batch on top, each id once, cut at the cap. */
  function Merged(prev: seq<Shown>, batch: seq<Shown>): seq<Shown> {
    Take(Fresh(Titled(batch) + prev, {}), CAP)
  }

  lemma {:induction false} FreshOfConcat(a: seq<Shown>, b: seq<Shown>, seen: set<int>)
    ensures Fresh(a + b, seen) == Fresh(a, seen) + Fresh(b, seen + Ids(a))
    decreases |a|
  {
    if a == [] {
      assert a + b == b && seen + Ids(a) == seen;
    } else {
      assert (a + b)[1..] == a[1..] + b;
      var now := if a[0].id in seen then seen else seen + {a[0].id};
      FreshOfConcat(a[1..], b, now);
      assert now + Ids(a[1..]) == seen + Ids(a);
    }
  }

  lemma {:induction false} FreshTwice(s: seq<Shown>, a: set<int>, b: set<int>)
    ensures Fresh(Fresh(s, a), b) == Fresh(s, a + b)
    decreases |s|
  {
    if s != [] {
      var id := s[0].id;
      if id in a {
        FreshTwice(s[1..], a, b);
      } else {
        var rest := Fresh(s[1..], a + {id});
        assert ([s[0]] + rest)[1..] == rest;
        if id in b {
          FreshTwice(s[1..], a + {id}, b);
          assert a + {id} + b == a + b;
        } else {
          FreshTwice(s[1..], a + {id}, b + {id});
          assert a + {id} + (b + {id}) == a + b + {id};
        }
      }
    }
  }

  lemma {:induction false} FreshCounts(s: seq<Shown>, seen: set<int>)
    ensures |Fresh(s, seen)| == |Ids(s) - seen|
    decreases |s|
  {
    if s != [] {
      var id := s[0].id;
      if id in seen {
        FreshCounts(s[1..], seen);
        assert Ids(s) - seen == Ids(s[1..]) - seen;
      } else {
        FreshCounts(s[1..], seen + {id});
        var rest := Ids(s[1..]) - (seen + {id});
        assert Ids(s) - seen == rest + {id};
      }
    }
  }

  /** The ids of a list without repetitions are as many as its entries. */
  lemma {:induction false} IdsOfFresh(s: seq<Shown>, seen: set<int>, n: nat)
    requires n <= |Fresh(s, seen)|
    ensures |Ids(Fresh(s, seen)[..n])| == n
    ensures Ids(Fresh(s, seen)[..n]) !! seen
    decreases |s|
  {
    if n > 0 {
      if s[0].id in seen {
        IdsOfFresh(s[1..], seen, n);
      } else {
        var now := seen + {s[0].id};
        IdsOfFresh(s[1..], now, n - 1);
        var f := Fresh(s, seen)[..n];
        assert f[1..] == Fresh(s[1..], now)[..n - 1];
        assert Ids(f) == {s[0].id} + Ids(f[1..]);
      }
    }
  }

  lemma {:induction false} SubtractBound(a: set<int>, b: set<int>)
    ensures |a - b| >= |a| - |b|
  {
    assert |a| == |a - b| + |a * b| by {
      assert a == (a - b) + (a * b);
    }
    assert |b| == |b - a| + |a * b| by {
      assert b == (b - a) + (a * b);
    }
  }

  /** Behind `newer`, which holds the ids already seen, only the first entries of a long list can matter. */
  lemma {:induction false} CutBehind(newer: seq<Shown>, ids: set<int>, top: seq<Shown>, below: seq<Shown>)
    requires |newer| == |ids| && |Ids(top)| >= CAP
    ensures Take(newer + Fresh(top, ids), CAP) == Take(newer + Fresh(top + below, ids), CAP)
  {
    FreshOfConcat(top, below, ids);
    FreshCounts(top, ids);
    SubtractBound(Ids(top), ids);
    var shown := newer + Fresh(top, ids);
    var deep := Fresh(below, ids + Ids(top));
    assert newer + Fresh(top + below, ids) == shown + deep;
    assert |shown| >= CAP;
    assert (shown + deep)[..CAP] == shown[..CAP];
  }

  /** Cutting the older list first loses nothing: the newer batch only pushes entries further down. */
  lemma {:induction false} CutIsInvisible(batch: seq<Shown>, history: seq<Shown>)
    ensures Take(Fresh(batch + Take(Fresh(history, {}), CAP), {}), CAP) == Take(Fresh(batch + history, {}), CAP)
  {
    var d := Fresh(history, {});
    var newer, ids := Fresh(batch, {}), Ids(batch);
    assert {} + ids == ids && ids - {} == ids;
    FreshOfConcat(batch, history, {});
    FreshTwice(history, {}, ids);
    FreshOfConcat(batch, Take(d, CAP), {});
    if |d| > CAP {
      FreshCounts(batch, {});
      IdsOfFresh(history, {}, CAP);
      assert d[..CAP] + d[CAP..] == d;
      CutBehind(newer, ids, d[..CAP], d[CAP..]);
    }
  }

  // --- the table --------------------------------------------------------------------------------

  function Find(entries: seq<Entry>, key: string): (r: Option<nat>)
    ensures r.Some? ==> r.value < |entries| && entries[r.value].key == key
    ensures r.None? ==> forall i | 0 <= i < |entries| :: entries[i].key != key
  {
    if entries == [] then None
    else if entries[0].key == key then Some(0)
    else
      var rest := Find(entries[1..], key);
      if rest.None? then None
      else Some(rest.value + 1)
  }

  function Stored(entries: seq<Entry>, key: string): seq<Shown> {
    var at := Find(entries, key);
    if at.None? then [] else entries[at.value].list
  }

  /** An existing key keeps its place, a new one goes last. */
  function Put(entries: seq<Entry>, key: string, list: seq<Shown>): seq<Entry> {
    var at := Find(entries, key);
    if at.None? then entries + [Entry(key, list)] else entries[at.value := Entry(key, list)]
  }

  /** Only the last-used keys stay. */
  function Evicted(entries: seq<Entry>): seq<Entry> {
    if |entries| <= MAX_KEYS then entries else entries[|entries| - MAX_KEYS..]
  }

  function Moved(entries: seq<Entry>, key: string): seq<Entry> {
    var at := Find(entries, key);
    if at.None? then entries
    else entries[..at.value] + entries[at.value + 1..] + [entries[at.value]]
  }

  class Recent {
    /** In order of use, the least recently read first. */
    var entries: seq<Entry>

    constructor ()
      ensures entries == []
    {
      entries := [];
    }

    method RecentlyShown(key: string) returns (r: seq<Shown>)
      modifies this
      ensures r == Stored(old(entries), key)
      ensures entries == Moved(old(entries), key)
    {
      var at := Find(entries, key);
      if at.None? {
        return [];
      }
      var e := entries[at.value];
      entries := entries[..at.value] + entries[at.value + 1..];
      entries := entries + [e];
      r := e.list;
    }

    method RecordShown(key: string, items: seq<Shown>)
      modifies this
      ensures entries == Evicted(Put(old(entries), key, Merged(Stored(old(entries), key), items)))
    {
      var merged := Merge(Stored(entries, key), items);
      entries := Put(entries, key, merged);
      ghost var full := entries;
      while |entries| > MAX_KEYS
        invariant |entries| <= |full| && entries == full[|full| - |entries|..]
        invariant |full| > MAX_KEYS ==> |entries| >= MAX_KEYS
        invariant |full| <= MAX_KEYS ==> entries == full
      {
        entries := entries[1..];
      }
    }
  }

  lemma {:induction false} FreshOfNext(x: Shown, rest: seq<Shown>, seen: set<int>)
    ensures Fresh([x] + rest, seen)
         == if x.id in seen then Fresh(rest, seen) else [x] + Fresh(rest, seen + {x.id})
  {
    assert ([x] + rest)[1..] == rest;
  }

  /** Titled items go to the front, deduplicated by id; older ones fill up to the cap. */
  method Merge(prev: seq<Shown>, items: seq<Shown>) returns (merged: seq<Shown>)
    ensures merged == Merged(prev, items)
  {
    var seen: set<int> := {};
    merged := [];
    ghost var all := Fresh(Titled(items) + prev, {});
    for i := 0 to |items|
      invariant merged + Fresh(Titled(items[i..]) + prev, seen) == all
    {
      var rest := items[i + 1..];
      assert items[i..][1..] == rest && items[i..][0] == items[i];
      if Kept(items[i]) {
        assert Titled(items[i..]) + prev == [items[i]] + (Titled(rest) + prev);
        FreshOfNext(items[i], Titled(rest) + prev, seen);
        if items[i].id !in seen {
          seen := seen + {items[i].id};
          merged := merged + [items[i]];
        }
      } else {
        assert Titled(items[i..]) == [] + Titled(rest);
        assert [] + Titled(rest) == Titled(rest);
      }
    }
    assert items[|items|..] == [] && prev[0..] == prev && Titled([]) + prev == prev;
    merged := FillUp(prev, merged, seen);
  }

  method FillUp(prev: seq<Shown>, newer: seq<Shown>, ids: set<int>) returns (merged: seq<Shown>)
    ensures merged == Take(newer + Fresh(prev, ids), CAP)
  {
    var seen := ids;
    merged := newer;
    var j := 0;
    assert prev[0..] == prev;
    while j < |prev| && |merged| < CAP
      invariant 0 <= j <= |prev|
      invariant merged + Fresh(prev[j..], seen) == newer + Fresh(prev, ids)
    {
      assert prev[j..][1..] == prev[j + 1..];
      if prev[j].id !in seen {
        seen := seen + {prev[j].id};
        merged := merged + [prev[j]];
      }
      j := j + 1;
    }
    assert |merged| < CAP ==> prev[j..] == [];
    merged := Take(merged, CAP);
  }

  // --- runs ----------------------------------------------------------------------------------------

  datatype Event = Read(key: string) | Record(key: string, items: seq<Shown>)

  function Step(entries: seq<Entry>, e: Event): seq<Entry> {
    match e
    case Read(key) => Moved(entries, key)
    case Record(key, items) => Evicted(Put(entries, key, Merged(Stored(entries, key), items)))
  }

  function Run(events: seq<Event>): seq<Entry> {
    if events == [] then [] else Step(Run(events[..|events| - 1]), events[|events| - 1])
  }

  /** The same table keeping everything it was ever given, newest first. */
  function Whole(events: seq<Event>): seq<Entry> {
    if events == [] then []
    else
      var before := Whole(events[..|events| - 1]);
      match events[|events| - 1]
      case Read(key) => Moved(before, key)
      case Record(key, items) => Evicted(Put(before, key, Titled(items) + Stored(before, key)))
  }

  /** The list is the start of the whole history, with each id once. */
  ghost predicate ShowsAt(e: Entry, whole: Entry) {
    e.key == whole.key && e.list == Take(Fresh(whole.list, {}), CAP)
  }

  ghost predicate Shows(entries: seq<Entry>, whole: seq<Entry>) {
    |entries| == |whole| && forall i | 0 <= i < |entries| :: ShowsAt(entries[i], whole[i])
  }

  lemma {:induction false} ShowsFinds(entries: seq<Entry>, whole: seq<Entry>, key: string)
    requires Shows(entries, whole)
    ensures Find(entries, key) == Find(whole, key)
    ensures Stored(entries, key) == Take(Fresh(Stored(whole, key), {}), CAP)
  {
    if entries != [] {
      assert forall i | 0 <= i < |entries| - 1 :: entries[1..][i] == entries[i + 1] && whole[1..][i] == whole[i + 1];
      ShowsFinds(entries[1..], whole[1..], key);
    }
  }

  /** Where the entry at `i` came from when the one at `at` moved last. */
  function Source(at: nat, n: nat, i: nat): nat {
    if i < at then i else if i < n - 1 then i + 1 else at
  }

  lemma {:induction false} MovedAt(entries: seq<Entry>, key: string, i: nat)
    requires Find(entries, key).Some? && i < |entries|
    ensures |Moved(entries, key)| == |entries|
    ensures Moved(entries, key)[i] == entries[Source(Find(entries, key).value, |entries|, i)]
  {
  }

  lemma {:induction false} ShowsMoved(entries: seq<Entry>, whole: seq<Entry>, key: string)
    requires Shows(entries, whole)
    ensures Shows(Moved(entries, key), Moved(whole, key))
  {
    ShowsFinds(entries, whole, key);
    if Find(entries, key).Some? {
      forall i | 0 <= i < |entries|
        ensures |Moved(entries, key)| == |Moved(whole, key)| == |entries|
        ensures ShowsAt(Moved(entries, key)[i], Moved(whole, key)[i])
      {
        MovedAt(entries, key, i);
        MovedAt(whole, key, i);
        assert ShowsAt(entries[Source(Find(entries, key).value, |entries|, i)],
                       whole[Source(Find(entries, key).value, |entries|, i)]);
      }
    }
  }

  lemma {:induction false} ShowsPut(entries: seq<Entry>, whole: seq<Entry>, key: string, list: seq<Shown>,
                                    history: seq<Shown>)
    requires Shows(entries, whole) && ShowsAt(Entry(key, list), Entry(key, history))
    ensures Shows(Put(entries, key, list), Put(whole, key, history))
  {
    ShowsFinds(entries, whole, key);
  }

  lemma {:induction false} ShowsEvicted(entries: seq<Entry>, whole: seq<Entry>)
    requires Shows(entries, whole)
    ensures Shows(Evicted(entries), Evicted(whole))
  {
  }

  /** Truncating at every step loses nothing against the unbounded history, for as long as a key is kept. */
  lemma {:induction false} NothingShownIsLost(events: seq<Event>)
    ensures Shows(Run(events), Whole(events))
  {
    if events != [] {
      var n := |events| - 1;
      NothingShownIsLost(events[..n]);
      var entries, whole := Run(events[..n]), Whole(events[..n]);
      match events[n]
      case Read(key) =>
        ShowsMoved(entries, whole, key);
      case Record(key, items) =>
        ShowsFinds(entries, whole, key);
        CutIsInvisible(Titled(items), Stored(whole, key));
        var list, history := Merged(Stored(entries, key), items), Titled(items) + Stored(whole, key);
        ShowsPut(entries, whole, key, list, history);
        ShowsEvicted(Put(entries, key, list), Put(whole, key, history));
    }
  }

  ghost predicate Distinct(entries: seq<Entry>) {
    forall i, j | 0 <= i < j < |entries| :: entries[i].key != entries[j].key
  }

  lemma {:induction false} MovedIsBounded(entries: seq<Entry>, key: string)
    requires Distinct(entries) && |entries| <= MAX_KEYS
    ensures Distinct(Moved(entries, key)) && |Moved(entries, key)| == |entries|
  {
  }

  lemma {:induction false} PutIsBounded(entries: seq<Entry>, key: string, list: seq<Shown>)
    requires Distinct(entries) && |entries| <= MAX_KEYS
    ensures var now := Evicted(Put(entries, key, list));
            && Distinct(now) && |now| <= MAX_KEYS
            && exists i | 0 <= i < |now| :: now[i] == Entry(key, list)
  {
    var at := Find(entries, key);
    var full := Put(entries, key, list);
    assert Distinct(full);
    var k := if at.None? then |full| - 1 else at.value;
    var now := Evicted(full);
    assert now[k - (|full| - |now|)] == full[k] == Entry(key, list);
  }

  /** One list per key and never too many keys; what was just recorded is never what is dropped. */
  lemma {:induction false} TableIsBounded(events: seq<Event>)
    ensures var entries := Run(events);
            && Distinct(entries) && |entries| <= MAX_KEYS
            && (events != [] && events[|events| - 1].Record? ==>
                  exists i | 0 <= i < |entries| :: entries[i].key == events[|events| - 1].key)
  {
    if events != [] {
      var n := |events| - 1;
      TableIsBounded(events[..n]);
      match events[n]
      case Read(key) =>
        MovedIsBounded(Run(events[..n]), key);
      case Record(key, items) =>
        PutIsBounded(Run(events[..n]), key, Merged(Stored(Run(events[..n]), key), items));
    }
  }
}
