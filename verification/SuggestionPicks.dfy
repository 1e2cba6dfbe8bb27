/**
The personalized strip: a model's picks are checked against the household, the
candidate pool and TMDB; a retry and two fills complete the list. Normalizing a
title, TMDB's answers and the source lists are parameters.
*/
module SuggestionPicks {
  import opened Util

  const TARGET_COUNT: nat := 20

  datatype Provenance = Untagged | Personalized | Discover | Trending

  datatype Item = Item(id: int, title: string, year: Option<int>, provenance: Provenance)

  /** A JSON year: falsy (zero included), a number, or anything else with what JavaScript's Number makes of it. */
  datatype JsNumber = Finite(n: real) | Infinite | NaN
  datatype Year = Falsy | Number(n: real) | Text(number: JsNumber)

  datatype Pick = Pick(title: string, year: Year)

  datatype LibraryEntry = LibraryEntry(tmdbId: Option<int>, title: string)
  datatype Rejection = Rejection(id: int, title: string)

  /** The household, and how titles are normalized: in full, and up to a subtitle ("" for none). */
  datatype Household = Household(rejections: seq<Rejection>, library: seq<LibraryEntry>, movie: bool,
                                 norm: string -> string, base: string -> string)

  // --- titles ---------------------------------------------------------------------------------

  function TitleSet(h: Household, titles: seq<string>, includeBase: bool): set<string> {
    if titles == [] then {}
    else
      var t := titles[0];
      var rest := TitleSet(h, titles[1..], includeBase);
      if t == "" then rest
      else rest + {h.norm(t)} + if includeBase && h.base(t) != "" then {h.base(t)} else {}
  }

  predicate TitleMatches(h: Household, title: string, titles: set<string>) {
    titles != {} && (h.norm(title) in titles || (h.base(title) != "" && h.base(title) in titles))
  }

  function RejectedTitles(h: Household): set<string> {
    TitleSet(h, seq(|h.rejections|, i requires 0 <= i < |h.rejections| => h.rejections[i].title), false)
  }

  function LibraryTitles(h: Household): set<string> {
    TitleSet(h, seq(|h.library|, i requires 0 <= i < |h.library| => h.library[i].title), true)
  }

  predicate RejectedId(h: Household, id: int) {
    exists i | 0 <= i < |h.rejections| :: h.rejections[i].id == id
  }

  predicate OwnedId(h: Household, id: int) {
    exists i | 0 <= i < |h.library| :: h.library[i].tmdbId == Some(id)
  }

  /** What the household filter lets through. */
  predicate Safe(h: Household, it: Item) {
    && !RejectedId(h, it.id) && !OwnedId(h, it.id)
    && !TitleMatches(h, it.title, RejectedTitles(h))
    && !TitleMatches(h, it.title, LibraryTitles(h))
  }

  function HouseholdSafe(h: Household, items: seq<Item>): (r: seq<Item>)
    ensures forall i | 0 <= i < |r| :: Safe(h, r[i]) && r[i] in items
  {
    if items == [] then []
    else (if Safe(h, items[0]) then [items[0]] else []) + HouseholdSafe(h, items[1..])
  }

  // --- what TMDB's lists become -------------------------------------------------------------------

  /** A row of a TMDB list: its id if it is a number, its release date ("" when unknown), what it shows. */
  datatype Row = Row(id: Option<int>, date: string, title: string, year: Option<int>)

  /** ISO dates compare as text. */
  predicate Later(a: string, b: string) {
    a != "" && (b == "" || a[0] > b[0] || (a[0] == b[0] && Later(a[1..], b[1..])))
  }

  /** Without a day every row counts; with one, rows of a later date do not. */
  predicate Released(r: Row, today: Option<string>) {
    today.Some? ==> r.date == "" || !Later(r.date, today.value)
  }

  predicate HasId(r: Row, id: int) {
    id != 0 && r.id == Some(id)
  }

  /** The first row of each id outside `seen`, if it is released; a later row of the id never replaces it. */
  function Deduped(rows: seq<Row>, today: Option<string>, seen: set<int>): seq<Item>
    decreases |rows|
  {
    if rows == [] then []
    else
      var r := rows[0];
      if r.id.None? || r.id.value == 0 || r.id.value in seen then Deduped(rows[1..], today, seen)
      else
        (if Released(r, today) then [Item(r.id.value, r.title, r.year, Untagged)] else [])
        + Deduped(rows[1..], today, seen + {r.id.value})
  }

  /** One row moves what is still to come in front of it. */
  lemma {:induction false} DedupeStep(items: seq<Item>, rows: seq<Row>, today: Option<string>, seen: set<int>)
    requires rows != []
    ensures var r := rows[0];
            items + Deduped(rows, today, seen)
              == if r.id.None? || r.id.value == 0 || r.id.value in seen then items + Deduped(rows[1..], today, seen)
                 else (if Released(r, today) then items + [Item(r.id.value, r.title, r.year, Untagged)] else items)
                      + Deduped(rows[1..], today, seen + {r.id.value})
  {
  }

  method Dedupe(rows: seq<Row>, today: Option<string>) returns (items: seq<Item>)
    ensures items == Deduped(rows, today, {})
  {
    var seen: set<int> := {};
    items := [];
    var i := 0;
    assert rows[0..] == rows && [] + Deduped(rows, today, {}) == Deduped(rows, today, {});
    while i < |rows|
      invariant 0 <= i <= |rows|
      invariant items + Deduped(rows[i..], today, seen) == Deduped(rows, today, {})
    {
      var r := rows[i];
      assert rows[i..][1..] == rows[i + 1..];
      DedupeStep(items, rows[i..], today, seen);
      i := i + 1;
      if r.id.None? || r.id.value == 0 {
        continue;
      }
      if r.id.value in seen {
        continue;
      }
      seen := seen + {r.id.value};
      if today.Some? && r.date != "" && Later(r.date, today.value) {
        continue;
      }
      items := items + [Item(r.id.value, r.title, r.year, Untagged)];
    }
    assert items + [] == items;
  }

  // --- one pick -----------------------------------------------------------------------------------

  /** Why a pick is sent back. */
  datatype Why = NeverSuggest | InLibrary | Repeated | LookupFailed | OtherWork

  datatype Verdict = Dropped(why: Why) | Accepted(item: Item) | Lookup

  datatype Counters = Counters(lookupNulls: nat, dedupe: nat, rejected: nat, library: nat, yearMismatch: nat,
                               poolHits: nat)

  datatype Validated = Validated(accepted: seq<Item>, rejected: seq<(string, Why)>, counters: Counters)

  function Ids(items: seq<Item>): set<int> {
    set i | 0 <= i < |items| :: items[i].id
  }

  function Counted(c: Counters, why: Why): Counters {
    match why
    case NeverSuggest => c.(rejected := c.rejected + 1)
    case InLibrary => c.(library := c.library + 1)
    case Repeated => c.(dedupe := c.dedupe + 1)
    case LookupFailed => c.(lookupNulls := c.lookupNulls + 1)
    case OtherWork => c.(yearMismatch := c.yearMismatch + 1)
  }

  function DroppedTotal(c: Counters): nat {
    c.library + c.rejected + c.lookupNulls + c.yearMismatch + c.dedupe
  }

  /** The pool entries of one normalized title, in pool order. */
  function PoolOf(h: Household, pool: seq<Item>, key: string): (r: seq<Item>)
    ensures forall i | 0 <= i < |r| :: r[i] in pool
  {
    if pool == [] then []
    else (if h.norm(pool[0].title) == key then [pool[0]] else []) + PoolOf(h, pool[1..], key)
  }

  function OfYear(items: seq<Item>, year: real): (r: Option<Item>)
    ensures r.Some? ==> r.value in items
  {
    if items == [] then None
    else if items[0].year.Some? && items[0].year.value as real == year then Some(items[0])
    else OfYear(items[1..], year)
  }

  /** A year picks among the pool's namesakes; without one, only a single namesake will do. */
  function PoolItem(h: Household, pool: seq<Item>, p: Pick): (r: Option<Item>)
    ensures r.Some? ==> r.value in pool
  {
    var namesakes := PoolOf(h, pool, h.norm(p.title));
    match p.year
    case Number(n) => OfYear(namesakes, n)
    case Text(_) => None
    case Falsy => if |namesakes| == 1 then Some(namesakes[0]) else None
  }

  function FirstVerdict(h: Household, pool: seq<Item>, accepted: seq<Item>, p: Pick): Verdict {
    if TitleMatches(h, p.title, RejectedTitles(h)) then Dropped(NeverSuggest)
    else if TitleMatches(h, p.title, LibraryTitles(h)) then Dropped(InLibrary)
    else
      var item := PoolItem(h, pool, p);
      if item.None? then Lookup
      else if item.value.id in Ids(accepted) then Dropped(Repeated)
      else Accepted(item.value.(provenance := Personalized))
  }

  /** Movies only: a hit more than five years away is another work. */
  predicate YearMismatch(h: Household, p: Pick, found: Item) {
    && h.movie && found.year.Some? && found.year.value != 0
    && match p.year
       case Falsy => false
       case Number(n) => Far(found.year.value, n)
       case Text(Finite(n)) => Far(found.year.value, n)
       case Text(Infinite) => true
       case Text(NaN) => false
  }

  predicate Far(year: int, asked: real) {
    year as real - asked > 5.0 || asked - year as real > 5.0
  }

  function LookupVerdict(h: Household, accepted: seq<Item>, p: Pick, found: Option<Item>): Verdict {
    if found.None? then Dropped(LookupFailed)
    else
      var r := found.value;
      if YearMismatch(h, p, r) then Dropped(OtherWork)
      else if r.id in Ids(accepted) then Dropped(Repeated)
      else if RejectedId(h, r.id) || TitleMatches(h, r.title, RejectedTitles(h)) then Dropped(NeverSuggest)
      else if OwnedId(h, r.id) || TitleMatches(h, r.title, LibraryTitles(h)) then Dropped(InLibrary)
      else Accepted(r.(provenance := Personalized))
  }

  // --- a validation pass ----------------------------------------------------------------------------------

  function Judged(v: Validated, p: Pick, verdict: Verdict, fromPool: bool): Validated {
    match verdict
    case Dropped(why) => v.(rejected := v.rejected + [(p.title, why)], counters := Counted(v.counters, why))
    case Accepted(item) =>
      v.(accepted := v.accepted + [item],
         counters := if fromPool then v.counters.(poolHits := v.counters.poolHits + 1) else v.counters)
    case Lookup => v
  }

  predicate Full(v: Validated) {
    |v.accepted| >= TARGET_COUNT
  }

  /** The pool pass: what it leaves, and the picks still to be looked up. It stops once the list is full. */
  function PoolPass(h: Household, pool: seq<Item>, picks: seq<Pick>, v: Validated): (Validated, seq<Pick>)
    decreases |picks|
  {
    if picks == [] || Full(v) then (v, [])
    else
      var p := picks[0];
      var verdict := FirstVerdict(h, pool, v.accepted, p);
      var (w, rest) := PoolPass(h, pool, picks[1..], Judged(v, p, verdict, true));
      (w, if verdict.Lookup? then [p] + rest else rest)
  }

  /** The lookup pass; `found` is TMDB's answer to the pick at a position. */
  function LookupPass(h: Household, survivors: seq<Pick>, found: nat -> Option<Item>, at: nat, v: Validated): Validated
    decreases |survivors|
  {
    if survivors == [] || Full(v) then v
    else
      var verdict := LookupVerdict(h, v.accepted, survivors[0], found(at));
      LookupPass(h, survivors[1..], found, at + 1, Judged(v, survivors[0], verdict, false))
  }

  /** Where a pass starts. */
  function Nothing(): (v: Validated)
    ensures |v.accepted| == 0 && |v.rejected| == 0 && DroppedTotal(v.counters) == 0
  {
    Validated([], [], Counters(0, 0, 0, 0, 0, 0))
  }

  /** A whole pass, on top of what was validated before it. */
  function Checked(h: Household, pool: seq<Item>, picks: seq<Pick>, found: nat -> Option<Item>, v: Validated):
    Validated
  {
    var (w, survivors) := PoolPass(h, pool, picks, v);
    LookupPass(h, survivors, found, 0, w)
  }

  method Validate(h: Household, pool: seq<Item>, picks: seq<Pick>, found: nat -> Option<Item>)
    returns (v: Validated)
    ensures v == Checked(h, pool, picks, found, Nothing())
  {
    var survivors: seq<Pick>;
    v, survivors := TakeFromPool(h, pool, picks);
    if |v.accepted| >= TARGET_COUNT {
      return;
    }
    v := TakeLookedUp(h, survivors, found, v);
  }

  lemma {:induction false} IdsOfNext(items: seq<Item>, it: Item)
    ensures Ids(items + [it]) == Ids(items) + {it.id}
  {
    var more := items + [it];
    forall id | id in Ids(items) ensures id in Ids(more) {
      var i :| 0 <= i < |items| && items[i].id == id;
      assert more[i].id == id;
    }
    assert more[|items|].id == it.id;
  }

  /** What is left of a pass when `survivors` have already been put aside. */
  function Behind(survivors: seq<Pick>, r: (Validated, seq<Pick>)): (Validated, seq<Pick>) {
    (r.0, survivors + r.1)
  }

  lemma {:induction false} PoolStep(h: Household, pool: seq<Item>, picks: seq<Pick>, v: Validated,
                                    survivors: seq<Pick>)
    requires picks != [] && !Full(v)
    ensures var verdict := FirstVerdict(h, pool, v.accepted, picks[0]);
            Behind(survivors, PoolPass(h, pool, picks, v))
              == Behind(if verdict.Lookup? then survivors + [picks[0]] else survivors,
                        PoolPass(h, pool, picks[1..], Judged(v, picks[0], verdict, true)))
  {
    var verdict := FirstVerdict(h, pool, v.accepted, picks[0]);
    var rest := PoolPass(h, pool, picks[1..], Judged(v, picks[0], verdict, true)).1;
    assert survivors + ([picks[0]] + rest) == survivors + [picks[0]] + rest;
  }

  method TakeFromPool(h: Household, pool: seq<Item>, picks: seq<Pick>)
    returns (v: Validated, survivors: seq<Pick>)
    ensures (v, survivors) == PoolPass(h, pool, picks, Nothing())
  {
    v := Nothing();
    survivors := [];
    var seen: set<int> := {};
    var i := 0;
    assert picks[0..] == picks;
    while i < |picks| && |v.accepted| < TARGET_COUNT
      invariant 0 <= i <= |picks|
      invariant seen == Ids(v.accepted)
      invariant Behind([], PoolPass(h, pool, picks, Nothing())) == Behind(survivors, PoolPass(h, pool, picks[i..], v))
    {
      var p := picks[i];
      assert picks[i..][1..] == picks[i + 1..];
      PoolStep(h, pool, picks[i..], v, survivors);
      i := i + 1;
      if TitleMatches(h, p.title, RejectedTitles(h)) {
        v := v.(rejected := v.rejected + [(p.title, NeverSuggest)], counters := Counted(v.counters, NeverSuggest));
        continue;
      }
      if TitleMatches(h, p.title, LibraryTitles(h)) {
        v := v.(rejected := v.rejected + [(p.title, InLibrary)], counters := Counted(v.counters, InLibrary));
        continue;
      }
      var item := PoolItem(h, pool, p);
      if item.Some? {
        if item.value.id in seen {
          v := v.(rejected := v.rejected + [(p.title, Repeated)], counters := Counted(v.counters, Repeated));
          continue;
        }
        seen := seen + {item.value.id};
        var accepted := item.value.(provenance := Personalized);
        IdsOfNext(v.accepted, accepted);
        v := v.(accepted := v.accepted + [accepted], counters := v.counters.(poolHits := v.counters.poolHits + 1));
        continue;
      }
      survivors := survivors + [p];
    }
    assert survivors + [] == survivors;
    var whole := PoolPass(h, pool, picks, Nothing());
    assert [] + whole.1 == whole.1;
  }

  method TakeLookedUp(h: Household, survivors: seq<Pick>, found: nat -> Option<Item>, start: Validated)
    returns (v: Validated)
    ensures v == LookupPass(h, survivors, found, 0, start)
  {
    v := start;
    var seen := Ids(v.accepted);
    var j := 0;
    assert survivors[0..] == survivors;
    while j < |survivors| && |v.accepted| < TARGET_COUNT
      invariant 0 <= j <= |survivors|
      invariant seen == Ids(v.accepted)
      invariant LookupPass(h, survivors, found, 0, start) == LookupPass(h, survivors[j..], found, j, v)
    {
      var p, r := survivors[j], found(j);
      assert survivors[j..][1..] == survivors[j + 1..];
      j := j + 1;
      if r.None? {
        v := v.(rejected := v.rejected + [(p.title, LookupFailed)], counters := Counted(v.counters, LookupFailed));
        continue;
      }
      if YearMismatch(h, p, r.value) {
        v := v.(rejected := v.rejected + [(p.title, OtherWork)], counters := Counted(v.counters, OtherWork));
        continue;
      }
      if r.value.id in seen {
        v := v.(rejected := v.rejected + [(p.title, Repeated)], counters := Counted(v.counters, Repeated));
        continue;
      }
      if RejectedId(h, r.value.id) || TitleMatches(h, r.value.title, RejectedTitles(h)) {
        v := v.(rejected := v.rejected + [(p.title, NeverSuggest)], counters := Counted(v.counters, NeverSuggest));
        continue;
      }
      if OwnedId(h, r.value.id) || TitleMatches(h, r.value.title, LibraryTitles(h)) {
        v := v.(rejected := v.rejected + [(p.title, InLibrary)], counters := Counted(v.counters, InLibrary));
        continue;
      }
      seen := seen + {r.value.id};
      var accepted := r.value.(provenance := Personalized);
      IdsOfNext(v.accepted, accepted);
      v := v.(accepted := v.accepted + [accepted]);
    }
  }

  // --- what a pass keeps -----------------------------------------------------------------------------------

  ghost predicate Distinct(items: seq<Item>) {
    forall i, j | 0 <= i < j < |items| :: items[i].id != items[j].id
  }

  ghost predicate AllSafe(h: Household, items: seq<Item>) {
    forall i | 0 <= i < |items| :: Safe(h, items[i])
  }

  ghost predicate AllFrom(items: seq<Item>, p: Provenance) {
    forall i | 0 <= i < |items| :: items[i].provenance == p
  }

  /** A list fit to be shown: nothing twice, nothing the household would refuse, nothing too many. */
  ghost predicate Fit(h: Household, items: seq<Item>) {
    Distinct(items) && AllSafe(h, items) && AllFrom(items, Personalized) && |items| <= TARGET_COUNT
  }

  /** Every drop is counted once and fed back once. */
  ghost predicate Sound(h: Household, v: Validated) {
    Fit(h, v.accepted) && |v.rejected| == DroppedTotal(v.counters)
  }

  ghost predicate Admits(h: Household, accepted: seq<Item>, verdict: Verdict) {
    verdict.Accepted? ==>
      verdict.item.id !in Ids(accepted) && Safe(h, verdict.item) && verdict.item.provenance == Personalized
  }

  lemma {:induction false} JudgedIsSound(h: Household, v: Validated, p: Pick, verdict: Verdict, fromPool: bool)
    requires Sound(h, v) && !Full(v) && Admits(h, v.accepted, verdict)
    ensures Sound(h, Judged(v, p, verdict, fromPool))
    ensures var w := Judged(v, p, verdict, fromPool);
            |w.accepted| + |w.rejected| == |v.accepted| + |v.rejected| + if verdict.Lookup? then 0 else 1
  {
    if verdict.Accepted? {
      forall i | 0 <= i < |v.accepted| ensures v.accepted[i].id != verdict.item.id {
        assert v.accepted[i].id in Ids(v.accepted);
      }
    }
  }

  lemma {:induction false} RetaggedIsSafe(h: Household, it: Item, p: Provenance)
    ensures Safe(h, it.(provenance := p)) == Safe(h, it)
  {
  }

  lemma {:induction false} FirstVerdictAdmits(h: Household, pool: seq<Item>, accepted: seq<Item>, p: Pick)
    requires AllSafe(h, pool)
    ensures Admits(h, accepted, FirstVerdict(h, pool, accepted, p))
  {
    var item := PoolItem(h, pool, p);
    if item.Some? {
      RetaggedIsSafe(h, item.value, Personalized);
    }
  }

  lemma {:induction false} LookupVerdictAdmits(h: Household, accepted: seq<Item>, p: Pick, found: Option<Item>)
    ensures Admits(h, accepted, LookupVerdict(h, accepted, p, found))
  {
    if found.Some? {
      RetaggedIsSafe(h, found.value, Personalized);
    }
  }

  lemma {:induction false} PoolPassIsSound(h: Household, pool: seq<Item>, picks: seq<Pick>, v: Validated)
    requires AllSafe(h, pool) && Sound(h, v)
    ensures var (w, survivors) := PoolPass(h, pool, picks, v);
            && Sound(h, w)
            && |w.accepted| + |w.rejected| + |survivors| <= |v.accepted| + |v.rejected| + |picks|
            && (!Full(w) ==> |w.accepted| + |w.rejected| + |survivors| == |v.accepted| + |v.rejected| + |picks|)
    decreases |picks|
  {
    if picks != [] && !Full(v) {
      var verdict := FirstVerdict(h, pool, v.accepted, picks[0]);
      FirstVerdictAdmits(h, pool, v.accepted, picks[0]);
      JudgedIsSound(h, v, picks[0], verdict, true);
      PoolPassIsSound(h, pool, picks[1..], Judged(v, picks[0], verdict, true));
    }
  }

  lemma {:induction false} LookupPassIsSound(h: Household, survivors: seq<Pick>, found: nat -> Option<Item>, at: nat,
                                             v: Validated)
    requires Sound(h, v)
    ensures var w := LookupPass(h, survivors, found, at, v);
            && Sound(h, w)
            && |w.accepted| + |w.rejected| <= |v.accepted| + |v.rejected| + |survivors|
            && (!Full(w) ==> |w.accepted| + |w.rejected| == |v.accepted| + |v.rejected| + |survivors|)
    decreases |survivors|
  {
    if survivors != [] && !Full(v) {
      var verdict := LookupVerdict(h, v.accepted, survivors[0], found(at));
      LookupVerdictAdmits(h, v.accepted, survivors[0], found(at));
      JudgedIsSound(h, v, survivors[0], verdict, false);
      LookupPassIsSound(h, survivors[1..], found, at + 1, Judged(v, survivors[0], verdict, false));
    }
  }

  /** Only what may be shown is accepted, each drop is counted once and fed back once, and no pick is lost. */
  ghost predicate AccountsFor(h: Household, picks: seq<Pick>, v: Validated) {
    && Fit(h, v.accepted)
    && |v.rejected| == DroppedTotal(v.counters)
    && |v.accepted| + |v.rejected| <= |picks|
    && (!Full(v) ==> |v.accepted| + |v.rejected| == |picks|)
  }

  lemma {:induction false} EmptyIsFit(h: Household, items: seq<Item>)
    requires |items| == 0
    ensures Fit(h, items)
  {
  }

  lemma {:induction false} EmptyIsSound(h: Household, v: Validated)
    requires |v.accepted| == 0 && |v.rejected| == 0 && DroppedTotal(v.counters) == 0
    ensures Sound(h, v)
  {
    EmptyIsFit(h, v.accepted);
  }

  lemma {:induction false} PassesAreSound(h: Household, pool: seq<Item>, picks: seq<Pick>, found: nat -> Option<Item>,
                                          v: Validated)
    requires AllSafe(h, pool) && |v.accepted| == 0 && |v.rejected| == 0 && DroppedTotal(v.counters) == 0
    ensures AccountsFor(h, picks, Checked(h, pool, picks, found, v))
  {
    EmptyIsSound(h, v);
    PoolPassIsSound(h, pool, picks, v);
    var (w, survivors) := PoolPass(h, pool, picks, v);
    LookupPassIsSound(h, survivors, found, 0, w);
    FullStays(h, survivors, found, 0, w);
  }

  lemma {:induction false} FullStays(h: Household, survivors: seq<Pick>, found: nat -> Option<Item>, at: nat,
                                     v: Validated)
    ensures Full(v) ==> LookupPass(h, survivors, found, at, v) == v
  {
  }

  /**
  A pass accepts only what may be shown, feeds back exactly what it counted as
  dropped, and unless it filled the list every pick was either accepted or fed back.
  */
  lemma {:induction false} EveryPickIsAccountedFor(h: Household, pool: seq<Item>, picks: seq<Pick>,
                                                   found: nat -> Option<Item>)
    requires AllSafe(h, pool)
    ensures AccountsFor(h, picks, Checked(h, pool, picks, found, Nothing()))
  {
    PassesAreSound(h, pool, picks, found, Nothing());
  }

  // --- the retry ---------------------------------------------------------------------------------------------

  /** The second pass's items that are new, until the list is full. */
  function Merged(accepted: seq<Item>, extra: seq<Item>): seq<Item>
    decreases |extra|
  {
    if extra == [] || |accepted| >= TARGET_COUNT then accepted
    else Merged(if extra[0].id in Ids(accepted) then accepted else accepted + [extra[0]], extra[1..])
  }

  method MergeRetry(first: seq<Item>, extra: seq<Item>) returns (accepted: seq<Item>)
    requires |first| < TARGET_COUNT
    ensures accepted == Merged(first, extra)
  {
    accepted := first;
    var ids := Ids(accepted);
    for i := 0 to |extra|
      invariant ids == Ids(accepted) && |accepted| < TARGET_COUNT
      invariant Merged(first, extra) == Merged(accepted, extra[i..])
    {
      assert extra[i..][1..] == extra[i + 1..];
      if extra[i].id !in ids {
        ids := ids + {extra[i].id};
        IdsOfNext(accepted, extra[i]);
        accepted := accepted + [extra[i]];
        if |accepted| >= TARGET_COUNT {
          break;
        }
      }
    }
  }

  lemma {:induction false} MergedIsFit(h: Household, accepted: seq<Item>, extra: seq<Item>)
    requires Fit(h, accepted) && Fit(h, extra)
    ensures Fit(h, Merged(accepted, extra)) && accepted <= Merged(accepted, extra)
    decreases |extra|
  {
    if extra != [] && |accepted| < TARGET_COUNT {
      var next := if extra[0].id in Ids(accepted) then accepted else accepted + [extra[0]];
      forall i | 0 <= i < |accepted| && extra[0].id !in Ids(accepted) ensures accepted[i].id != extra[0].id {
        assert accepted[i].id in Ids(accepted);
      }
      assert Fit(h, next);
      assert Fit(h, extra[1..]);
      MergedIsFit(h, next, extra[1..]);
    }
  }

  // --- the fill --------------------------------------------------------------------------------------------------

  /** Items whose id is not taken, tagged with where they come from. */
  function Tagged(items: seq<Item>, taken: set<int>, p: Provenance): seq<Item> {
    if items == [] then []
    else (if items[0].id in taken then [] else [items[0].(provenance := p)]) + Tagged(items[1..], taken, p)
  }

  lemma {:induction false} DedupedIsDistinct(rows: seq<Row>, today: Option<string>, seen: set<int>)
    ensures var items := Deduped(rows, today, seen);
            Distinct(items) && forall i | 0 <= i < |items| :: items[i].id !in seen
    decreases |rows|
  {
    if rows != [] {
      var r := rows[0];
      if r.id.None? || r.id.value == 0 || r.id.value in seen {
        DedupedIsDistinct(rows[1..], today, seen);
      } else {
        DedupedIsDistinct(rows[1..], today, seen + {r.id.value});
      }
    }
  }

  /** The first row of the id, and released. */
  predicate KeptAt(rows: seq<Row>, today: Option<string>, id: int, i: nat) {
    && i < |rows| && HasId(rows[i], id) && Released(rows[i], today)
    && forall j | 0 <= j < i :: !HasId(rows[j], id)
  }

  lemma {:induction false} KeptAtShifts(rows: seq<Row>, today: Option<string>, id: int)
    requires rows != [] && !HasId(rows[0], id)
    ensures (exists i: nat :: KeptAt(rows, today, id, i)) <==> exists i: nat :: KeptAt(rows[1..], today, id, i)
  {
    var rest := rows[1..];
    assert forall i | 0 <= i < |rest| :: rest[i] == rows[i + 1];
    if i: nat :| KeptAt(rows, today, id, i) {
      assert KeptAt(rest, today, id, i - 1);
    }
    if i: nat :| KeptAt(rest, today, id, i) {
      assert KeptAt(rows, today, id, i + 1);
    }
  }

  lemma {:induction false} IdsBehind(x: Item, items: seq<Item>)
    ensures Ids([x] + items) == {x.id} + Ids(items)
  {
    var more := [x] + items;
    assert more[0] == x;
    forall id | id in Ids(items) ensures id in Ids(more) {
      var i :| 0 <= i < |items| && items[i].id == id;
      assert more[i + 1].id == id;
    }
  }

  /** An id is kept exactly when its first row is released. */
  lemma {:induction false} DedupedKeepsTheFirst(rows: seq<Row>, today: Option<string>, seen: set<int>, id: int)
    requires id !in seen
    ensures id in Ids(Deduped(rows, today, seen)) <==> exists i: nat :: KeptAt(rows, today, id, i)
    decreases |rows|
  {
    if rows != [] {
      var r, rest := rows[0], rows[1..];
      if HasId(r, id) {
        var tail := Deduped(rest, today, seen + {id});
        DedupedIsDistinct(rest, today, seen + {id});
        IdsBehind(Item(id, r.title, r.year, Untagged), tail);
        assert Released(r, today) ==> KeptAt(rows, today, id, 0);
        assert [] + tail == tail;
      } else {
        KeptAtShifts(rows, today, id);
        if r.id.None? || r.id.value == 0 || r.id.value in seen {
          DedupedKeepsTheFirst(rest, today, seen, id);
        } else {
          var tail := Deduped(rest, today, seen + {r.id.value});
          DedupedKeepsTheFirst(rest, today, seen + {r.id.value}, id);
          IdsBehind(Item(r.id.value, r.title, r.year, Untagged), tail);
          assert [] + tail == tail;
        }
      }
    }
  }

  /** Discover first; trending only while the list stays short. */
  function FillFor(h: Household, accepted: seq<Item>, discover: seq<Item>, trending: seq<Item>): seq<Item> {
    var fill := Tagged(HouseholdSafe(h, discover), Ids(accepted), Discover);
    if |accepted| + |fill| < TARGET_COUNT
    then fill + Tagged(HouseholdSafe(h, trending), Ids(accepted) + Ids(fill), Trending)
    else fill
  }

  /** The two lists as they leave TMDB's client: deduplicated, and the discover list released by `today`. */
  function Fill(h: Household, accepted: seq<Item>, discover: seq<Row>, trending: seq<Row>, today: string): seq<Item> {
    FillFor(h, accepted, Deduped(discover, Some(today), {}), Deduped(trending, None, {}))
  }

  /** The list that is served: what was accepted, and a fill when it is short. */
  function Served(h: Household, accepted: seq<Item>, discover: seq<Row>, trending: seq<Row>, today: string): seq<Item> {
    if |accepted| < TARGET_COUNT then Take(accepted + Fill(h, accepted, discover, trending, today), TARGET_COUNT)
    else Take(accepted, TARGET_COUNT)
  }

  /** The pool is TMDB's discover list without what the household refuses, in any order. */
  predicate PoolFrom(h: Household, pool: seq<Item>, rows: seq<Row>, today: string) {
    multiset(pool) == multiset(HouseholdSafe(h, Deduped(rows, Some(today), {})))
  }

  lemma {:induction false} PoolIsSafe(h: Household, pool: seq<Item>, rows: seq<Row>, today: string)
    requires PoolFrom(h, pool, rows, today)
    ensures AllSafe(h, pool)
  {
    var safe := HouseholdSafe(h, Deduped(rows, Some(today), {}));
    forall i | 0 <= i < |pool| ensures Safe(h, pool[i]) {
      assert pool[i] in multiset(pool);
      assert pool[i] in safe;
    }
  }

  lemma {:induction false} TaggedIsSafe(h: Household, items: seq<Item>, taken: set<int>, p: Provenance)
    requires AllSafe(h, items)
    ensures var r := Tagged(items, taken, p);
            AllSafe(h, r) && AllFrom(r, p) && forall i | 0 <= i < |r| :: r[i].id !in taken && r[i].id in Ids(items)
  {
    if items != [] {
      TaggedIsSafe(h, items[1..], taken, p);
      RetaggedIsSafe(h, items[0], p);
      assert forall i | 0 <= i < |items| - 1 :: items[1..][i] == items[i + 1];
      assert items[0].id in Ids(items);
    }
  }

  lemma {:induction false} TaggedIsDistinct(items: seq<Item>, taken: set<int>, p: Provenance)
    requires Distinct(items)
    ensures Distinct(Tagged(items, taken, p))
    ensures forall i | 0 <= i < |Tagged(items, taken, p)| :: Tagged(items, taken, p)[i].id in Ids(items)
  {
    if items != [] {
      assert forall i | 0 <= i < |items| - 1 :: items[1..][i] == items[i + 1];
      TaggedIsDistinct(items[1..], taken, p);
      var rest := Tagged(items[1..], taken, p);
      assert items[0].id in Ids(items);
      forall i | 0 <= i < |rest| ensures rest[i].id != items[0].id && rest[i].id in Ids(items) {
        assert rest[i].id in Ids(items[1..]);
      }
    }
  }

  lemma {:induction false} SafeIsDistinct(h: Household, items: seq<Item>)
    requires Distinct(items)
    ensures Distinct(HouseholdSafe(h, items))
  {
    if items != [] {
      assert forall i | 0 <= i < |items| - 1 :: items[1..][i] == items[i + 1];
      SafeIsDistinct(h, items[1..]);
      var rest := HouseholdSafe(h, items[1..]);
      forall i | 0 <= i < |rest| ensures rest[i].id != items[0].id {
        assert rest[i] in items[1..];
      }
    }
  }

  /** The fill is safe, and never repeats what was accepted. */
  lemma {:induction false} FillIsSafe(h: Household, accepted: seq<Item>, discover: seq<Item>, trending: seq<Item>)
    ensures var fill := FillFor(h, accepted, discover, trending);
            AllSafe(h, fill)
            && forall i | 0 <= i < |fill| :: fill[i].id !in Ids(accepted) && fill[i].provenance in {Discover, Trending}
  {
    var found := Tagged(HouseholdSafe(h, discover), Ids(accepted), Discover);
    TaggedIsSafe(h, HouseholdSafe(h, discover), Ids(accepted), Discover);
    TaggedIsSafe(h, HouseholdSafe(h, trending), Ids(accepted) + Ids(found), Trending);
  }

  lemma {:induction false} FillIsDistinct(h: Household, accepted: seq<Item>, discover: seq<Item>, trending: seq<Item>)
    requires Distinct(discover) && Distinct(trending)
    ensures Distinct(FillFor(h, accepted, discover, trending))
  {
    var found := Tagged(HouseholdSafe(h, discover), Ids(accepted), Discover);
    var more := Tagged(HouseholdSafe(h, trending), Ids(accepted) + Ids(found), Trending);
    SafeIsDistinct(h, discover);
    SafeIsDistinct(h, trending);
    TaggedIsDistinct(HouseholdSafe(h, discover), Ids(accepted), Discover);
    TaggedIsDistinct(HouseholdSafe(h, trending), Ids(accepted) + Ids(found), Trending);
    TaggedIsSafe(h, HouseholdSafe(h, trending), Ids(accepted) + Ids(found), Trending);
    forall i, j | 0 <= i < |found| && 0 <= j < |more| ensures found[i].id != more[j].id {
      assert found[i].id in Ids(found);
    }
  }

  /**
  The whole path, on whatever rows TMDB sends: at most twenty items, the
  personalized ones first, nothing the household filter would remove, and nothing twice.
  */
  lemma {:induction false} ServedListIsFit(h: Household, poolRows: seq<Row>, poolDay: string, pool: seq<Item>,
                                           picks: seq<Pick>, found: nat -> Option<Item>,
                                           retry: Option<seq<Pick>>, foundAgain: nat -> Option<Item>,
                                           discover: seq<Row>, trending: seq<Row>, today: string)
    requires PoolFrom(h, pool, poolRows, poolDay)
    ensures var first := Checked(h, pool, picks, found, Nothing()).accepted;
            var accepted := if retry.Some? && |first| < TARGET_COUNT
                            then Merged(first, Checked(h, pool, retry.value, foundAgain, Nothing()).accepted)
                            else first;
            var served := Served(h, accepted, discover, trending, today);
            && |served| <= TARGET_COUNT && first <= accepted <= served
            && AllSafe(h, served) && Distinct(served)
            && AllFrom(accepted, Personalized)
            && (forall i | |accepted| <= i < |served| :: served[i].provenance in {Discover, Trending})
  {
    PoolIsSafe(h, pool, poolRows, poolDay);
    EveryPickIsAccountedFor(h, pool, picks, found);
    var accepted := Checked(h, pool, picks, found, Nothing()).accepted;
    if retry.Some? && |accepted| < TARGET_COUNT {
      EveryPickIsAccountedFor(h, pool, retry.value, foundAgain);
      MergedIsFit(h, accepted, Checked(h, pool, retry.value, foundAgain, Nothing()).accepted);
      accepted := Merged(accepted, Checked(h, pool, retry.value, foundAgain, Nothing()).accepted);
    }
    ServedIsFit(h, accepted, discover, trending, today);
  }

  lemma {:induction false} ServedIsFit(h: Household, accepted: seq<Item>, discover: seq<Row>, trending: seq<Row>,
                                       today: string)
    requires Fit(h, accepted)
    ensures var served := Served(h, accepted, discover, trending, today);
            && |served| <= TARGET_COUNT && accepted <= served && AllSafe(h, served) && Distinct(served)
            && (forall i | |accepted| <= i < |served| :: served[i].provenance in {Discover, Trending})
  {
    if |accepted| < TARGET_COUNT {
      var d, t := Deduped(discover, Some(today), {}), Deduped(trending, None, {});
      DedupedIsDistinct(discover, Some(today), {});
      DedupedIsDistinct(trending, None, {});
      FillIsSafe(h, accepted, d, t);
      FillIsDistinct(h, accepted, d, t);
      forall i | 0 <= i < |accepted| ensures accepted[i].id in Ids(accepted) {
      }
    }
  }

  // --- what safe means, title by title -----------------------------------------------------------------------------

  lemma {:induction false} TitleSetHas(h: Household, titles: seq<string>, includeBase: bool, key: string)
    ensures key in TitleSet(h, titles, includeBase)
        <==> exists i | 0 <= i < |titles| ::
               titles[i] != "" && (key == h.norm(titles[i]) || (includeBase && key != "" && key == h.base(titles[i])))
  {
    if titles != [] {
      TitleSetHas(h, titles[1..], includeBase, key);
      assert forall i | 0 <= i < |titles| - 1 :: titles[1..][i] == titles[i + 1];
      if exists i | 0 <= i < |titles| ::
           titles[i] != "" && (key == h.norm(titles[i]) || (includeBase && key != "" && key == h.base(titles[i])))
      {
        var i :| 0 <= i < |titles| && titles[i] != ""
                 && (key == h.norm(titles[i]) || (includeBase && key != "" && key == h.base(titles[i])));
        assert i > 0 ==> titles[1..][i - 1] == titles[i];
      }
    }
  }

  /**
  A safe item shares no id and no full title with anything rejected or owned,
  and is no other cut of an owned title; a rejection bans no franchise.
  */
  lemma {:induction false} SafeMeansUnrelated(h: Household, it: Item)
    requires Safe(h, it)
    ensures forall r | r in h.rejections ::
              r.id != it.id && (r.title != "" ==> h.norm(r.title) !in Forms(h, it.title))
    ensures forall l | l in h.library ::
              && l.tmdbId != Some(it.id)
              && (l.title != "" ==> Unrelated(h, it.title, l.title))
  {
    var rejected := seq(|h.rejections|, i requires 0 <= i < |h.rejections| => h.rejections[i].title);
    var owned := seq(|h.library|, i requires 0 <= i < |h.library| => h.library[i].title);
    forall r | r in h.rejections
      ensures r.id != it.id && (r.title != "" ==> h.norm(r.title) !in Forms(h, it.title))
    {
      var i :| 0 <= i < |h.rejections| && h.rejections[i] == r;
      assert rejected[i] == r.title;
      TitleSetHas(h, rejected, false, h.norm(r.title));
    }
    forall l | l in h.library
      ensures l.tmdbId != Some(it.id)
      ensures l.title != "" ==> Unrelated(h, it.title, l.title)
    {
      var i :| 0 <= i < |h.library| && h.library[i] == l;
      assert owned[i] == l.title;
      TitleSetHas(h, owned, true, h.norm(l.title));
      TitleSetHas(h, owned, true, h.base(l.title));
    }
  }

  /** Neither the owned title nor its base is a form of the other. */
  predicate Unrelated(h: Household, title: string, owned: string) {
    h.norm(owned) !in Forms(h, title) && (h.base(owned) != "" ==> h.base(owned) !in Forms(h, title))
  }

  /** The forms a title is looked for under. */
  function Forms(h: Household, title: string): set<string> {
    {h.norm(title)} + if h.base(title) != "" then {h.base(title)} else {}
  }
}
