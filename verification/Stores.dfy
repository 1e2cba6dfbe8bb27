/**
The two JSON stores behind the household veto: every member's likes and
dislikes, and the shared rejections. Lists keep the order of their rows; the
member index is a map.
*/
module Stores {
  import opened Util
  import opened Titles

  datatype Kind = Movie | Tv

  datatype Signal = Like | Dislike

  /** What one title is to every store and lock: its kind and its id. */
  datatype Key = Key(kind: Kind, id: nat)

  datatype IdTitle = IdTitle(id: nat, title: string)

  datatype KindLists = KindLists(liked: seq<IdTitle>, disliked: seq<IdTitle>)

  datatype UserFeedback = UserFeedback(movie: KindLists, tv: KindLists) {
    function Of(k: Kind): KindLists {
      if k.Movie? then movie else tv
    }

    function With(k: Kind, lists: KindLists): UserFeedback {
      if k.Movie? then this.(movie := lists) else this.(tv := lists)
    }
  }

  const NO_LISTS := KindLists([], [])
  const NO_FEEDBACK := UserFeedback(NO_LISTS, NO_LISTS)

  type FeedbackFile = map<string, UserFeedback>

  datatype Rejections = Rejections(movie: seq<IdTitle>, tv: seq<IdTitle>) {
    function Of(k: Kind): seq<IdTitle> {
      if k.Movie? then movie else tv
    }

    function With(k: Kind, rows: seq<IdTitle>): Rejections {
      if k.Movie? then this.(movie := rows) else this.(tv := rows)
    }
  }

  // --- rows --------------------------------------------------------------

  function Ids(rows: seq<IdTitle>): set<nat> {
    set e | e in rows :: e.id
  }

  function Find(rows: seq<IdTitle>, id: nat): (r: Option<IdTitle>)
    ensures r.Some? <==> id in Ids(rows)
    ensures r.Some? ==> r.value in rows && r.value.id == id
  {
    if rows == [] then None
    else if rows[0].id == id then
      assert rows[0] in rows; Some(rows[0])
    else
      assert rows == [rows[0]] + rows[1..];
      Find(rows[1..], id)
  }

  function Without(rows: seq<IdTitle>, id: nat): (r: seq<IdTitle>)
    ensures Ids(r) == Ids(rows) - {id}
  {
    if rows == [] then []
    else
      assert rows == [rows[0]] + rows[1..];
      var rest := Without(rows[1..], id);
      if rows[0].id == id then rest
      else
        assert Ids([rows[0]] + rest) == {rows[0].id} + Ids(rest) by { IdsOfConcat([rows[0]], rest); }
        [rows[0]] + rest
  }

  /** The first row of `id` takes the title; no row is added or dropped. */
  function Retitle(rows: seq<IdTitle>, id: nat, title: string): (r: seq<IdTitle>)
    ensures Ids(r) == Ids(rows)
  {
    if rows == [] then []
    else
      assert rows == [rows[0]] + rows[1..];
      var rest := Retitle(rows[1..], id, title);
      if rows[0].id == id then
        IdsOfConcat([IdTitle(id, title)], rows[1..]);
        [IdTitle(id, title)] + rows[1..]
      else
        IdsOfConcat([rows[0]], rest);
        IdsOfConcat([rows[0]], rows[1..]);
        [rows[0]] + rest
  }

  lemma {:induction false} IdsOfConcat(a: seq<IdTitle>, b: seq<IdTitle>)
    ensures Ids(a + b) == Ids(a) + Ids(b)
  {
    assert forall e :: e in a + b <==> e in a || e in b;
    forall i | i in Ids(a) + Ids(b) ensures i in Ids(a + b) {
      if i in Ids(a) {
        var e :| e in a && e.id == i;
        assert e in a + b;
      } else {
        var e :| e in b && e.id == i;
        assert e in a + b;
      }
    }
  }

  /** Loading: titles are sanitized again and the first row of an id wins. */
  function NormalizeRows(rows: seq<IdTitle>, seen: set<nat>): (r: seq<IdTitle>)
    ensures Ids(r) == Ids(rows) - seen
  {
    if rows == [] then []
    else
      assert rows == [rows[0]] + rows[1..];
      IdsOfConcat([rows[0]], rows[1..]);
      if rows[0].id in seen then NormalizeRows(rows[1..], seen)
      else
        var head := IdTitle(rows[0].id, Clean(rows[0].title, MAX_TITLE_LEN));
        var rest := NormalizeRows(rows[1..], seen + {rows[0].id});
        IdsOfConcat([head], rest);
        [head] + rest
  }

  function NormalizeLists(l: KindLists): KindLists {
    KindLists(NormalizeRows(l.liked, {}), NormalizeRows(l.disliked, {}))
  }

  function NormalizeFeedback(file: FeedbackFile): FeedbackFile {
    map sub | sub in file && sub != "" ::
      UserFeedback(NormalizeLists(file[sub].movie), NormalizeLists(file[sub].tv))
  }

  function NormalizeRejections(r: Rejections): Rejections {
    Rejections(NormalizeRows(r.movie, {}), NormalizeRows(r.tv, {}))
  }

  // --- the mutations a store call persists ---------------------------------

  function UserOf(file: FeedbackFile, sub: string): UserFeedback {
    if sub in file then file[sub] else NO_FEEDBACK
  }

  /** Like and dislike exclude each other, and the item moves to the tail. */
  function Rated(lists: KindLists, entry: IdTitle, next: Option<Signal>): KindLists {
    var liked := Without(lists.liked, entry.id);
    var disliked := Without(lists.disliked, entry.id);
    match next
    case Some(Like) => KindLists(liked + [entry], disliked)
    case Some(Dislike) => KindLists(liked, disliked + [entry])
    case None => KindLists(liked, disliked)
  }

  /** An empty title keeps the known one. */
  function SetSignal(file: FeedbackFile, sub: string, k: Key, title: string, next: Option<Signal>): FeedbackFile {
    var user := UserOf(file, sub);
    var lists := user.Of(k.kind);
    var known := Find(lists.liked + lists.disliked, k.id);
    var cleaned := Clean(title, MAX_TITLE_LEN);
    var kept := if cleaned != "" then cleaned else if known.Some? then known.value.title else "";
    file[sub := user.With(k.kind, Rated(lists, IdTitle(k.id, kept), next))]
  }

  /** Account deletion; None when there is nothing to drop. */
  function DropUser(file: FeedbackFile, sub: string): Option<FeedbackFile> {
    if sub in file then Some(file - {sub}) else None
  }

  /** Title backfill: only an existing like, only its title. */
  function BackfillLike(file: FeedbackFile, sub: string, k: Key, title: string): Option<FeedbackFile> {
    var cleaned := Clean(title, MAX_TITLE_LEN);
    if cleaned == "" || sub !in file then None
    else
      var lists := file[sub].Of(k.kind);
      var row := Find(lists.liked, k.id);
      if row.None? || row.value.title == cleaned then None
      else Some(file[sub := file[sub].With(k.kind, lists.(liked := Retitle(lists.liked, k.id, cleaned)))])
  }

  /** A fresh title upgrades a known row in place; an empty one never blanks it. */
  function AddVeto(r: Rejections, k: Key, title: string): Option<Rejections> {
    var cleaned := Clean(title, MAX_TITLE_LEN);
    var row := Find(r.Of(k.kind), k.id);
    if row.Some? && (cleaned == "" || row.value.title == cleaned) then None
    else if row.Some? then Some(r.With(k.kind, Retitle(r.Of(k.kind), k.id, cleaned)))
    else Some(r.With(k.kind, r.Of(k.kind) + [IdTitle(k.id, cleaned)]))
  }

  function BackfillVeto(r: Rejections, k: Key, title: string): Option<Rejections> {
    var cleaned := Clean(title, MAX_TITLE_LEN);
    var row := Find(r.Of(k.kind), k.id);
    if cleaned == "" || row.None? || row.value.title == cleaned then None
    else Some(r.With(k.kind, Retitle(r.Of(k.kind), k.id, cleaned)))
  }

  function RemoveVeto(r: Rejections, k: Key): Option<Rejections> {
    if k.id !in Ids(r.Of(k.kind)) then None
    else Some(r.With(k.kind, Without(r.Of(k.kind), k.id)))
  }

  /** A no-op mutation leaves the value as it is. */
  function OrSame<T>(next: Option<T>, current: T): T {
    if next.Some? then next.value else current
  }

  // --- what a title looks like in the two stores ----------------------------

  /** The members who dislike the title. */
  function Dissenters(file: FeedbackFile, k: Key): set<string> {
    set sub | sub in file && k.id in Ids(file[sub].Of(k.kind).disliked)
  }

  predicate Vetoed(r: Rejections, k: Key) {
    k.id in Ids(r.Of(k.kind))
  }

  /** True when a member other than `caller` dislikes the title. */
  predicate AnotherDislikes(file: FeedbackFile, caller: string, k: Key) {
    exists sub | sub in file :: sub != caller && k.id in Ids(file[sub].Of(k.kind).disliked)
  }

  lemma {:induction false} AnotherDislikesIsDissent(file: FeedbackFile, caller: string, k: Key)
    ensures AnotherDislikes(file, caller, k) <==> Dissenters(file, k) - {caller} != {}
  {
    if AnotherDislikes(file, caller, k) {
      var sub :| sub in file && sub != caller && k.id in Ids(file[sub].Of(k.kind).disliked);
      assert sub in Dissenters(file, k) - {caller};
    }
    if Dissenters(file, k) - {caller} != {} {
      var sub :| sub in Dissenters(file, k) - {caller};
    }
  }

  lemma {:induction false} IdsOfAppend(rows: seq<IdTitle>, e: IdTitle)
    ensures Ids(rows + [e]) == Ids(rows) + {e.id}
  {
    IdsOfConcat(rows, [e]);
    assert Ids([e]) == {e.id} by { assert e in [e]; }
  }

  lemma {:induction false} RatedDislikes(lists: KindLists, entry: IdTitle, next: Option<Signal>)
    ensures Ids(Rated(lists, entry, next).disliked)
         == Ids(lists.disliked) - {entry.id} + if next == Some(Dislike) then {entry.id} else {}
  {
    IdsOfAppend(Without(lists.disliked, entry.id), entry);
  }

  /** What one write leaves in the writer's own disliked ids of its kind. */
  lemma {:induction false} SetSignalSameKind(file: FeedbackFile, sub: string, k: Key, title: string,
                                             next: Option<Signal>)
    ensures var was := Ids(UserOf(file, sub).Of(k.kind).disliked);
            var now := SetSignal(file, sub, k, title, next);
            && sub in now
            && Ids(now[sub].Of(k.kind).disliked) == was - {k.id} + if next == Some(Dislike) then {k.id} else {}
  {
    var lists := UserOf(file, sub).Of(k.kind);
    var known := Find(lists.liked + lists.disliked, k.id);
    var cleaned := Clean(title, MAX_TITLE_LEN);
    var kept := if cleaned != "" then cleaned else if known.Some? then known.value.title else "";
    RatedDislikes(lists, IdTitle(k.id, kept), next);
  }

  /** And for any title. */
  lemma {:induction false} SetSignalOwnDislikes(file: FeedbackFile, sub: string, k: Key, title: string,
                                                next: Option<Signal>, other: Key)
    ensures var was := Ids(UserOf(file, sub).Of(other.kind).disliked);
            var now := SetSignal(file, sub, k, title, next);
            sub in now &&
            (other.id in Ids(now[sub].Of(other.kind).disliked) <==>
             if other == k then next == Some(Dislike) else other.id in was)
  {
    SetSignalSameKind(file, sub, k, title, next);
    if other.kind != k.kind {
      assert SetSignal(file, sub, k, title, next)[sub].Of(other.kind) == UserOf(file, sub).Of(other.kind);
    }
  }

  /** One write moves one member in or out of one title's dissent, whatever the lists held. */
  lemma {:induction false} SetSignalMovesOneDissenter(file: FeedbackFile, sub: string, k: Key, title: string,
                                                      next: Option<Signal>, other: Key)
    ensures Dissenters(SetSignal(file, sub, k, title, next), other) ==
            if other != k then Dissenters(file, other)
            else if next == Some(Dislike) then Dissenters(file, k) + {sub}
            else Dissenters(file, k) - {sub}
  {
    SetSignalOwnDislikes(file, sub, k, title, next, other);
    var after := SetSignal(file, sub, k, title, next);
    assert Ids([]) == {};
    assert forall u | u != sub :: (u in after <==> u in file) && (u in file ==> after[u] == file[u]);
  }

  lemma {:induction false} DropUserDropsOneDissenter(file: FeedbackFile, sub: string, k: Key)
    ensures Dissenters(OrSame(DropUser(file, sub), file), k) == Dissenters(file, k) - {sub}
  {
  }

  lemma {:induction false} BackfillLikeKeepsDissent(file: FeedbackFile, sub: string, k: Key, title: string, other: Key)
    ensures Dissenters(OrSame(BackfillLike(file, sub, k, title), file), other) == Dissenters(file, other)
  {
  }

  lemma {:induction false} AddVetoVetoesOnlyTheTitle(r: Rejections, k: Key, title: string, other: Key)
    ensures Vetoed(OrSame(AddVeto(r, k, title), r), other) <==> other == k || Vetoed(r, other)
  {
    var row := IdTitle(k.id, Clean(title, MAX_TITLE_LEN));
    IdsOfConcat(r.Of(k.kind), [row]);
    assert row in [row];
  }

  lemma {:induction false} RemoveVetoClearsOnlyTheTitle(r: Rejections, k: Key, other: Key)
    ensures Vetoed(OrSame(RemoveVeto(r, k), r), other) <==> other != k && Vetoed(r, other)
  {
  }

  lemma {:induction false} BackfillVetoKeepsTheVeto(r: Rejections, k: Key, title: string, other: Key)
    ensures Vetoed(OrSame(BackfillVeto(r, k, title), r), other) <==> Vetoed(r, other)
  {
  }

  lemma {:induction false} ReloadKeepsTheIds(file: FeedbackFile, r: Rejections, k: Key)
    ensures Dissenters(NormalizeFeedback(file), k) == Dissenters(file, k) - {""}
    ensures Vetoed(NormalizeRejections(r), k) <==> Vetoed(r, k)
  {
  }
}
