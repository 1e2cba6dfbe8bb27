/**
Watch-together groups: a shared transport that is stamped only when commanded,
a roster pruned on every request, and a version that pollers compare. Seconds
are reals and positions are those before the snapshot rounds them.
*/
module SyncPlay {
  import opened Util

  const MEMBER_IDLE_MS: int := 60_000

  datatype Member = Member(sub: string, username: string, lastSeen: int)

  datatype Group = Group(host: string, kind: string, media: nat, paused: bool, position: real, at: int, version: nat,
                         members: seq<Member>)

  type Groups = map<string, Group>

  // --- a group ------------------------------------------------------------------------------

  function Subs(members: seq<Member>): (r: seq<string>)
    ensures |r| == |members| && forall i | 0 <= i < |r| :: r[i] == members[i].sub
  {
    seq(|members|, i requires 0 <= i < |members| => members[i].sub)
  }

  function Elapsed(from: int, to: int): real {
    (to - from) as real / 1000.0
  }

  function Clamp(x: real): real {
    if x < 0.0 then 0.0 else x
  }

  /** Frozen while paused, advanced by the clock while playing. */
  function Position(g: Group, now: int): real {
    if g.paused then g.position else Clamp(g.position + Elapsed(g.at, now))
  }

  function Rehosted(g: Group): Group {
    if g.members == [] then g else g.(host := g.members[0].sub)
  }

  /** The roster without `gone`, in join order. */
  function Without(members: seq<Member>, gone: set<string>): seq<Member> {
    if members == [] then []
    else if members[0].sub in gone then Without(members[1..], gone)
    else [members[0]] + Without(members[1..], gone)
  }

  predicate Idle(m: Member, now: int) {
    now - m.lastSeen > MEMBER_IDLE_MS
  }

  function Live(members: seq<Member>, now: int): (r: seq<Member>)
    ensures forall i | 0 <= i < |r| :: !Idle(r[i], now)
    ensures |r| <= |members|
    ensures |r| == |members| ==> r == members
  {
    if members == [] then []
    else if Idle(members[0], now) then Live(members[1..], now)
    else [members[0]] + Live(members[1..], now)
  }

  /** Who is left after pruning; the version moves once when anyone went. */
  function Pruned(g: Group, now: int): Group
    requires Live(g.members, now) != []
  {
    var live := Live(g.members, now);
    g.(members := live,
       host := if g.host in Subs(live) then g.host else live[0].sub,
       version := if |live| < |g.members| then g.version + 1 else g.version)
  }

  function AllPruned(groups: Groups, now: int): Groups {
    map id | id in groups && Live(groups[id].members, now) != [] :: Pruned(groups[id], now)
  }

  /** Inserting an existing key keeps its place. */
  function Seated(members: seq<Member>, m: Member): (r: seq<Member>)
    ensures r != []
  {
    if members == [] then [m]
    else if members[0].sub == m.sub then [m] + members[1..]
    else [members[0]] + Seated(members[1..], m)
  }

  function Touched(members: seq<Member>, sub: string, now: int): (r: seq<Member>)
    ensures |r| == |members|
    ensures forall i | 0 <= i < |r| ::
              r[i] == if members[i].sub == sub then members[i].(lastSeen := now) else members[i]
  {
    seq(|members|, i requires 0 <= i < |members| =>
      if members[i].sub == sub then members[i].(lastSeen := now) else members[i])
  }

  datatype Command = Play | Pause | Seek

  function Commanded(g: Group, sub: string, c: Command, position: Option<real>, now: int): Group {
    g.(members := Touched(g.members, sub, now),
       position := Clamp(if position.Some? then position.value else Position(g, now)),
       at := now,
       paused := match c case Play => false case Pause => true case Seek => g.paused,
       version := g.version + 1)
  }

  function Left(g: Group, sub: string): Group {
    var rest := Without(g.members, {sub});
    var g' := g.(members := rest, version := g.version + 1);
    if g.host == sub then Rehosted(g') else g'
  }

  // --- one request -----------------------------------------------------------------------------

  datatype Event =
    | Create(id: string, kind: string, media: nat, sub: string, username: string, now: int)
    | Join(id: string, sub: string, username: string, now: int)
    | Leave(id: string, sub: string, now: int)
    | Poll(id: string, sub: string, now: int)
    | Steer(id: string, sub: string, c: Command, position: Option<real>, now: int)
    | List(now: int)

  /** A seek must say where to. */
  predicate Malformed(e: Event) {
    e.Steer? && e.c.Seek? && e.position.None?
  }

  predicate IsMember(groups: Groups, id: string, sub: string) {
    id in groups && sub in Subs(groups[id].members)
  }

  function Applied(groups: Groups, e: Event): Groups {
    match e
    case Create(id, kind, media, sub, username, now) =>
      groups[id := Group(sub, kind, media, true, 0.0, now, 1, [Member(sub, username, now)])]
    case Join(id, sub, username, now) =>
      if id !in groups then groups
      else
        var g := groups[id];
        groups[id := g.(members := Seated(g.members, Member(sub, username, now)), version := g.version + 1)]
    case Leave(id, sub, now) =>
      if id !in groups then groups
      else if Without(groups[id].members, {sub}) == [] then groups - {id}
      else groups[id := Left(groups[id], sub)]
    case Poll(id, sub, now) =>
      if !IsMember(groups, id, sub) then groups
      else groups[id := groups[id].(members := Touched(groups[id].members, sub, now))]
    case Steer(id, sub, c, position, now) =>
      if !IsMember(groups, id, sub) then groups
      else groups[id := Commanded(groups[id], sub, c, position, now)]
    case List(now) => groups
  }

  /** Every well-formed request prunes before it acts. */
  function Step(groups: Groups, e: Event): Groups {
    if Malformed(e) then groups else Applied(AllPruned(groups, e.now), e)
  }

  function Run(events: seq<Event>): Groups {
    if events == [] then map[] else Step(Run(events[..|events| - 1]), events[|events| - 1])
  }

  datatype Answer = Done | NotFound | NotMember | InvalidPosition | Shown(snapshot: Snapshot)

  datatype Snapshot = Snapshot(host: string, kind: string, media: nat, paused: bool, position: real, version: nat,
                               roster: seq<(string, string)>)

  function Roster(members: seq<Member>): (r: seq<(string, string)>)
    ensures |r| == |members| && forall i | 0 <= i < |r| :: r[i] == (members[i].sub, members[i].username)
  {
    seq(|members|, i requires 0 <= i < |members| => (members[i].sub, members[i].username))
  }

  function Snap(g: Group, now: int): Snapshot {
    Snapshot(g.host, g.kind, g.media, g.paused, Position(g, now), g.version, Roster(g.members))
  }

  // --- what every request keeps ----------------------------------------------------------------------

  ghost predicate Distinct(members: seq<Member>) {
    forall i, j | 0 <= i < j < |members| :: members[i].sub != members[j].sub
  }

  /** Someone is there, keyed by sub, and the host is one of them. */
  ghost predicate WellKept(g: Group) {
    g.members != [] && Distinct(g.members) && g.host in Subs(g.members)
  }

  /** And the stamped playhead is not before the start. */
  ghost predicate GroupKept(g: Group) {
    WellKept(g) && g.position >= 0.0
  }

  ghost predicate Inv(groups: Groups) {
    forall id | id in groups :: GroupKept(groups[id])
  }

  lemma {:induction false} LiveIsKept(members: seq<Member>, now: int)
    ensures forall m :: m in Live(members, now) <==> m in members && !Idle(m, now)
    ensures Distinct(members) ==> Distinct(Live(members, now))
  {
    if members != [] {
      LiveIsKept(members[1..], now);
      assert forall m :: m in members <==> m == members[0] || m in members[1..];
      if Distinct(members) {
        assert Distinct(members[1..]);
        var rest := Live(members[1..], now);
        forall i | 0 <= i < |rest| ensures rest[i].sub != members[0].sub {
          assert rest[i] in members[1..];
        }
      }
    }
  }

  /** The first of the live is whoever joined earliest and is not idle. */
  lemma {:induction false} FirstLiveJoinedEarliest(members: seq<Member>, now: int) returns (k: nat)
    requires Live(members, now) != []
    ensures k < |members| && members[k] == Live(members, now)[0]
    ensures forall j | 0 <= j < k :: Idle(members[j], now)
  {
    if Idle(members[0], now) {
      var rest := FirstLiveJoinedEarliest(members[1..], now);
      k := rest + 1;
      assert forall j | 0 < j < k :: members[j] == members[1..][j - 1];
    } else {
      k := 0;
    }
  }

  /** Pruning keeps exactly the live, a live host, or else the earliest-joined, and tells pollers only of a loss. */
  lemma {:induction false} PruningHandsOver(g: Group, now: int)
    requires WellKept(g) && Live(g.members, now) != []
    ensures var h := Pruned(g, now);
            && (forall m :: m in h.members <==> m in g.members && !Idle(m, now))
            && ((exists m :: m in g.members && m.sub == g.host && !Idle(m, now)) ==> h.host == g.host)
            && ((forall m | m in g.members && m.sub == g.host :: Idle(m, now)) ==>
                  exists k | 0 <= k < |g.members| ::
                    && h.host == g.members[k].sub && !Idle(g.members[k], now)
                    && forall j | 0 <= j < k :: Idle(g.members[j], now))
            && h.version == g.version + (if exists m :: m in g.members && Idle(m, now) then 1 else 0)
  {
    LiveIsKept(g.members, now);
    SubIffMember(Live(g.members, now), g.host);
    var k := FirstLiveJoinedEarliest(g.members, now);
    LiveIsAll(g.members, now);
  }

  lemma {:induction false} LiveIsAll(members: seq<Member>, now: int)
    ensures |Live(members, now)| == |members| <==> forall m | m in members :: !Idle(m, now)
  {
    if members != [] {
      LiveIsAll(members[1..], now);
      assert forall m :: m in members <==> m == members[0] || m in members[1..];
    }
  }

  lemma {:induction false} WithoutIsKept(members: seq<Member>, gone: set<string>)
    ensures forall m :: m in Without(members, gone) <==> m in members && m.sub !in gone
    ensures Distinct(members) ==> Distinct(Without(members, gone))
  {
    if members != [] {
      WithoutIsKept(members[1..], gone);
      assert forall m :: m in members <==> m == members[0] || m in members[1..];
      if Distinct(members) {
        assert Distinct(members[1..]);
        var rest := Without(members[1..], gone);
        forall i | 0 <= i < |rest| ensures rest[i].sub != members[0].sub {
          assert rest[i] in members[1..];
        }
      }
    }
  }

  lemma {:induction false} SeatedIsKept(members: seq<Member>, m: Member)
    requires Distinct(members)
    ensures Distinct(Seated(members, m))
    ensures forall x :: x in Seated(members, m) <==> x == m || (x in members && x.sub != m.sub)
  {
    if members != [] {
      var rest := members[1..];
      assert forall x :: x in members <==> x == members[0] || x in rest;
      forall x | x in rest ensures x.sub != members[0].sub {
      }
      if members[0].sub != m.sub {
        SeatedIsKept(rest, m);
        var seated := Seated(rest, m);
        forall i | 0 <= i < |seated| ensures seated[i].sub != members[0].sub {
          assert seated[i] in seated;
        }
      }
    }
  }

  lemma {:induction false} SubIffMember(members: seq<Member>, sub: string)
    ensures sub in Subs(members) <==> exists m :: m in members && m.sub == sub
  {
    if sub in Subs(members) {
      var i :| 0 <= i < |members| && Subs(members)[i] == sub;
      assert members[i] in members;
    }
    forall m | m in members && m.sub == sub ensures sub in Subs(members) {
      var i :| 0 <= i < |members| && members[i] == m;
      assert Subs(members)[i] == sub;
    }
  }

  lemma {:induction false} PrunedIsKept(g: Group, now: int)
    requires GroupKept(g) && Live(g.members, now) != []
    ensures GroupKept(Pruned(g, now))
  {
    LiveIsKept(g.members, now);
    var live := Live(g.members, now);
    assert Subs(live)[0] == live[0].sub;
  }

  lemma {:induction false} LeftIsKept(g: Group, sub: string)
    requires GroupKept(g) && Without(g.members, {sub}) != []
    ensures GroupKept(Left(g, sub))
  {
    WithoutIsKept(g.members, {sub});
    var rest := Without(g.members, {sub});
    assert Subs(rest)[0] == rest[0].sub;
    SubIffMember(g.members, g.host);
    SubIffMember(rest, g.host);
  }

  lemma {:induction false} JoinedIsKept(g: Group, m: Member)
    requires GroupKept(g)
    ensures GroupKept(g.(members := Seated(g.members, m), version := g.version + 1))
  {
    SeatedIsKept(g.members, m);
    SubIffMember(g.members, g.host);
    SubIffMember(Seated(g.members, m), g.host);
  }

  lemma {:induction false} TouchedIsKept(members: seq<Member>, sub: string, now: int)
    ensures Distinct(members) ==> Distinct(Touched(members, sub, now))
    ensures Subs(Touched(members, sub, now)) == Subs(members)
    ensures Roster(Touched(members, sub, now)) == Roster(members)
  {
  }

  lemma {:induction false} StepKeepsInv(groups: Groups, e: Event)
    requires Inv(groups)
    ensures Inv(Step(groups, e))
  {
    if !Malformed(e) {
      var pruned := AllPruned(groups, e.now);
      forall id | id in pruned ensures GroupKept(pruned[id]) {
        PrunedIsKept(groups[id], e.now);
      }
      AppliedKeepsInv(pruned, e);
    }
  }

  lemma {:induction false} AppliedKeepsInv(groups: Groups, e: Event)
    requires Inv(groups)
    ensures Inv(Applied(groups, e))
  {
    match e
    case Create(_, _, _, sub, _, _) =>
      assert Subs([Member(sub, e.username, e.now)])[0] == sub;
    case Join(id, sub, username, now) =>
      if id in groups {
        JoinedIsKept(groups[id], Member(sub, username, now));
      }
    case Leave(id, sub, now) =>
      if id in groups && Without(groups[id].members, {sub}) != [] {
        LeftIsKept(groups[id], sub);
      }
    case Poll(id, sub, now) =>
      if id in groups {
        TouchedIsKept(groups[id].members, sub, now);
      }
    case Steer(id, sub, c, position, now) =>
      if id in groups {
        TouchedIsKept(groups[id].members, sub, now);
      }
    case List(now) =>
  }

  // --- runs ---------------------------------------------------------------------------------------------

  /** In every reachable state no group is empty, its subs are distinct and its host is one of them. */
  lemma {:induction false} GroupsAreKept(events: seq<Event>)
    ensures Inv(Run(events))
  {
    if events != [] {
      GroupsAreKept(events[..|events| - 1]);
      StepKeepsInv(Run(events[..|events| - 1]), events[|events| - 1]);
    }
  }

  /** A group id is drawn once. */
  ghost predicate DrawnOnce(events: seq<Event>) {
    forall i, j | 0 <= i < j < |events| && events[i].Create? && events[j].Create? :: events[i].id != events[j].id
  }

  ghost predicate Created(events: seq<Event>, id: string) {
    exists i | 0 <= i < |events| :: events[i].Create? && events[i].id == id
  }

  lemma {:induction false} StoredWasCreated(events: seq<Event>, id: string)
    requires id in Run(events)
    ensures Created(events, id)
  {
    var n := |events| - 1;
    var e := events[n];
    if e.Create? && e.id == id {
    } else {
      StoredWasCreated(events[..n], id);
      var i :| 0 <= i < n && events[..n][i].Create? && events[..n][i].id == id;
      assert events[i].Create?;
    }
  }

  /** What a snapshot is made of, apart from the clock. */
  ghost predicate SameShow(a: Group, b: Group) {
    && a.host == b.host && a.kind == b.kind && a.media == b.media && a.paused == b.paused
    && a.position == b.position && a.at == b.at && Roster(a.members) == Roster(b.members)
  }

  lemma {:induction false} PrunedShow(g: Group, now: int)
    requires Live(g.members, now) != [] && g.host in Subs(g.members)
    ensures Pruned(g, now).version >= g.version
    ensures Pruned(g, now).version == g.version ==> Pruned(g, now) == g
  {
  }

  lemma {:induction false} AppliedKeepsShow(groups: Groups, e: Event, id: string)
    requires id in groups && id in Applied(groups, e) && !(e.Create? && e.id == id)
    ensures var g, h := groups[id], Applied(groups, e)[id];
            h.version >= g.version && (h.version == g.version ==> SameShow(g, h))
  {
    match e
    case Poll(_, sub, now) =>
      TouchedIsKept(groups[id].members, sub, now);
    case Create(_, _, _, _, _, _) =>
    case Join(_, _, _, _) =>
    case Leave(_, _, _) =>
    case Steer(_, _, _, _, _) =>
    case List(_) =>
  }

  lemma {:induction false} AppliedAddsOnlyCreated(groups: Groups, e: Event, id: string)
    requires id in Applied(groups, e) && !(e.Create? && e.id == id)
    ensures id in groups
  {
  }

  /** A version never falls, and while it stands the show does not change. */
  lemma {:induction false} StepKeepsShow(groups: Groups, e: Event, id: string)
    requires Inv(groups) && id in Step(groups, e)
    requires !(e.Create? && e.id == id)
    ensures id in groups
    ensures var g, h := groups[id], Step(groups, e)[id];
            h.version >= g.version && (h.version == g.version ==> SameShow(g, h))
  {
    if !Malformed(e) {
      var pruned := AllPruned(groups, e.now);
      AppliedAddsOnlyCreated(pruned, e, id);
      PrunedShow(groups[id], e.now);
      AppliedKeepsShow(pruned, e, id);
    }
  }

  /** An id is not drawn again. */
  lemma {:induction false} NotCreatedAgain(events: seq<Event>, n: nat, id: string)
    requires DrawnOnce(events) && n < |events| && Created(events[..n], id)
    ensures !(events[n].Create? && events[n].id == id)
  {
    var i :| 0 <= i < n && events[..n][i].Create? && events[..n][i].id == id;
    assert events[i] == events[..n][i];
  }

  lemma {:induction false} CreatedGrows(events: seq<Event>, n: nat, m: nat, id: string)
    requires n <= m <= |events| && Created(events[..n], id)
    ensures Created(events[..m], id)
  {
    var i :| 0 <= i < n && events[..n][i].Create? && events[..n][i].id == id;
    assert events[..m][i] == events[..n][i];
  }

  /** Later in a run than a group's creation, `b` is what became of `a`. */
  ghost predicate Stands(a: Groups, b: Groups, id: string) {
    id in a && id in b ==>
      b[id].version >= a[id].version && (b[id].version == a[id].version ==> SameShow(a[id], b[id]))
  }

  lemma {:induction false} LastStepStands(events: seq<Event>, m: nat, id: string)
    requires DrawnOnce(events) && m < |events| && Created(events[..m], id) && id in Run(events[..m + 1])
    ensures id in Run(events[..m]) && Stands(Run(events[..m]), Run(events[..m + 1]), id)
  {
    assert events[..m + 1][..m] == events[..m];
    GroupsAreKept(events[..m]);
    NotCreatedAgain(events, m, id);
    StepKeepsShow(Run(events[..m]), events[m], id);
  }

  lemma {:induction false} StandsIsTransitive(a: Groups, b: Groups, c: Groups, id: string)
    requires id in b && Stands(a, b, id) && Stands(b, c, id)
    ensures Stands(a, c, id)
  {
  }

  lemma {:induction false} ShowStands(events: seq<Event>, n: nat, m: nat, id: string)
    requires DrawnOnce(events) && n <= m <= |events| && Created(events[..n], id) && id in Run(events[..m])
    ensures Stands(Run(events[..n]), Run(events[..m]), id)
    decreases m
  {
    if n < m {
      CreatedGrows(events, n, m - 1, id);
      LastStepStands(events, m - 1, id);
      ShowStands(events, n, m - 1, id);
      StandsIsTransitive(Run(events[..n]), Run(events[..m - 1]), Run(events[..m]), id);
    }
  }

  /** The playhead before it is held back at the start. */
  function Raw(g: Group, now: int): real {
    if g.paused then g.position else g.position + Elapsed(g.at, now)
  }

  /**
  Two snapshots of one group with the same version, stamped in any order,
  differ only in the playhead: not at all while paused, and while playing by
  exactly the time between them unless one is stamped so long before the last
  command that it is held back at the start. Stamps from the command on never are.
  */
  lemma {:induction false} SameVersionSameShow(events: seq<Event>, n: nat, m: nat, id: string, t: int, u: int)
    requires DrawnOnce(events) && n <= m <= |events| && id in Run(events[..n]) && id in Run(events[..m])
    requires Run(events[..n])[id].version == Run(events[..m])[id].version
    ensures var g := Run(events[..n])[id];
            var a, b := Snap(g, t), Snap(Run(events[..m])[id], u);
            && b == a.(position := b.position)
            && (a.paused ==> b.position == a.position)
            && (!a.paused ==>
                  (b.position == a.position + Elapsed(t, u) <==> (t == u || (Raw(g, t) >= 0.0 && Raw(g, u) >= 0.0))))
            && (g.at <= t ==> Raw(g, t) >= 0.0)
  {
    GroupsAreKept(events[..n]);
    StoredWasCreated(events[..n], id);
    ShowStands(events, n, m, id);
  }

  // --- the playhead -------------------------------------------------------------------------------------------

  /** The playhead as a clock that runs all the time: where it is, whether it moves, when it was read. */
  datatype Playhead = Playhead(head: real, playing: bool, at: int)

  function Advanced(p: Playhead, now: int): real {
    if p.playing then p.head + Elapsed(p.at, now) else p.head
  }

  /** Only a command by a member holds it back at the start, or puts it anywhere. */
  function Ticked(p: Playhead, groups: Groups, id: string, e: Event): Playhead {
    var head := Advanced(p, e.now);
    if e.Create? && e.id == id then Playhead(0.0, false, e.now)
    else if e.Steer? && e.id == id && !Malformed(e) && IsMember(AllPruned(groups, e.now), id, e.sub) then
      Playhead(Clamp(if e.position.Some? then e.position.value else head),
               if e.c.Seek? then p.playing else e.c.Play?,
               e.now)
    else Playhead(head, p.playing, e.now)
  }

  function Reference(events: seq<Event>, id: string): Playhead {
    if events == [] then Playhead(0.0, false, 0)
    else
      var n := |events| - 1;
      Ticked(Reference(events[..n], id), Run(events[..n]), id, events[n])
  }

  /** The stamped transport and the running clock agree at every time. */
  ghost predicate InStep(g: Group, p: Playhead) {
    && g.position >= 0.0 && g.paused == !p.playing
    && p.head == if g.paused then g.position else g.position + Elapsed(g.at, p.at)
  }

  lemma {:induction false} InStepAdvances(g: Group, p: Playhead, now: int)
    requires InStep(g, p)
    ensures Advanced(p, now) == Raw(g, now) && Position(g, now) == Clamp(Raw(g, now))
    ensures InStep(g, Playhead(Advanced(p, now), p.playing, now))
  {
  }

  lemma {:induction false} SteerStaysInStep(g: Group, p: Playhead, e: Event)
    requires e.Steer? && !Malformed(e) && InStep(g, p)
    ensures var head := Clamp(if e.position.Some? then e.position.value else Advanced(p, e.now));
            InStep(Commanded(g, e.sub, e.c, e.position, e.now),
                   Playhead(head, if e.c.Seek? then p.playing else e.c.Play?, e.now))
  {
    InStepAdvances(g, p, e.now);
  }

  /** Nothing but a command touches the transport. */
  lemma {:induction false} OthersLeaveTransport(groups: Groups, e: Event, id: string)
    requires id in groups && id in Applied(groups, e)
    requires !(e.Create? && e.id == id) && !(e.Steer? && e.id == id && IsMember(groups, id, e.sub))
    ensures var g, h := groups[id], Applied(groups, e)[id];
            h.paused == g.paused && h.position == g.position && h.at == g.at
  {
  }

  lemma {:induction false} StepStaysInStep(groups: Groups, e: Event, id: string, p: Playhead)
    requires id in groups && InStep(groups[id], p)
    requires id in Step(groups, e) && !(e.Create? && e.id == id)
    ensures InStep(Step(groups, e)[id], Ticked(p, groups, id, e))
  {
    InStepAdvances(groups[id], p, e.now);
    if !Malformed(e) {
      var pruned := AllPruned(groups, e.now);
      AppliedAddsOnlyCreated(pruned, e, id);
      if e.Steer? && e.id == id && IsMember(pruned, id, e.sub) {
        SteerStaysInStep(pruned[id], p, e);
      } else {
        OthersLeaveTransport(pruned, e, id);
      }
    }
  }

  lemma {:induction false} CreateStartsInStep(groups: Groups, e: Event, p: Playhead)
    requires e.Create?
    ensures InStep(Step(groups, e)[e.id], Ticked(p, groups, e.id, e))
  {
  }

  lemma {:induction false} RunIsInStep(events: seq<Event>, id: string)
    requires id in Run(events)
    ensures InStep(Run(events)[id], Reference(events, id))
  {
    var n := |events| - 1;
    var before, e := events[..n], events[n];
    if e.Create? && e.id == id {
      CreateStartsInStep(Run(before), e, Reference(before, id));
    } else {
      GroupsAreKept(before);
      StepKeepsShow(Run(before), e, id);
      RunIsInStep(before, id);
      StepStaysInStep(Run(before), e, id, Reference(before, id));
    }
  }

  /**
  The lazily stamped transport shows the clock that runs all the time, held
  back at the start, for every run and at every moment, however requests are stamped.
  */
  lemma {:induction false} PlayheadIsPlayingTime(events: seq<Event>, id: string, now: int)
    requires id in Run(events)
    ensures Position(Run(events)[id], now) == Clamp(Advanced(Reference(events, id), now))
  {
    RunIsInStep(events, id);
    InStepAdvances(Run(events)[id], Reference(events, id), now);
  }

  /** Seen from no earlier than any request, the clock needs no holding back. */
  lemma {:induction false} LaterPlayheadIsExact(events: seq<Event>, id: string, now: int)
    requires id in Run(events) && forall i | 0 <= i < |events| :: events[i].now <= now
    ensures Position(Run(events)[id], now) == Advanced(Reference(events, id), now)
  {
    RunIsInStep(events, id);
    InStepAdvances(Run(events)[id], Reference(events, id), now);
    AtIsAStamp(events, id, now);
  }

  lemma {:induction false} AtIsAStamp(events: seq<Event>, id: string, now: int)
    requires id in Run(events) && forall i | 0 <= i < |events| :: events[i].now <= now
    ensures Run(events)[id].at <= now
  {
    var n := |events| - 1;
    var before, e := events[..n], events[n];
    if !(e.Create? && e.id == id) {
      GroupsAreKept(before);
      StepKeepsShow(Run(before), e, id);
      AtIsAStamp(before, id, now);
      StepStamps(Run(before), e, id);
    }
  }

  lemma {:induction false} StepStamps(groups: Groups, e: Event, id: string)
    requires id in groups && id in Step(groups, e) && !(e.Create? && e.id == id)
    ensures Step(groups, e)[id].at == groups[id].at || Step(groups, e)[id].at == e.now
  {
    if !Malformed(e) {
      AppliedAddsOnlyCreated(AllPruned(groups, e.now), e, id);
    }
  }

  // --- the table, request by request -----------------------------------------------------------------------

  /** The answer once the idle are gone. */
  function Answered(groups: Groups, e: Event): Answer
    requires !e.List?
  {
    if e.Create? then Shown(Snap(Applied(groups, e)[e.id], e.now))
    else if e.id !in groups then NotFound
    else if e.Leave? then Done
    else if !e.Join? && !IsMember(groups, e.id, e.sub) then NotMember
    else Shown(Snap(Applied(groups, e)[e.id], e.now))
  }

  function AnswerTo(groups: Groups, e: Event): Answer
    requires !e.List?
  {
    if Malformed(e) then InvalidPosition else Answered(AllPruned(groups, e.now), e)
  }

  /** Subs silent for too long, in join order. */
  function IdleSubs(members: seq<Member>, now: int): (r: seq<string>)
    ensures |r| + |Live(members, now)| == |members|
  {
    if members == [] then []
    else (if Idle(members[0], now) then [members[0].sub] else []) + IdleSubs(members[1..], now)
  }

  lemma {:induction false} IdleSubIff(members: seq<Member>, now: int)
    requires Distinct(members)
    ensures forall i | 0 <= i < |members| :: members[i].sub in IdleSubs(members, now) <==> Idle(members[i], now)
    ensures forall sub | sub in IdleSubs(members, now) :: sub in Subs(members)
  {
    if members != [] {
      var rest := members[1..];
      assert forall i | 0 <= i < |rest| :: rest[i] == members[i + 1];
      IdleSubIff(rest, now);
      assert forall sub | sub in Subs(rest) :: sub in Subs(members) by {
        forall sub | sub in Subs(rest) ensures sub in Subs(members) {
          var i :| 0 <= i < |rest| && Subs(rest)[i] == sub;
          assert Subs(members)[i + 1] == sub;
        }
      }
      assert members[0].sub !in Subs(rest);
      assert Subs(members)[0] == members[0].sub;
    }
  }

  lemma {:induction false} WithoutTwice(members: seq<Member>, gone: set<string>, sub: string)
    ensures Without(Without(members, gone), {sub}) == Without(members, gone + {sub})
  {
    if members != [] {
      WithoutTwice(members[1..], gone, sub);
    }
  }

  lemma {:induction false} WithoutNobody(members: seq<Member>)
    ensures Without(members, {}) == members
  {
    if members != [] {
      WithoutNobody(members[1..]);
    }
  }

  lemma {:induction false} WithoutIdleIsLive(members: seq<Member>, gone: set<string>, now: int)
    requires forall i | 0 <= i < |members| :: members[i].sub in gone <==> Idle(members[i], now)
    ensures Without(members, gone) == Live(members, now)
  {
    if members != [] {
      assert forall i | 0 <= i < |members| - 1 :: members[1..][i] == members[i + 1];
      WithoutIdleIsLive(members[1..], gone, now);
    }
  }

  lemma {:induction false} HostAfterAll(g: Group, gone: set<string>, now: int)
    requires WellKept(g) && gone == set sub | sub in IdleSubs(g.members, now)
    ensures Without(g.members, gone) == Live(g.members, now)
    ensures g.host in Subs(Live(g.members, now)) <==> g.host !in gone
  {
    IdleSubIff(g.members, now);
    WithoutIdleIsLive(g.members, gone, now);
    SubIffMember(g.members, g.host);
    SubIffMember(Live(g.members, now), g.host);
    WithoutIsKept(g.members, gone);
  }

  /** The idle leave one at a time, each handing over as a leave does. */
  method DropIdle(group: Group, now: int) returns (g: Group)
    requires WellKept(group)
    ensures g.members == Live(group.members, now)
    ensures g.members != [] ==> g == Pruned(group, now)
  {
    var members, host := group.members, group.host;
    var idle := IdleSubs(members, now);
    ghost var gone: set<string> := {};
    WithoutNobody(members);
    for i := 0 to |idle|
      invariant gone == set sub | sub in idle[..i]
      invariant members == Without(group.members, gone)
      invariant if group.host in gone then members != [] ==> host == members[0].sub else host == group.host
    {
      WithoutTwice(group.members, gone, idle[i]);
      members := Without(members, {idle[i]});
      gone := gone + {idle[i]};
      if host == idle[i] && members != [] {
        host := members[0].sub;
      }
    }
    assert idle[..|idle|] == idle;
    HostAfterAll(group, gone, now);
    var left := idle != [] && members != [];
    g := group.(members := members, host := host, version := if left then group.version + 1 else group.version);
  }

  lemma {:induction false} WholePruned(before: Groups, after: Groups, now: int)
    requires forall id :: id in after <==> id in before && Live(before[id].members, now) != []
    requires forall id | id in after :: after[id] == Pruned(before[id], now)
    ensures after == AllPruned(before, now)
  {
  }

  class Syncplay {
    var groups: Groups

    ghost predicate Valid()
      reads this
    {
      Inv(groups)
    }

    constructor ()
      ensures Valid() && groups == map[]
    {
      groups := map[];
    }

    method PruneIdle(now: int)
      requires forall id | id in groups :: WellKept(groups[id])
      modifies this`groups
      ensures groups == AllPruned(old(groups), now)
    {
      var before := groups;
      var left := groups.Keys;
      groups := map[];
      while left != {}
        invariant left <= before.Keys
        invariant forall id :: id in groups <==> id in before && id !in left && Live(before[id].members, now) != []
        invariant forall id | id in groups :: groups[id] == Pruned(before[id], now)
        decreases left
      {
        var id :| id in left;
        left := left - {id};
        var g := DropIdle(before[id], now);
        if g.members != [] {
          groups := groups[id := g];
        }
      }
      WholePruned(before, groups, now);
    }

    method ApplyCreate(id: string, kind: string, media: nat, sub: string, username: string, now: int)
      returns (r: Answer)
      modifies this`groups
      ensures groups == Applied(old(groups), Create(id, kind, media, sub, username, now))
      ensures r == Answered(old(groups), Create(id, kind, media, sub, username, now))
    {
      var group := Group(sub, kind, media, true, 0.0, now, 1, [Member(sub, username, now)]);
      r := Shown(Snap(group, now));
      groups := groups[id := group];
    }

    method CreateGroup(id: string, kind: string, media: nat, sub: string, username: string, now: int)
      returns (r: Answer)
      requires Valid()
      modifies this
      ensures Valid()
      ensures groups == Step(old(groups), Create(id, kind, media, sub, username, now))
      ensures r == AnswerTo(old(groups), Create(id, kind, media, sub, username, now))
    {
      PruneIdle(now);
      r := ApplyCreate(id, kind, media, sub, username, now);
      StepKeepsInv(old(groups), Create(id, kind, media, sub, username, now));
    }

    method ApplyJoin(id: string, sub: string, username: string, now: int) returns (r: Answer)
      modifies this`groups
      ensures groups == Applied(old(groups), Join(id, sub, username, now))
      ensures r == Answered(old(groups), Join(id, sub, username, now))
    {
      if id !in groups {
        return NotFound;
      }
      var g := groups[id];
      g := g.(members := Seated(g.members, Member(sub, username, now)));
      g := g.(version := g.version + 1);
      groups := groups[id := g];
      return Shown(Snap(g, now));
    }

    method JoinGroup(id: string, sub: string, username: string, now: int) returns (r: Answer)
      requires Valid()
      modifies this
      ensures Valid()
      ensures groups == Step(old(groups), Join(id, sub, username, now))
      ensures r == AnswerTo(old(groups), Join(id, sub, username, now))
    {
      PruneIdle(now);
      r := ApplyJoin(id, sub, username, now);
      StepKeepsInv(old(groups), Join(id, sub, username, now));
    }

    method ApplyLeave(id: string, sub: string, now: int) returns (r: Answer)
      modifies this`groups
      ensures groups == Applied(old(groups), Leave(id, sub, now))
      ensures r == Answered(old(groups), Leave(id, sub, now))
    {
      if id !in groups {
        return NotFound;
      }
      var g := groups[id];
      g := g.(members := Without(g.members, {sub}));
      if g.members == [] {
        groups := groups - {id};
      } else {
        if g.host == sub {
          g := g.(host := g.members[0].sub);
        }
        g := g.(version := g.version + 1);
        groups := groups[id := g];
      }
      return Done;
    }

    method LeaveGroup(id: string, sub: string, now: int) returns (r: Answer)
      requires Valid()
      modifies this
      ensures Valid()
      ensures groups == Step(old(groups), Leave(id, sub, now))
      ensures r == AnswerTo(old(groups), Leave(id, sub, now))
    {
      PruneIdle(now);
      r := ApplyLeave(id, sub, now);
      StepKeepsInv(old(groups), Leave(id, sub, now));
    }

    method ApplyPoll(id: string, sub: string, now: int) returns (r: Answer)
      modifies this`groups
      ensures groups == Applied(old(groups), Poll(id, sub, now))
      ensures r == Answered(old(groups), Poll(id, sub, now))
    {
      if id !in groups {
        return NotFound;
      }
      var g := groups[id];
      if sub !in Subs(g.members) {
        return NotMember;
      }
      g := g.(members := Touched(g.members, sub, now));
      groups := groups[id := g];
      return Shown(Snap(g, now));
    }

    method PollGroup(id: string, sub: string, now: int) returns (r: Answer)
      requires Valid()
      modifies this
      ensures Valid()
      ensures groups == Step(old(groups), Poll(id, sub, now))
      ensures r == AnswerTo(old(groups), Poll(id, sub, now))
    {
      PruneIdle(now);
      r := ApplyPoll(id, sub, now);
      StepKeepsInv(old(groups), Poll(id, sub, now));
    }

    method ApplySteer(id: string, sub: string, c: Command, position: Option<real>, now: int) returns (r: Answer)
      requires !(c.Seek? && position.None?)
      modifies this`groups
      ensures groups == Applied(old(groups), Steer(id, sub, c, position, now))
      ensures r == Answered(old(groups), Steer(id, sub, c, position, now))
    {
      if id !in groups {
        return NotFound;
      }
      var g := groups[id];
      if sub !in Subs(g.members) {
        return NotMember;
      }
      g := g.(members := Touched(g.members, sub, now));
      g := g.(position := Clamp(if position.Some? then position.value else Position(g, now)));
      g := g.(at := now);
      match c {
        case Play => g := g.(paused := false);
        case Pause => g := g.(paused := true);
        case Seek =>
      }
      g := g.(version := g.version + 1);
      groups := groups[id := g];
      return Shown(Snap(g, now));
    }

    method SteerGroup(id: string, sub: string, c: Command, position: Option<real>, now: int) returns (r: Answer)
      requires Valid()
      modifies this
      ensures Valid()
      ensures groups == Step(old(groups), Steer(id, sub, c, position, now))
      ensures r == AnswerTo(old(groups), Steer(id, sub, c, position, now))
    {
      if c.Seek? && position.None? {
        return InvalidPosition;
      }
      PruneIdle(now);
      r := ApplySteer(id, sub, c, position, now);
      StepKeepsInv(old(groups), Steer(id, sub, c, position, now));
    }
  }
}
