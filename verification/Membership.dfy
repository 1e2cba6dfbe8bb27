/**
Who is let in: the members allowlist and the invites that fill it. Every
transaction holds the write lock from its first read to its commit, so it is
one step; revoking an invite is two statements, and so two steps.
*/
module Membership {
  import opened Identity
  import opened Util

  /** Stored timestamps compare as strings, in time order. */
  type Time = int

  datatype Member = Member(role: Role, displayName: Option<string>, authMode: string, invitedBy: string,
                           joinedAt: Time, revokedAt: Option<Time>)

  datatype Invite = Invite(issuedBy: string, role: Role, expiresAt: Option<Time>, maxUses: int, used: int,
                           createdAt: Time, revokedAt: Option<Time>)

  /** Members by sub, invites by the hash of their code. */
  datatype Db = Db(members: map<string, Member>, invites: map<string, Invite>)

  /** ADMIN_SUBS, and the grammar of subs. */
  datatype Config = Config(owners: set<string>, valid: string -> bool)

  /** The configuration is refused when an ADMIN_SUBS entry is malformed. */
  ghost predicate Loaded(cfg: Config) {
    forall s | s in cfg.owners :: cfg.valid(s)
  }

  datatype MemberStatus = Allowed | NotMember | RevokedMember

  datatype SafeRevocation = TargetRevoked | NotFound | Owner | OwnSub | ActorNotAdmin

  datatype SelfRevocation = SelfRevoked | AlreadyRevoked | LastAdmin

  datatype Redemption = Created | AlreadyMember | Invalid | Expired | Exhausted | InviteRevoked

  datatype InviteStatus = ActiveInvite | ExpiredInvite | ExhaustedInvite | RevokedInvite

  // --- verdicts ---------------------------------------------------------------------------

  predicate Active(db: Db, sub: string) {
    sub in db.members && db.members[sub].revokedAt.None?
  }

  predicate RowRevoked(db: Db, sub: string) {
    sub in db.members && db.members[sub].revokedAt.Some?
  }

  predicate ActiveAdmin(db: Db, sub: string) {
    Active(db, sub) && db.members[sub].role == Admin
  }

  function Status(cfg: Config, db: Db, sub: string): MemberStatus {
    if !cfg.valid(sub) then NotMember
    else if sub in cfg.owners then Allowed
    else if sub !in db.members then NotMember
    else if db.members[sub].revokedAt.None? then Allowed
    else RevokedMember
  }

  function EffectiveRole(cfg: Config, db: Db, sub: string): Role {
    if sub in cfg.owners || (cfg.valid(sub) && ActiveAdmin(db, sub)) then Admin else User
  }

  // --- transactions -------------------------------------------------------------------------

  function WithInvitesRevoked(invites: map<string, Invite>, sub: string, now: Time): map<string, Invite> {
    map h | h in invites ::
      if invites[h].issuedBy == sub && invites[h].revokedAt.None? then invites[h].(revokedAt := Some(now))
      else invites[h]
  }

  /** `sub` leaves, and its invites die with it. */
  function WithRevoked(db: Db, sub: string, now: Time): Db
    requires sub in db.members
  {
    Db(db.members[sub := db.members[sub].(revokedAt := Some(now))], WithInvitesRevoked(db.invites, sub, now))
  }

  function RevokeSafelyAnswer(cfg: Config, db: Db, target: string, actor: string): SafeRevocation {
    if !cfg.valid(target) then NotFound
    else if target in cfg.owners then Owner
    else if target == actor then OwnSub
    else if !Active(db, target) then NotFound
    else if actor !in cfg.owners && !(cfg.valid(actor) && ActiveAdmin(db, actor)) then ActorNotAdmin
    else TargetRevoked
  }

  /** Administrators besides `sub`: active rows, and owners who have no active row yet. */
  function OtherAdmins(cfg: Config, db: Db, sub: string): set<string> {
    var rows := set s | s in db.members && s != sub && Active(db, s) && (ActiveAdmin(db, s) || s in cfg.owners);
    var envOnly := set s | s in cfg.owners && !(s != sub && Active(db, s));
    rows + envOnly
  }

  function RevokeSelfAnswer(cfg: Config, db: Db, sub: string): SelfRevocation {
    if !cfg.valid(sub) then AlreadyRevoked
    else if sub in cfg.owners then LastAdmin
    else if !Active(db, sub) then AlreadyRevoked
    else if ActiveAdmin(db, sub) && OtherAdmins(cfg, db, sub) == {} then LastAdmin
    else SelfRevoked
  }

  /** The two lists of others are empty exactly when there is no other administrator. */
  lemma {:induction false} OthersCounted(cfg: Config, db: Db, sub: string, rowAdmins: set<string>, envOnly: set<string>)
    requires forall s :: s in rowAdmins <==> s != sub && Active(db, s) && (ActiveAdmin(db, s) || s in cfg.owners)
    requires forall s :: s in envOnly <==> s in cfg.owners && !(s != sub && Active(db, s))
    ensures |rowAdmins| + |envOnly| == 0 <==> OtherAdmins(cfg, db, sub) == {}
  {
    assert OtherAdmins(cfg, db, sub) == rowAdmins + envOnly;
    if OtherAdmins(cfg, db, sub) == {} {
      assert rowAdmins == {} && envOnly == {};
    }
  }

  predicate IsExpired(i: Invite, now: Time) {
    i.expiresAt.Some? && i.expiresAt.value < now
  }

  function RedeemAnswer(cfg: Config, db: Db, hash: string, sub: string, now: Time): Redemption {
    if !cfg.valid(sub) || hash !in db.invites then Invalid
    else
      var i := db.invites[hash];
      if i.revokedAt.Some? || RowRevoked(db, i.issuedBy) then InviteRevoked
      else if IsExpired(i, now) then Expired
      else if Active(db, sub) then AlreadyMember
      else if i.used >= i.maxUses then Exhausted
      else Created
  }

  function WithRedeemed(db: Db, hash: string, sub: string, name: Option<string>, mode: string, now: Time): Db
    requires hash in db.invites
  {
    var i := db.invites[hash];
    Db(db.members[sub := Member(i.role, name, mode, i.issuedBy, now, None)],
       db.invites[hash := i.(used := i.used + 1)])
  }

  function StatusOf(i: Invite, now: Time): InviteStatus {
    if i.revokedAt.Some? then RevokedInvite
    else if IsExpired(i, now) then ExpiredInvite
    else if i.used >= i.maxUses then ExhaustedInvite
    else ActiveInvite
  }

  predicate HexPrefix(prefix: string) {
    0 < |prefix| <= 64 && forall i | 0 <= i < |prefix| :: '0' <= prefix[i] <= '9' || 'a' <= prefix[i] <= 'f'
  }

  /** The one invite under a prefix, and unrevoked: a revoked match makes the prefix ambiguous too. */
  ghost predicate OnlyMatch(db: Db, prefix: string, hash: string) {
    && HexPrefix(prefix)
    && hash in db.invites && prefix <= hash && db.invites[hash].revokedAt.None?
    && forall h | h in db.invites && prefix <= h :: h == hash
  }

  // --- one step of the server ------------------------------------------------------------------

  datatype Event =
    | RevokeMember(target: string, actor: string, now: Time)
    | Leave(sub: string, now: Time)
    | Redeem(hash: string, sub: string, name: Option<string>, mode: string, now: Time)
    | Issue(hash: string, issuer: string, role: Role, expiresAt: Option<Time>, maxUses: int, now: Time)
    | RevokeInvite(hash: string, now: Time)
    | AdmitByShare(sub: string, name: Option<string>, now: Time)

  function AfterRevokeInvite(db: Db, hash: string, now: Time): Db {
    if hash in db.invites && db.invites[hash].revokedAt.None?
    then db.(invites := db.invites[hash := db.invites[hash].(revokedAt := Some(now))])
    else db
  }

  /** A fresh code never has a row yet; were there one, the insert would fail. */
  function AfterIssue(cfg: Config, db: Db, e: Event): Db
    requires e.Issue?
  {
    if !cfg.valid(e.issuer) || e.hash in db.invites then db
    else db.(invites := db.invites[e.hash :=
               Invite(e.issuer, e.role, e.expiresAt, Max(e.maxUses, 1), 0, e.now, None)])
  }

  function AfterShare(cfg: Config, db: Db, sub: string, name: Option<string>, now: Time): Db {
    if !cfg.valid(sub) || sub in db.members then db
    else db.(members := db.members[sub := Member(User, name, "plex", "plex:server-share", now, None)])
  }

  function Step(cfg: Config, db: Db, e: Event): Db {
    match e
    case RevokeMember(target, actor, now) =>
      if RevokeSafelyAnswer(cfg, db, target, actor).TargetRevoked? then WithRevoked(db, target, now) else db
    case Leave(sub, now) =>
      if RevokeSelfAnswer(cfg, db, sub).SelfRevoked? then WithRevoked(db, sub, now) else db
    case Redeem(hash, sub, name, mode, now) =>
      if RedeemAnswer(cfg, db, hash, sub, now).Created? then WithRedeemed(db, hash, sub, name, mode, now) else db
    case Issue(_, _, _, _, _, _) => AfterIssue(cfg, db, e)
    case RevokeInvite(hash, now) => AfterRevokeInvite(db, hash, now)
    case AdmitByShare(sub, name, now) => AfterShare(cfg, db, sub, name, now)
  }

  function Run(cfg: Config, start: Db, events: seq<Event>): Db {
    if events == [] then start else Step(cfg, Run(cfg, start, events[..|events| - 1]), events[|events| - 1])
  }

  // --- the tables, statement by statement ---------------------------------------------------------

  class ServerDb {
    var members: map<string, Member>
    var invites: map<string, Invite>

    ghost function State(): Db
      reads this
    {
      Db(members, invites)
    }

    constructor ()
      ensures State() == Db(map[], map[])
    {
      members, invites := map[], map[];
    }

    method MemberStatus(cfg: Config, sub: string) returns (r: MemberStatus)
      ensures r == Status(cfg, State(), sub)
    {
      if !cfg.valid(sub) {
        return NotMember;
      }
      if sub in cfg.owners {
        return Allowed;
      }
      if sub !in members {
        return NotMember;
      }
      return if members[sub].revokedAt.None? then Allowed else RevokedMember;
    }

    method RevokeInvitesOf(sub: string, now: Time)
      modifies this`invites
      ensures invites == WithInvitesRevoked(old(invites), sub, now)
    {
      var left := invites.Keys;
      var before := invites;
      while left != {}
        invariant left <= before.Keys == invites.Keys
        invariant forall h | h in left :: invites[h] == before[h]
        invariant forall h | h in before && h !in left :: invites[h] == WithInvitesRevoked(before, sub, now)[h]
        decreases left
      {
        var h :| h in left;
        left := left - {h};
        if invites[h].issuedBy == sub && invites[h].revokedAt.None? {
          invites := invites[h := invites[h].(revokedAt := Some(now))];
        }
      }
    }

    method RevokeSafely(cfg: Config, target: string, actor: string, now: Time) returns (r: SafeRevocation)
      modifies this
      ensures r == RevokeSafelyAnswer(cfg, old(State()), target, actor)
      ensures State() == Step(cfg, old(State()), RevokeMember(target, actor, now))
    {
      if !cfg.valid(target) {
        return NotFound;
      }
      if target in cfg.owners {
        return Owner;
      }
      if target == actor {
        return OwnSub;
      }
      if target !in members || members[target].revokedAt.Some? {
        return NotFound;
      }
      if actor !in cfg.owners {
        if !cfg.valid(actor) {
          return ActorNotAdmin;
        }
        if actor !in members || members[actor].revokedAt.Some? || members[actor].role != Admin {
          return ActorNotAdmin;
        }
      }
      members := members[target := members[target].(revokedAt := Some(now))];
      RevokeInvitesOf(target, now);
      return TargetRevoked;
    }

    method RevokeSelf(cfg: Config, sub: string, now: Time) returns (r: SelfRevocation)
      modifies this
      ensures r == RevokeSelfAnswer(cfg, old(State()), sub)
      ensures State() == Step(cfg, old(State()), Leave(sub, now))
    {
      if !cfg.valid(sub) {
        return AlreadyRevoked;
      }
      if sub in cfg.owners {
        return LastAdmin;
      }
      if sub !in members || members[sub].revokedAt.Some? {
        return AlreadyRevoked;
      }
      if members[sub].role == Admin {
        var others := map s | s in members && members[s].revokedAt.None? && s != sub :: members[s].role;
        var rowAdmins := set s | s in others && (others[s] == Admin || s in cfg.owners);
        var envOnly := set s | s in cfg.owners && s !in others;
        OthersCounted(cfg, State(), sub, rowAdmins, envOnly);
        if |rowAdmins| + |envOnly| == 0 {
          return LastAdmin;
        }
      }
      members := members[sub := members[sub].(revokedAt := Some(now))];
      RevokeInvitesOf(sub, now);
      return SelfRevoked;
    }

    /** The second use check of the code, under the same lock, can not fail after the first. */
    method RedeemInvite(cfg: Config, hash: string, sub: string, name: Option<string>, mode: string, now: Time)
      returns (r: Redemption)
      modifies this
      ensures r == RedeemAnswer(cfg, old(State()), hash, sub, now)
      ensures State() == Step(cfg, old(State()), Redeem(hash, sub, name, mode, now))
    {
      if !cfg.valid(sub) || hash !in invites {
        return Invalid;
      }
      var invite := invites[hash];
      if invite.revokedAt.Some? {
        return InviteRevoked;
      }
      if invite.issuedBy in members && members[invite.issuedBy].revokedAt.Some? {
        return InviteRevoked;
      }
      if invite.expiresAt.Some? && invite.expiresAt.value < now {
        return Expired;
      }
      if sub in members && members[sub].revokedAt.None? {
        return AlreadyMember;
      }
      if invite.used >= invite.maxUses {
        return Exhausted;
      }
      if sub in members {
        members := members[sub := members[sub].(revokedAt := None, joinedAt := now, displayName := name,
                                                role := invite.role, authMode := mode, invitedBy := invite.issuedBy)];
      } else {
        members := members[sub := Member(invite.role, name, mode, invite.issuedBy, now, None)];
      }
      invites := invites[hash := invite.(used := invite.used + 1)];
      return Created;
    }

    method IssueInvite(cfg: Config, hash: string, admin: string, role: Role, expiresAt: Option<Time>, maxUses: int,
                       now: Time)
      modifies this`invites
      ensures State() == Step(cfg, old(State()), Issue(hash, admin, role, expiresAt, maxUses, now))
    {
      if !cfg.valid(admin) {
        return;
      }
      var uses := Max(maxUses, 1);
      if hash !in invites {
        invites := invites[hash := Invite(admin, role, expiresAt, uses, 0, now, None)];
      }
    }

    /** The first statement of an invite revocation. */
    method FindInvite(prefix: string) returns (r: Option<string>)
      ensures r.Some? ==> OnlyMatch(State(), prefix, r.value)
      ensures r.None? ==> forall h :: !OnlyMatch(State(), prefix, h)
    {
      if !HexPrefix(prefix) {
        return None;
      }
      var matches := set h | h in invites && prefix <= h;
      assert forall h :: OnlyMatch(State(), prefix, h) ==> h in matches && matches == {h};
      if matches == {} {
        return None;
      }
      var hash :| hash in matches;
      if matches != {hash} || invites[hash].revokedAt.Some? {
        return None;
      }
      assert forall h | h in invites && prefix <= h :: h in matches;
      return Some(hash);
    }

    /** The second statement, whatever has happened in between. */
    method RevokeFound(hash: string, now: Time) returns (changed: bool)
      modifies this`invites
      ensures changed == (hash in old(invites) && old(invites)[hash].revokedAt.None?)
      ensures State() == AfterRevokeInvite(old(State()), hash, now)
    {
      changed := hash in invites && invites[hash].revokedAt.None?;
      if changed {
        invites := invites[hash := invites[hash].(revokedAt := Some(now))];
      }
    }
  }

  // --- there is always an administrator ---------------------------------------------------------------

  /** `s` can sign in as an administrator. */
  predicate Authority(cfg: Config, db: Db, s: string) {
    Status(cfg, db, s) == Allowed && EffectiveRole(cfg, db, s) == Admin
  }

  ghost predicate SomeAuthority(cfg: Config, db: Db) {
    exists s :: Authority(cfg, db, s)
  }

  /** Every stored row was written for a well-formed sub. */
  ghost predicate RowsValid(cfg: Config, db: Db) {
    forall s | s in db.members :: cfg.valid(s)
  }

  lemma {:induction false} AuthorityIff(cfg: Config, db: Db, s: string)
    requires Loaded(cfg) && RowsValid(cfg, db)
    ensures Authority(cfg, db, s) <==> s in cfg.owners || ActiveAdmin(db, s)
  {
  }

  lemma {:induction false} StepKeepsRows(cfg: Config, db: Db, e: Event)
    requires RowsValid(cfg, db)
    ensures RowsValid(cfg, Step(cfg, db, e))
  {
  }

  /** A revocation only takes `sub` away. */
  lemma {:induction false} RevokingKeepsOthers(db: Db, sub: string, now: Time, s: string)
    requires sub in db.members && s != sub
    ensures ActiveAdmin(WithRevoked(db, sub, now), s) == ActiveAdmin(db, s)
  {
  }

  lemma {:induction false} StepKeepsAuthority(cfg: Config, db: Db, e: Event)
    requires Loaded(cfg) && RowsValid(cfg, db) && SomeAuthority(cfg, db)
    ensures SomeAuthority(cfg, Step(cfg, db, e))
  {
    var next := Step(cfg, db, e);
    StepKeepsRows(cfg, db, e);
    var s :| Authority(cfg, db, s);
    AuthorityIff(cfg, db, s);
    if e.RevokeMember? && next != db {
      AuthorityIff(cfg, db, e.actor);
      RevokingKeepsOthers(db, e.target, e.now, e.actor);
      AuthorityIff(cfg, next, e.actor);
    } else if e.Leave? && next != db {
      if s == e.sub {
        s :| s in OtherAdmins(cfg, db, e.sub);
      }
      RevokingKeepsOthers(db, e.sub, e.now, s);
      AuthorityIff(cfg, next, s);
    } else {
      ActiveRowsStay(cfg, db, e, s);
      AuthorityIff(cfg, next, s);
    }
  }

  /** While a member is active, its row changes only by being revoked: nothing alters a role in place. */
  lemma {:induction false} ActiveRowsStay(cfg: Config, db: Db, e: Event, s: string)
    ensures Active(db, s) ==>
              var next := Step(cfg, db, e);
              && s in next.members
              && next.members[s] == db.members[s].(revokedAt := next.members[s].revokedAt)
              && (Active(next, s) || Revokes(e, s))
  {
  }

  predicate Revokes(e: Event, s: string) {
    (e.RevokeMember? && e.target == s) || (e.Leave? && e.sub == s)
  }

  /** Until someone asks for its revocation, an active member's row is the same in every later state, role included. */
  lemma {:induction false} ActiveMembersAreUntouched(cfg: Config, start: Db, events: seq<Event>, s: string)
    requires Active(start, s) && forall i | 0 <= i < |events| :: !Revokes(events[i], s)
    ensures Active(Run(cfg, start, events), s) && Run(cfg, start, events).members[s] == start.members[s]
  {
    if events != [] {
      var n := |events| - 1;
      ActiveMembersAreUntouched(cfg, start, events[..n], s);
      ActiveRowsStay(cfg, Run(cfg, start, events[..n]), events[n], s);
    }
  }

  /** From any state with an administrator, no interleaving of transactions leaves none. */
  lemma {:induction false} SomeoneStaysInCharge(cfg: Config, start: Db, events: seq<Event>)
    requires Loaded(cfg) && RowsValid(cfg, start) && SomeAuthority(cfg, start)
    ensures RowsValid(cfg, Run(cfg, start, events)) && SomeAuthority(cfg, Run(cfg, start, events))
  {
    if events != [] {
      var n := |events| - 1;
      SomeoneStaysInCharge(cfg, start, events[..n]);
      StepKeepsRows(cfg, Run(cfg, start, events[..n]), events[n]);
      StepKeepsAuthority(cfg, Run(cfg, start, events[..n]), events[n]);
    }
  }

  /** Of two administrators revoking each other, whichever comes second is refused. */
  lemma {:induction false} MutualRevocationFailsClosed(cfg: Config, db: Db, a: string, b: string, now: Time)
    requires RevokeSafelyAnswer(cfg, db, a, b).TargetRevoked?
    ensures !RevokeSafelyAnswer(cfg, WithRevoked(db, a, now), b, a).TargetRevoked?
  {
  }

  /** The last administrator's own request is refused exactly when nobody else could administer. */
  lemma {:induction false} LastAdminIff(cfg: Config, db: Db, sub: string)
    requires Loaded(cfg) && RowsValid(cfg, db) && Authority(cfg, db, sub)
    ensures RevokeSelfAnswer(cfg, db, sub) == LastAdmin
        <==> sub in cfg.owners || forall s | s != sub :: !Authority(cfg, db, s)
  {
    AuthorityIff(cfg, db, sub);
    var others := OtherAdmins(cfg, db, sub);
    forall s ensures sub !in cfg.owners ==> (s in others <==> s != sub && Authority(cfg, db, s)) {
      AuthorityIff(cfg, db, s);
    }
    if sub !in cfg.owners && others != {} {
      var s :| s in others;
      assert Authority(cfg, db, s);
    }
  }

  // --- invites ------------------------------------------------------------------------------------------

  /** A committed revocation leaves the member no live invite. */
  lemma {:induction false} RevocationKillsInvites(cfg: Config, db: Db, e: Event)
    requires (e.RevokeMember? && RevokeSafelyAnswer(cfg, db, e.target, e.actor).TargetRevoked?)
          || (e.Leave? && RevokeSelfAnswer(cfg, db, e.sub).SelfRevoked?)
    ensures var sub := if e.RevokeMember? then e.target else e.sub;
            var next := Step(cfg, db, e);
            && next.invites.Keys == db.invites.Keys
            && RowRevoked(next, sub)
            && forall h | h in next.invites ::
                 if next.invites[h].issuedBy == sub then next.invites[h].revokedAt.Some?
                 else next.invites[h] == db.invites[h]
  {
  }

  lemma {:induction false} StepKeepsDead(cfg: Config, db: Db, e: Event, hash: string)
    requires hash in db.invites && db.invites[hash].revokedAt.Some?
    ensures var next := Step(cfg, db, e); hash in next.invites && next.invites[hash] == db.invites[hash]
  {
  }

  /** A dead invite stays dead in every later state, even if its issuer is let in again. */
  lemma {:induction false} DeadInvitesStayDead(cfg: Config, start: Db, events: seq<Event>, hash: string,
                                               sub: string, now: Time)
    requires hash in start.invites && start.invites[hash].revokedAt.Some?
    ensures var db := Run(cfg, start, events);
            && hash in db.invites && db.invites[hash] == start.invites[hash]
            && RedeemAnswer(cfg, db, hash, sub, now) == if cfg.valid(sub) then InviteRevoked else Invalid
  {
    if events != [] {
      var n := |events| - 1;
      DeadInvitesStayDead(cfg, start, events[..n], hash, sub, now);
      StepKeepsDead(cfg, Run(cfg, start, events[..n]), events[n], hash);
    }
  }

  /** How many redemptions of `hash` created a member. */
  function CreatedCount(cfg: Config, start: Db, events: seq<Event>, hash: string): nat {
    if events == [] then 0
    else
      var n := |events| - 1;
      var e := events[n];
      CreatedCount(cfg, start, events[..n], hash)
      + if e.Redeem? && e.hash == hash
           && RedeemAnswer(cfg, Run(cfg, start, events[..n]), hash, e.sub, e.now).Created? then 1 else 0
  }

  lemma {:induction false} StepSpends(cfg: Config, db: Db, e: Event, hash: string)
    ensures hash in db.invites ==>
              var next := Step(cfg, db, e);
              var created := e.Redeem? && e.hash == hash && RedeemAnswer(cfg, db, hash, e.sub, e.now).Created?;
              && hash in next.invites
              && next.invites[hash] == db.invites[hash].(revokedAt := next.invites[hash].revokedAt,
                                                         used := db.invites[hash].used + if created then 1 else 0)
    ensures hash !in db.invites ==>
              var next := Step(cfg, db, e);
              && !RedeemAnswer(cfg, db, hash, if e.Redeem? then e.sub else "", 0).Created?
              && (hash in next.invites ==> next.invites[hash].used == 0 && next.invites[hash].maxUses >= 1)
  {
  }

  /** The uses an invite has seen, in total and since the run began. */
  ghost predicate Spent(start: Db, db: Db, hash: string, created: nat) {
    if hash !in db.invites then created == 0 && hash !in start.invites
    else
      var i := db.invites[hash];
      && i.used == created + (if hash in start.invites then start.invites[hash].used else 0)
      && (hash in start.invites ==> i.maxUses == start.invites[hash].maxUses && i.role == start.invites[hash].role)
      && i.used <= i.maxUses
  }

  /** An invite is used once for every member it created, and never more often than allowed. */
  lemma {:induction false} UsesAreCreations(cfg: Config, start: Db, events: seq<Event>, hash: string)
    requires hash in start.invites ==> start.invites[hash].used <= start.invites[hash].maxUses
    ensures Spent(start, Run(cfg, start, events), hash, CreatedCount(cfg, start, events, hash))
  {
    if events != [] {
      var n := |events| - 1;
      UsesAreCreations(cfg, start, events[..n], hash);
      StepSpends(cfg, Run(cfg, start, events[..n]), events[n], hash);
    }
  }

  /**
  A redemption creates exactly when the invite is active, its issuer's row is not
  revoked and the sub is no member yet. Only a creation changes anything, and it
  admits the redeemer alone, with the invite's role.
  */
  lemma {:induction false} RedeemIff(cfg: Config, db: Db, e: Event)
    requires e.Redeem?
    ensures var answer := RedeemAnswer(cfg, db, e.hash, e.sub, e.now);
            var next := Step(cfg, db, e);
            && (answer.Created? <==>
                  && e.hash in db.invites && StatusOf(db.invites[e.hash], e.now).ActiveInvite?
                  && !RowRevoked(db, db.invites[e.hash].issuedBy)
                  && cfg.valid(e.sub) && !Active(db, e.sub))
            && (next == db <==> !answer.Created?)
            && (answer.Created? ==>
                  && Active(next, e.sub)
                  && next.members[e.sub].role == db.invites[e.hash].role
                  && next.members[e.sub].invitedBy == db.invites[e.hash].issuedBy
                  && next.members.Keys == db.members.Keys + {e.sub})
            && (answer.AlreadyMember? ==> Active(db, e.sub))
            && forall s | s in db.members && s != e.sub :: next.members[s] == db.members[s]
  {
  }

  /**
  The admin list tells a newcomer's fate exactly when the issuer's row is not
  revoked: an invite written by a member who was just revoked lists as active
  and is still refused.
  */
  lemma {:induction false} ListedStatusIsTheAnswer(cfg: Config, db: Db, hash: string, sub: string, now: Time)
    requires hash in db.invites && cfg.valid(sub) && !Active(db, sub)
    ensures var i := db.invites[hash];
            var answer := RedeemAnswer(cfg, db, hash, sub, now);
            var told := match StatusOf(i, now)
              case RevokedInvite => InviteRevoked
              case ExpiredInvite => Expired
              case ExhaustedInvite => Exhausted
              case ActiveInvite => Created;
            answer == told <==> !RowRevoked(db, i.issuedBy) || i.revokedAt.Some?
  {
  }

  lemma {:induction false} AnInviteCanOutliveItsIssuer(cfg: Config, sub: string, hash: string)
    requires cfg.valid(sub) && cfg.owners == {} && sub != "a"
    ensures var admin := Member(Admin, None, "plex", "", 0, None);
            var db := Run(cfg, Db(map["a" := admin, sub := admin], map[]),
                          [Leave(sub, 1), Issue(hash, sub, User, None, 1, 2)]);
            && hash in db.invites && StatusOf(db.invites[hash], 3) == ActiveInvite
            && RowRevoked(db, db.invites[hash].issuedBy)
  {
    var admin := Member(Admin, None, "plex", "", 0, None);
    var start := Db(map["a" := admin, sub := admin], map[]);
    var leave, issue := Leave(sub, 1), Issue(hash, sub, User, None, 1, 2);
    assert [leave, issue][..1] == [leave] && [leave][..0] == [];
    assert Run(cfg, start, [leave]) == Step(cfg, start, leave);
    assert "a" in OtherAdmins(cfg, start, sub);
  }

  // --- where administrators come from ---------------------------------------------------------------------

  ghost predicate AdminOnlyByInvite(cfg: Config, start: Db, db: Db) {
    && (forall s | s in db.members && db.members[s].role == Admin ::
          && s in start.members && start.members[s].role == Admin
          && (start.members[s].revokedAt.Some? ==> db.members[s].revokedAt.Some?))
    && (forall h | h in db.invites :: db.invites[h].role == User)
  }

  /** Without an admin invite, a run makes no new administrator and restores no revoked one. */
  lemma {:induction false} NoAdminWithoutAnAdminInvite(cfg: Config, start: Db, events: seq<Event>)
    requires forall h | h in start.invites :: start.invites[h].role == User
    requires forall e | e in events && e.Issue? :: e.role == User
    ensures AdminOnlyByInvite(cfg, start, Run(cfg, start, events))
  {
    if events != [] {
      var n := |events| - 1;
      NoAdminWithoutAnAdminInvite(cfg, start, events[..n]);
      assert events[n] in events;
    }
  }
}
