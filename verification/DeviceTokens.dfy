/**
Device tokens: 180-day bearer claims that verify only while their row is live
and their jti is not revoked. Rows are swept by a millisecond clock and checked
by a whole-second one.
*/
module DeviceTokens {
  import opened Identity
  import opened Util

  const TTL_SECS: int := 180 * 24 * 60 * 60
  const NBF_SKEW_SECS: int := 30
  const EXP_SKEW_SECS: int := 5

  /** What a token decrypts to; role and mode are text on the wire. */
  datatype Claims = Claims(sub: string, role: string, mode: string, jti: string, nbf: int, exp: int)

  datatype Row = Row(sub: string, exp: int)

  datatype Store = Store(rows: map<string, Row>, revoked: set<string>)

  function Seconds(ms: int): int {
    ms / 1000
  }

  // --- statements ---------------------------------------------------------------------------

  function Minted(sub: string, role: Role, mode: AuthMode, jti: string, ms: int): Claims {
    Claims(sub, RoleText(role), ModeText(mode), jti, Seconds(ms), Seconds(ms) + TTL_SECS)
  }

  function WithMinted(s: Store, c: Claims): Store {
    s.(rows := s.rows[c.jti := Row(c.sub, c.exp)])
  }

  function WithRevoked(s: Store, jti: string): Store {
    s.(revoked := s.revoked + {jti})
  }

  function JtisOf(s: Store, sub: string): set<string> {
    set jti | jti in s.rows && s.rows[jti].sub == sub
  }

  function WithCascade(s: Store, sub: string): Store {
    s.(revoked := s.revoked + JtisOf(s, sub))
  }

  function Swept(s: Store, ms: int): Store {
    s.(rows := map jti | jti in s.rows && !(s.rows[jti].exp * 1000 < ms) :: s.rows[jti])
  }

  predicate InWindow(c: Claims, now: int) {
    c.nbf <= now + NBF_SKEW_SECS && now - EXP_SKEW_SECS <= c.exp
  }

  /** The verdict on a token that decrypts to `c`, or does not decrypt. */
  predicate Verifies(s: Store, token: Option<Claims>, now: int) {
    && token.Some?
    && var c := token.value;
    && ParseRole(c.role).Some? && ParseMode(c.mode).Some?
    && InWindow(c, now)
    && c.jti in s.rows && s.rows[c.jti].exp > now
    && c.jti !in s.revoked
  }

  lemma {:induction false} CountGone(before: map<string, Row>, after: map<string, Row>, gone: set<string>)
    requires gone <= before.Keys && after.Keys == before.Keys - gone
    ensures |gone| == |before| - |after|
  {
    assert |before| == |before.Keys| && |after| == |after.Keys|;
  }

  class TokenTable {
    var rows: map<string, Row>
    var revoked: set<string>

    ghost function State(): Store
      reads this
    {
      Store(rows, revoked)
    }

    constructor ()
      ensures State() == Store(map[], {})
    {
      rows, revoked := map[], {};
    }

    /** A malformed sub mints nothing. */
    method Mint(validSub: string -> bool, sub: string, role: Role, mode: AuthMode, jti: string, ms: int)
      returns (token: Option<Claims>)
      modifies this`rows
      ensures token == if validSub(sub) then Some(Minted(sub, role, mode, jti, ms)) else None
      ensures State() == if validSub(sub) then WithMinted(old(State()), token.value) else old(State())
    {
      if !validSub(sub) {
        return None;
      }
      var now := Seconds(ms);
      var exp := now + TTL_SECS;
      token := Some(Claims(sub, RoleText(role), ModeText(mode), jti, now, exp));
      rows := rows[jti := Row(sub, exp)];
    }

    method Verify(token: Option<Claims>, now: int) returns (r: Option<Claims>)
      ensures r == if Verifies(State(), token, now) then token else None
    {
      if token.None? {
        return None;
      }
      var c := token.value;
      if ParseRole(c.role).None? || ParseMode(c.mode).None? {
        return None;
      }
      if now + NBF_SKEW_SECS < c.nbf || now - EXP_SKEW_SECS > c.exp {
        return None;
      }
      var live := c.jti in rows && rows[c.jti].exp > now && c.jti !in revoked;
      return if live then token else None;
    }

    method Revoke(jti: string)
      modifies this`revoked
      ensures State() == WithRevoked(old(State()), jti)
    {
      revoked := revoked + {jti};
    }

    method CascadeRevokeForSub(sub: string) returns (n: nat)
      modifies this`revoked
      ensures State() == WithCascade(old(State()), sub)
      ensures n == |JtisOf(old(State()), sub)|
    {
      var held := set jti | jti in rows && rows[jti].sub == sub;
      n := |held|;
      revoked := revoked + held;
    }

    method SweepExpired(ms: int) returns (n: nat)
      modifies this`rows
      ensures State() == Swept(old(State()), ms)
      ensures n == |old(rows)| - |rows|
    {
      var gone := set jti | jti in rows && rows[jti].exp * 1000 < ms;
      n := |gone|;
      var kept := map jti | jti in rows && jti !in gone :: rows[jti];
      CountGone(rows, kept, gone);
      rows := kept;
    }
  }

  // --- runs ------------------------------------------------------------------------------------

  datatype Event =
    | Mint(sub: string, role: Role, mode: AuthMode, jti: string, ms: int)
    | Revoke(jti: string, ms: int)
    | Cascade(sub: string, ms: int)
    | Sweep(ms: int)

  function Step(s: Store, e: Event): Store {
    match e
    case Mint(sub, role, mode, jti, ms) => WithMinted(s, Minted(sub, role, mode, jti, ms))
    case Revoke(jti, ms) => WithRevoked(s, jti)
    case Cascade(sub, ms) => WithCascade(s, sub)
    case Sweep(ms) => Swept(s, ms)
  }

  function Run(events: seq<Event>): Store {
    if events == [] then Store(map[], {}) else Step(Run(events[..|events| - 1]), events[|events| - 1])
  }

  /** Every token ever minted, by jti. */
  function Issued(events: seq<Event>): map<string, Claims> {
    if events == [] then map[]
    else
      var e := events[|events| - 1];
      var before := Issued(events[..|events| - 1]);
      if e.Mint? then before[e.jti := Minted(e.sub, e.role, e.mode, e.jti, e.ms)] else before
  }

  /** Every token ever taken back, swept or not: the reference the table is measured against. */
  function TakenBack(events: seq<Event>): set<string> {
    if events == [] then {}
    else
      var e := events[|events| - 1];
      var before := TakenBack(events[..|events| - 1]);
      var issued := Issued(events[..|events| - 1]);
      match e
      case Revoke(jti, _) => before + {jti}
      case Cascade(sub, _) => before + set jti | jti in issued && issued[jti].sub == sub
      case _ => before
  }

  /** A jti is minted once. */
  ghost predicate MintedOnce(events: seq<Event>) {
    events == [] ||
    var n := |events| - 1;
    && MintedOnce(events[..n])
    && (events[n].Mint? ==> events[n].jti !in Issued(events[..n]) && events[n].jti !in TakenBack(events[..n]))
  }

  /** No sweep has read a later second than `now`; stamps may otherwise come in any order. */
  predicate SweptBy(events: seq<Event>, now: int) {
    forall i | 0 <= i < |events| && events[i].Sweep? :: Seconds(events[i].ms) <= now
  }

  /** A token in the table is as history has it; one that is not there is expired at `now`, if sweeps are no later. */
  ghost predicate Faithful(s: Store, issued: map<string, Claims>, takenBack: set<string>, now: int, early: bool) {
    && s.revoked <= takenBack
    && s.rows.Keys <= issued.Keys
    && forall jti | jti in issued ::
         && issued[jti].jti == jti
         && (jti in s.rows ==> s.rows[jti] == Row(issued[jti].sub, issued[jti].exp))
         && (jti in s.rows ==> (jti in takenBack <==> jti in s.revoked))
         && (jti !in s.rows && early ==> issued[jti].exp <= now)
  }

  lemma {:induction false} RunIsFaithful(events: seq<Event>, now: int)
    requires MintedOnce(events)
    ensures Faithful(Run(events), Issued(events), TakenBack(events), now, SweptBy(events, now))
  {
    if events != [] {
      var n := |events| - 1;
      var e, before := events[n], events[..n];
      RunIsFaithful(before, now);
      if SweptBy(events, now) {
        assert forall i | 0 <= i < n :: before[i] == events[i];
        assert SweptBy(before, now);
      }
      var swept := SweptBy(before, now);
      StepIsFaithful(Run(before), Issued(before), TakenBack(before), e, now, swept, SweptBy(events, now));
    }
  }

  lemma {:induction false} StepIsFaithful(s: Store, issued: map<string, Claims>, takenBack: set<string>, e: Event,
                                          now: int, early: bool, stillEarly: bool)
    requires Faithful(s, issued, takenBack, now, early)
    requires e.Mint? ==> e.jti !in issued && e.jti !in takenBack
    requires stillEarly ==> early && (e.Sweep? ==> Seconds(e.ms) <= now)
    ensures var nowIssued := if e.Mint? then issued[e.jti := Minted(e.sub, e.role, e.mode, e.jti, e.ms)] else issued;
            var nowTaken := match e
              case Revoke(jti, _) => takenBack + {jti}
              case Cascade(sub, _) => takenBack + set jti | jti in issued && issued[jti].sub == sub
              case _ => takenBack;
            Faithful(Step(s, e), nowIssued, nowTaken, now, stillEarly)
  {
  }

  /**
  The table decides exactly as history does, at any second that no sweep has
  read past: a minted token verifies from 30 s before it was minted until its
  expiry, unless it was taken back. Sweeping never shows, and the skew allowed
  after expiry never helps.
  */
  lemma {:induction false} VerdictIsHistory(events: seq<Event>, jti: string, now: int)
    requires MintedOnce(events) && jti in Issued(events) && SweptBy(events, now)
    ensures var c := Issued(events)[jti];
            && (Verifies(Run(events), Some(c), now)
                <==> (jti !in TakenBack(events) && c.nbf <= now + NBF_SKEW_SECS && now < c.exp))
  {
    RunIsFaithful(events, now);
    IssuedIsMinted(events, jti);
  }

  lemma {:induction false} IssuedIsMinted(events: seq<Event>, jti: string)
    requires jti in Issued(events)
    ensures var c := Issued(events)[jti]; ParseRole(c.role).Some? && ParseMode(c.mode).Some? && c.jti == jti
  {
    var n := |events| - 1;
    var e := events[n];
    if e.Mint? && e.jti == jti {
      ParseOfText(e.role, e.mode);
    } else {
      IssuedIsMinted(events[..n], jti);
    }
  }

  /** What was taken back stays taken back. */
  lemma {:induction false} TakenBackGrows(early: seq<Event>, late: seq<Event>)
    ensures TakenBack(early) <= TakenBack(early + late)
  {
    if late == [] {
      assert early + late == early;
    } else {
      var n := |late| - 1;
      assert (early + late)[..|early| + n] == early + late[..n];
      TakenBackGrows(early, late[..n]);
    }
  }

  /** Once revoked, by itself or with its holder, a token is refused in every later state and at any time. */
  lemma {:induction false} RevokedNeverVerifies(early: seq<Event>, late: seq<Event>, jti: string, now: int)
    requires MintedOnce(early + late) && early != [] && jti in Issued(early)
    requires var e := early[|early| - 1];
             (e.Revoke? && e.jti == jti) || (e.Cascade? && jti in Issued(early) && Issued(early)[jti].sub == e.sub)
    ensures !Verifies(Run(early + late), Some(Issued(early)[jti]), now)
  {
    TakenBackGrows(early, late);
    IssuedGrows(early, late, jti);
    RunIsFaithful(early + late, now);
  }

  lemma {:induction false} IssuedGrows(early: seq<Event>, late: seq<Event>, jti: string)
    requires MintedOnce(early + late) && jti in Issued(early)
    ensures jti in Issued(early + late) && Issued(early + late)[jti] == Issued(early)[jti]
  {
    if late == [] {
      assert early + late == early;
    } else {
      var n := |late| - 1;
      assert (early + late)[..|early| + n] == early + late[..n];
      IssuedGrows(early, late[..n], jti);
    }
  }

  /** Sweeping on the spot changes a verdict exactly for a live token that the sweep takes for expired. */
  lemma {:induction false} SweepingIsInvisibleIff(s: Store, ms: int, token: Option<Claims>, now: int)
    ensures (Verifies(Swept(s, ms), token, now) <==> Verifies(s, token, now))
        <==> !(Verifies(s, token, now) && s.rows[token.value.jti].exp * 1000 < ms)
    ensures Verifies(s, token, now) && s.rows[token.value.jti].exp * 1000 < ms ==> now < Seconds(ms)
  {
  }
}
