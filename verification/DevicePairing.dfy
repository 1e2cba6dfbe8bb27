/**
Pairing a device by a short code: the device starts, a signed-in member claims,
the device's poll mints. Every SQL statement is a step of its own, so any
number of starts, claims and polls interleave between them.
*/
module DevicePairing {
  import opened Identity
  import opened Util

  const LINK_CODE_TTL_SECS: int := 600

  /** Who claimed a code, as its row stores it. */
  datatype Claim = Claim(sub: string, username: string, role: string, mode: string)

  datatype Device = Device(id: string, name: string, platform: string)

  datatype Row = Row(device: Device, expiresAt: int, claim: Option<Claim>, consumed: bool)

  /** The signed-in member behind a claim. */
  datatype Session = Session(sub: string, username: string, role: Role, mode: AuthMode)

  /** What a minted token carries. */
  datatype Grant = Grant(sub: string, username: string, role: Role, mode: AuthMode, device: Device)

  type Table = map<string, Row>

  // --- statements -----------------------------------------------------------------------------

  function Swept(t: Table, now: int): Table {
    map code | code in t && !(t[code].expiresAt < now - LINK_CODE_TTL_SECS) :: t[code]
  }

  function Inserted(t: Table, code: string, device: Device, now: int): Table {
    if code in t then t else t[code := Row(device, now + LINK_CODE_TTL_SECS, None, false)]
  }

  function ClaimOf(s: Session): Claim {
    Claim(s.sub, s.username, RoleText(s.role), ModeText(s.mode))
  }

  predicate Bindable(t: Table, code: string) {
    code in t && t[code].claim.None?
  }

  function Bound(t: Table, code: string, s: Session): Table {
    if Bindable(t, code) then t[code := t[code].(claim := Some(ClaimOf(s)))] else t
  }

  predicate Consumable(t: Table, code: string) {
    code in t && !t[code].consumed
  }

  function Consumed(t: Table, code: string): Table {
    if Consumable(t, code) then t[code := t[code].(consumed := true)] else t
  }

  // --- verdicts on the row that was read -----------------------------------------------------------

  datatype ClaimAnswer = UnknownCode | Gone | AlreadyClaimed | ClaimBound(device: Device)

  datatype PollAnswer = DeniedUnknown | DeniedExpired | Pending | Authorized(grant: Grant)

  /** None when the claim may go on to its update. */
  function ClaimRefusal(row: Option<Row>, now: int): Option<ClaimAnswer> {
    if row.None? then Some(UnknownCode)
    else if row.value.expiresAt < now then Some(Gone)
    else if row.value.claim.Some? then Some(AlreadyClaimed)
    else None
  }

  /** What a poll is about to mint, or why it stops. A mode that does not parse is refused, a role is not. */
  function PollVerdict(row: Option<Row>, deviceId: string, now: int): PollAnswer {
    if row.None? || row.value.device.id != deviceId || row.value.consumed then DeniedUnknown
    else if row.value.expiresAt < now then DeniedExpired
    else if row.value.claim.None? then Pending
    else
      var c := row.value.claim.value;
      var role := ParseRole(c.role);
      var mode := ParseMode(c.mode);
      if mode.None? then DeniedUnknown
      else Authorized(Grant(c.sub, c.username, if role.Some? then role.value else User, mode.value, row.value.device))
  }

  // --- the handlers, statement by statement ---------------------------------------------------------

  class LinkCodes {
    var rows: Table

    constructor ()
      ensures rows == map[]
    {
      rows := map[];
    }

    method Read(code: string) returns (r: Option<Row>)
      ensures r == if code in rows then Some(rows[code]) else None
    {
      return if code in rows then Some(rows[code]) else None;
    }

    method Start(code: string, device: Device, now: int)
      modifies this
      ensures rows == Inserted(Swept(old(rows), now), code, device, now)
    {
      rows := map c | c in rows && rows[c].expiresAt >= now - LINK_CODE_TTL_SECS :: rows[c];
      if code !in rows {
        rows := rows[code := Row(device, now + LINK_CODE_TTL_SECS, None, false)];
      }
    }

    method Bind(code: string, s: Session) returns (bound: nat)
      modifies this
      ensures rows == Bound(old(rows), code, s)
      ensures bound == if Bindable(old(rows), code) then 1 else 0
    {
      bound := 0;
      if code in rows && rows[code].claim == None {
        rows := rows[code := rows[code].(claim := Some(Claim(s.sub, s.username, RoleText(s.role), ModeText(s.mode))))];
        bound := 1;
      }
    }

    method Consume(code: string) returns (won: nat)
      modifies this
      ensures rows == Consumed(old(rows), code)
      ensures won == if Consumable(old(rows), code) then 1 else 0
    {
      won := 0;
      if code in rows && !rows[code].consumed {
        rows := rows[code := rows[code].(consumed := true)];
        won := 1;
      }
    }

    /** A claim that nothing interrupts. */
    method ClaimCode(code: string, s: Session, now: int) returns (r: ClaimAnswer)
      modifies this
      ensures var row := if code in old(rows) then Some(old(rows)[code]) else None;
              var refusal := ClaimRefusal(row, now);
              && (refusal.Some? ==> r == refusal.value && rows == old(rows))
              && (refusal.None? ==> r == ClaimBound(row.value.device) && rows == Bound(old(rows), code, s))
    {
      var row := Read(code);
      if row.None? {
        return UnknownCode;
      }
      if row.value.expiresAt < now {
        return Gone;
      }
      if row.value.claim.Some? {
        return AlreadyClaimed;
      }
      var bound := Bind(code, s);
      return if bound == 0 then AlreadyClaimed else ClaimBound(row.value.device);
    }

    /** A poll that nothing interrupts, up to its mint. */
    method Poll(code: string, deviceId: string, now: int) returns (r: PollAnswer)
      modifies this
      ensures r == PollVerdict(if code in old(rows) then Some(old(rows)[code]) else None, deviceId, now)
      ensures rows == if r.Authorized? then Consumed(old(rows), code) else old(rows)
    {
      var row := Read(code);
      if row.None? || row.value.device.id != deviceId || row.value.consumed {
        return DeniedUnknown;
      }
      if row.value.expiresAt < now {
        return DeniedExpired;
      }
      if row.value.claim.None? {
        return Pending;
      }
      var c := row.value.claim.value;
      var role := ParseRole(c.role);
      var mode := ParseMode(c.mode);
      if mode.None? {
        return DeniedUnknown;
      }
      var won := Consume(code);
      if won == 0 {
        return DeniedUnknown;
      }
      return Authorized(Grant(c.sub, c.username, if role.Some? then role.value else User, mode.value,
                              row.value.device));
    }
  }

  // --- interleavings -------------------------------------------------------------------------------------

  /** A request between two of its statements. */
  datatype Task =
    | Claiming(code: string, binding: Binding)
    | Polling(code: string, token: Token)
    | Minting(code: string, token: Token)

  /** Who claimed, and what was minted, with the clock each request read when it began. */
  datatype Binding = Binding(session: Session, at: int)
  datatype Token = Token(grant: Grant, at: int)

  /** The life of a code so far: the device that started it and when, who bound it, what was minted for it. */
  datatype Past = Past(device: Device, startedAt: int, bound: seq<Binding>, minted: seq<Token>)

  datatype Sys = Sys(rows: Table, tasks: map<nat, Task>, past: map<string, Past>)

  datatype Event =
    | Sweep(now: int)
    | Insert(code: string, device: Device, now: int)
    | ClaimRead(task: nat, code: string, session: Session, now: int)
    | ClaimWrite(task: nat)
    | PollRead(task: nat, code: string, deviceId: string, now: int)
    | PollConsume(task: nat)
    | PollMint(task: nat, succeeds: bool)
    | Drop(task: nat)

  function RowOf(t: Table, code: string): Option<Row> {
    if code in t then Some(t[code]) else None
  }

  function Without(tasks: map<nat, Task>, id: nat): map<nat, Task> {
    tasks - {id}
  }

  /** A code is drawn afresh. */
  predicate Enabled(s: Sys, e: Event) {
    match e
    case Insert(code, _, _) => code !in s.past && code !in s.rows
    case ClaimRead(id, _, _, _) => id !in s.tasks
    case PollRead(id, _, _, _) => id !in s.tasks
    case ClaimWrite(id) => id in s.tasks && s.tasks[id].Claiming?
    case PollConsume(id) => id in s.tasks && s.tasks[id].Polling?
    case PollMint(id, _) => id in s.tasks && s.tasks[id].Minting?
    case _ => true
  }

  /** A row can only hold a code that was started, so the past of a bound code exists. */
  function WriteClaim(s: Sys, id: nat): Sys
    requires id in s.tasks && s.tasks[id].Claiming?
  {
    var Claiming(code, binding) := s.tasks[id];
    s.(rows := Bound(s.rows, code, binding.session),
       tasks := Without(s.tasks, id),
       past := if Bindable(s.rows, code) && code in s.past
               then s.past[code := s.past[code].(bound := s.past[code].bound + [binding])]
               else s.past)
  }

  function ConsumeCode(s: Sys, id: nat): Sys
    requires id in s.tasks && s.tasks[id].Polling?
  {
    var Polling(code, token) := s.tasks[id];
    s.(rows := Consumed(s.rows, code),
       tasks := if Consumable(s.rows, code) then s.tasks[id := Minting(code, token)] else Without(s.tasks, id))
  }

  function MintToken(s: Sys, id: nat, succeeds: bool): Sys
    requires id in s.tasks && s.tasks[id].Minting?
  {
    var Minting(code, token) := s.tasks[id];
    s.(tasks := Without(s.tasks, id),
       past := if succeeds && code in s.past
               then s.past[code := s.past[code].(minted := s.past[code].minted + [token])]
               else s.past)
  }

  function Step(s: Sys, e: Event): Sys
    requires Enabled(s, e)
  {
    match e
    case Sweep(now) => s.(rows := Swept(s.rows, now))
    case Insert(code, device, now) =>
      s.(rows := Inserted(s.rows, code, device, now), past := s.past[code := Past(device, now, [], [])])
    case ClaimRead(id, code, session, now) =>
      if ClaimRefusal(RowOf(s.rows, code), now).Some? then s
      else s.(tasks := s.tasks[id := Claiming(code, Binding(session, now))])
    case ClaimWrite(id) => WriteClaim(s, id)
    case PollRead(id, code, deviceId, now) =>
      var verdict := PollVerdict(RowOf(s.rows, code), deviceId, now);
      if verdict.Authorized? then s.(tasks := s.tasks[id := Polling(code, Token(verdict.grant, now))]) else s
    case PollConsume(id) => ConsumeCode(s, id)
    case PollMint(id, succeeds) => MintToken(s, id, succeeds)
    case Drop(id) => s.(tasks := Without(s.tasks, id))
  }

  function Start(): Sys {
    Sys(map[], map[], map[])
  }

  /** A run, or None when some event could not happen. */
  function Run(events: seq<Event>): Option<Sys> {
    if events == [] then Some(Start())
    else
      var before := Run(events[..|events| - 1]);
      var e := events[|events| - 1];
      if before.None? || !Enabled(before.value, e) then None else Some(Step(before.value, e))
  }

  // --- what every step keeps ---------------------------------------------------------------------------------

  function GrantOf(s: Session, d: Device): Grant {
    Grant(s.sub, s.username, s.role, s.mode, d)
  }

  predicate InTime(p: Past, at: int) {
    at <= p.startedAt + LINK_CODE_TTL_SECS
  }

  /** The token grants the one bound claim, on the device that started the code, before the code expired. */
  predicate Owed(p: Past, t: Token) {
    |p.bound| == 1 && t.grant == GrantOf(p.bound[0].session, p.device) && InTime(p, t.at)
  }

  /** One claim at most, made in time, and one token at most, minted from that claim. */
  predicate Single(p: Past) {
    && |p.bound| <= 1 && |p.minted| <= 1
    && (p.bound != [] ==> InTime(p, p.bound[0].at))
    && (p.minted != [] ==> Owed(p, p.minted[0]))
  }

  predicate RowFits(r: Row, p: Past) {
    && r.device == p.device && r.expiresAt == p.startedAt + LINK_CODE_TTL_SECS
    && (r.claim.Some? <==> |p.bound| == 1)
    && (r.claim.Some? ==> r.claim.value == ClaimOf(p.bound[0].session))
    && (!r.consumed ==> p.minted == [])
  }

  predicate TaskFits(s: Sys, t: Task) {
    && t.code in s.past
    && (t.Claiming? ==> InTime(s.past[t.code], t.binding.at))
    && (!t.Claiming? ==> Owed(s.past[t.code], t.token))
    && (t.Minting? ==> s.past[t.code].minted == [] && (t.code in s.rows ==> s.rows[t.code].consumed))
  }

  ghost predicate Inv(s: Sys) {
    && (forall code | code in s.past :: Single(s.past[code]))
    && (forall code | code in s.rows :: code in s.past && RowFits(s.rows[code], s.past[code]))
    && (forall id | id in s.tasks :: TaskFits(s, s.tasks[id]))
    && (forall a, b | a in s.tasks && b in s.tasks && a != b && s.tasks[a].Minting? && s.tasks[b].Minting? ::
          s.tasks[a].code != s.tasks[b].code)
  }

  lemma {:induction false} StepKeepsInv(s: Sys, e: Event)
    requires Inv(s) && Enabled(s, e)
    ensures Inv(Step(s, e))
  {
    match e
    case Insert(_, _, _) =>
      InsertKeepsInv(s, e);
    case ClaimWrite(id) =>
      WriteKeepsInv(s, id);
    case PollRead(id, code, deviceId, now) =>
      ReadKeepsInv(s, e);
    case PollConsume(id) =>
      ConsumeKeepsInv(s, id);
    case PollMint(id, succeeds) =>
      MintKeepsInv(s, id, succeeds);
    case _ =>
      QuietKeepsInv(s, e);
  }

  lemma {:induction false} QuietKeepsInv(s: Sys, e: Event)
    requires Inv(s) && Enabled(s, e) && (e.Sweep? || e.ClaimRead? || e.Drop?)
    ensures Inv(Step(s, e))
  {
  }

  lemma {:induction false} InsertKeepsInv(s: Sys, e: Event)
    requires Inv(s) && Enabled(s, e) && e.Insert?
    ensures Inv(Step(s, e))
  {
  }

  lemma {:induction false} WriteKeepsInv(s: Sys, id: nat)
    requires Inv(s) && id in s.tasks && s.tasks[id].Claiming?
    ensures Inv(WriteClaim(s, id))
  {
  }

  /** A row that authorizes holds the bound claim: its role and mode read back as they were. */
  lemma {:induction false} VerdictIsOwed(r: Row, p: Past, deviceId: string, now: int)
    requires Single(p) && RowFits(r, p) && PollVerdict(Some(r), deviceId, now).Authorized?
    ensures Owed(p, Token(PollVerdict(Some(r), deviceId, now).grant, now))
  {
    ParseOfText(p.bound[0].session.role, p.bound[0].session.mode);
  }

  lemma {:induction false} ReadKeepsInv(s: Sys, e: Event)
    requires Inv(s) && Enabled(s, e) && e.PollRead?
    ensures Inv(Step(s, e))
  {
    var row := RowOf(s.rows, e.code);
    var verdict := PollVerdict(row, e.deviceId, e.now);
    if verdict.Authorized? {
      VerdictIsOwed(row.value, s.past[e.code], e.deviceId, e.now);
      TaskAdded(s, e.task, Polling(e.code, Token(verdict.grant, e.now)));
    }
  }

  lemma {:induction false} TaskAdded(s: Sys, id: nat, t: Task)
    requires Inv(s) && TaskFits(s, t) && !t.Minting?
    ensures Inv(s.(tasks := s.tasks[id := t]))
  {
  }

  lemma {:induction false} ConsumeKeepsInv(s: Sys, id: nat)
    requires Inv(s) && id in s.tasks && s.tasks[id].Polling?
    ensures Inv(ConsumeCode(s, id))
  {
  }

  lemma {:induction false} MintKeepsInv(s: Sys, id: nat, succeeds: bool)
    requires Inv(s) && id in s.tasks && s.tasks[id].Minting?
    ensures Inv(MintToken(s, id, succeeds))
  {
  }

  /** In every interleaving, a code binds one claim at most and yields one token at most, minted from that claim. */
  lemma {:induction false} OneClaimOneToken(events: seq<Event>)
    requires Run(events).Some?
    ensures Inv(Run(events).value)
    ensures forall code | code in Run(events).value.past :: Single(Run(events).value.past[code])
  {
    if events != [] {
      var n := |events| - 1;
      OneClaimOneToken(events[..n]);
      StepKeepsInv(Run(events[..n]).value, events[n]);
    }
  }

  /** What the pairing was for is remembered: the past of a code only grows. */
  lemma {:induction false} PastGrows(s: Sys, e: Event, code: string)
    requires Enabled(s, e) && code in s.past
    ensures var t := Step(s, e);
            && code in t.past && t.past[code].device == s.past[code].device
            && t.past[code].startedAt == s.past[code].startedAt
            && s.past[code].bound <= t.past[code].bound && s.past[code].minted <= t.past[code].minted
  {
  }
}
