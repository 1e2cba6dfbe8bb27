/**
Fixed-window rate limits. A request counts against several buckets at once or,
when one is full, against none; expired buckets are swept at most once a
minute. A request reads the clock, in nanoseconds, before it takes the lock:
requests are listed in the order they get the lock, and their stamps may come
in any order.
*/
module RateLimiter {
  import opened Util
  import Decimal

  const WINDOW: nat := 60_000_000_000
  const SWEEP_EVERY: nat := 60_000_000_000
  const SECOND: nat := 1_000_000_000
  const MILLISECOND: nat := 1_000_000
  const PIN_LIMIT: nat := 60

  datatype Kind = Pin | Check | Apple | Google | Workos {
    function Name(): string {
      match this
      case Pin => "pin"
      case Check => "check"
      case Apple => "apple"
      case Google => "google"
      case Workos => "workos"
    }

    function ClientLimit(): nat {
      match this
      case Pin => 10
      case Check => 300
      case _ => 20
    }

    function GlobalLimit(): nat {
      match this
      case Pin => 120
      case Check => 600
      case _ => 200
    }
  }

  datatype Scope = Global | TrustedClient | PlexPin | Identity

  datatype Rule = Rule(key: string, scope: Scope, limit: nat)

  datatype Bucket = Bucket(count: nat, resetAt: nat)

  type Map = map<string, Bucket>

  datatype Refusal = Refusal(scope: Scope, resetAt: nat)

  // --- one request ------------------------------------------------------------------

  /** The key's bucket while its window lasts. */
  function Live(m: Map, key: string, now: nat): Option<Bucket> {
    if key in m && m[key].resetAt > now then Some(m[key]) else None
  }

  function Current(m: Map, key: string, now: nat): Bucket {
    var live := Live(m, key, now);
    if live.Some? then live.value else Bucket(0, now + WINDOW)
  }

  /** The first rule whose bucket is full. */
  function FirstFull(m: Map, rules: seq<Rule>, now: nat): (r: Option<Rule>)
    ensures r.Some? ==> r.value in rules && Current(m, r.value.key, now).count >= r.value.limit
    ensures r.None? <==> forall i | 0 <= i < |rules| :: Current(m, rules[i].key, now).count < rules[i].limit
  {
    if rules == [] then None
    else if Current(m, rules[0].key, now).count >= rules[0].limit then Some(rules[0])
    else
      var rest := FirstFull(m, rules[1..], now);
      assert rules == [rules[0]] + rules[1..];
      rest
  }

  /** Every rule's bucket, as it stood before the request, goes up by one. */
  function CountUp(m: Map, before: Map, rules: seq<Rule>, now: nat): Map {
    if rules == [] then m
    else
      var last := rules[|rules| - 1];
      var current := Current(before, last.key, now);
      CountUp(m, before, rules[..|rules| - 1], now)[last.key := current.(count := current.count + 1)]
  }

  function Decide(m: Map, now: nat, rules: seq<Rule>): (Map, Option<Refusal>) {
    var full := FirstFull(m, rules, now);
    if full.Some? then
      var bucket := Current(m, full.value.key, now);
      (m[full.value.key := bucket], Some(Refusal(full.value.scope, bucket.resetAt)))
    else (CountUp(m, m, rules, now), None)
  }

  function Sweep(m: Map, now: nat): Map {
    map key | key in m && m[key].resetAt > now :: m[key]
  }

  predicate SweepDue(lastSweep: Option<nat>, now: nat) {
    lastSweep.None? || now - lastSweep.value >= SWEEP_EVERY
  }

  class Limiter {
    var buckets: Map
    var lastSweep: Option<nat>

    constructor ()
      ensures buckets == map[] && lastSweep == None
    {
      buckets, lastSweep := map[], None;
    }

    method SweepBuckets(now: nat)
      modifies this
      ensures buckets == if SweepDue(old(lastSweep), now) then Sweep(old(buckets), now) else old(buckets)
      ensures lastSweep == if SweepDue(old(lastSweep), now) then Some(now) else old(lastSweep)
    {
      if lastSweep.Some? && now - lastSweep.value < SWEEP_EVERY {
        return;
      }
      lastSweep := Some(now);
      buckets := map key | key in buckets && buckets[key].resetAt > now :: buckets[key];
    }

    /** All rules pass and each count goes up, or the first full bucket refuses and nothing is counted. */
    method Apply(now: nat, rules: seq<Rule>) returns (r: Option<Refusal>)
      modifies this
      ensures var swept := if SweepDue(old(lastSweep), now) then Sweep(old(buckets), now) else old(buckets);
              (buckets, r) == Decide(swept, now, rules)
      ensures lastSweep == if SweepDue(old(lastSweep), now) then Some(now) else old(lastSweep)
    {
      SweepBuckets(now);
      var before := buckets;
      var current := seq(|rules|, i requires 0 <= i < |rules| => Current(before, rules[i].key, now));
      var i := 0;
      while i < |rules|
        invariant 0 <= i <= |rules| && buckets == before
        invariant forall j | 0 <= j < i :: current[j].count < rules[j].limit
        invariant FirstFull(before, rules, now) == FirstFull(before, rules[i..], now)
        invariant lastSweep == if SweepDue(old(lastSweep), now) then Some(now) else old(lastSweep)
      {
        if current[i].count >= rules[i].limit {
          buckets := buckets[rules[i].key := current[i]];
          return Some(Refusal(rules[i].scope, current[i].resetAt));
        }
        assert rules[i..][1..] == rules[i + 1..];
        i := i + 1;
      }
      i := 0;
      while i < |rules|
        invariant 0 <= i <= |rules|
        invariant buckets == CountUp(before, before, rules[..i], now)
        invariant lastSweep == if SweepDue(old(lastSweep), now) then Some(now) else old(lastSweep)
      {
        assert rules[..i + 1][..i] == rules[..i];
        buckets := buckets[rules[i].key := current[i].(count := current[i].count + 1)];
        i := i + 1;
      }
      assert rules[..i] == rules;
      r := None;
    }
  }

  // --- the rules of a request -----------------------------------------------------------

  datatype Call =
    | CheckCall(kind: Kind, client: Option<(string, string)>, pin: Option<int>)
    | IdentityCall(kind: Kind, digest: string)

  function RulesOf(call: Call): seq<Rule> {
    var prefix := call.kind.Name() + ":";
    match call
    case CheckCall(kind, client, pin) =>
      [Rule(prefix + "global", Global, kind.GlobalLimit())] +
      (if client.Some? then
         [Rule(prefix + "client:" + client.value.0 + ":" + client.value.1, TrustedClient, kind.ClientLimit())]
       else []) +
      (if pin.Some? then [Rule(prefix + "pin:" + Decimal.Show(pin.value), PlexPin, PIN_LIMIT)] else [])
    case IdentityCall(kind, digest) =>
      [Rule(prefix + "identity:" + digest, Identity, kind.ClientLimit())]
  }

  /** The limit a key's own text stands for. */
  function LimitOf(key: string): nat {
    if key == "" then 0
    else
      var kind := match key[0] case 'p' => Pin case 'c' => Check case 'a' => Apple case 'g' => Google case _ => Workos;
      var tag := |kind.Name()| + 1;
      if |key| <= tag then 0
      else match key[tag]
           case 'g' => kind.GlobalLimit()
           case 'p' => PIN_LIMIT
           case _ => kind.ClientLimit()
  }

  predicate Distinct(rules: seq<Rule>) {
    forall i, j | 0 <= i < j < |rules| :: rules[i].key != rules[j].key
  }

  predicate Priced(rules: seq<Rule>) {
    forall i | 0 <= i < |rules| :: rules[i].limit == LimitOf(rules[i].key)
  }

  /** Every rule lets something through and has a scope of its own. */
  predicate Apart(rules: seq<Rule>) {
    && (forall i | 0 <= i < |rules| :: rules[i].limit > 0)
    && forall i, j | 0 <= i < j < |rules| :: rules[i].scope != rules[j].scope
  }

  /** The text after the kind starts with a letter of its own for every scope. */
  lemma {:induction false} KeyShape(kind: Kind, rest: string)
    requires rest != ""
    ensures var key := kind.Name() + ":" + rest;
            && |kind.Name()| + 1 < |key| && key[|kind.Name()| + 1] == rest[0]
            && LimitOf(key) == match rest[0]
                               case 'g' => kind.GlobalLimit()
                               case 'p' => PIN_LIMIT
                               case _ => kind.ClientLimit()
  {
    var key := kind.Name() + ":" + rest;
    assert key[0] == kind.Name()[0];
    assert key[|kind.Name()| + 1] == rest[0];
  }

  lemma {:induction false} TaggedKey(kind: Kind, tag: string, text: string)
    requires tag != ""
    ensures var key := kind.Name() + ":" + tag + text;
            && |kind.Name()| + 1 < |key| && key[|kind.Name()| + 1] == tag[0]
            && LimitOf(key) == match tag[0]
                               case 'g' => kind.GlobalLimit()
                               case 'p' => PIN_LIMIT
                               case _ => kind.ClientLimit()
  {
    KeyShape(kind, tag + text);
    assert kind.Name() + ":" + tag + text == kind.Name() + ":" + (tag + text);
  }

  /** One request never names a bucket twice, and two requests never disagree on a bucket's limit. */
  lemma {:induction false} RulesAreDistinctAndPriced(call: Call)
    ensures Distinct(RulesOf(call)) && Priced(RulesOf(call))
  {
    match call
    case CheckCall(k, client, pin) =>
      KeyShape(k, "global");
      if client.Some? {
        var text := client.value.0 + ":" + client.value.1;
        TaggedKey(k, "client:", text);
        assert k.Name() + ":" + "client:" + client.value.0 + ":" + client.value.1
            == k.Name() + ":" + "client:" + text;
      }
      if pin.Some? {
        TaggedKey(k, "pin:", Decimal.Show(pin.value));
      }
    case IdentityCall(k, digest) =>
      TaggedKey(k, "identity:", digest);
  }

  lemma {:induction false} RulesAreApart(call: Call)
    ensures Apart(RulesOf(call))
  {
  }

  // --- runs ---------------------------------------------------------------------------------

  datatype Request = Request(now: nat, call: Call)

  /** The limiter as it runs. */
  datatype State = State(buckets: Map, lastSweep: Option<nat>)

  /** What a request finds once it has swept, if a sweep is due. */
  function Found(s: State, now: nat): Map {
    if SweepDue(s.lastSweep, now) then Sweep(s.buckets, now) else s.buckets
  }

  function Next(s: State, r: Request): (State, Option<Refusal>) {
    var (buckets, refusal) := Decide(Found(s, r.now), r.now, RulesOf(r.call));
    (State(buckets, if SweepDue(s.lastSweep, r.now) then Some(r.now) else s.lastSweep), refusal)
  }

  function Run(reqs: seq<Request>): State {
    if reqs == [] then State(map[], None) else Next(Run(reqs[..|reqs| - 1]), reqs[|reqs| - 1]).0
  }

  function Answer(reqs: seq<Request>): Option<Refusal>
    requires reqs != []
  {
    Next(Run(reqs[..|reqs| - 1]), reqs[|reqs| - 1]).1
  }

  /** A limiter that never sweeps. */
  function PlainRun(reqs: seq<Request>): Map {
    if reqs == [] then map[]
    else Decide(PlainRun(reqs[..|reqs| - 1]), reqs[|reqs| - 1].now, RulesOf(reqs[|reqs| - 1].call)).0
  }

  function PlainAnswer(reqs: seq<Request>): Option<Refusal>
    requires reqs != []
  {
    Decide(PlainRun(reqs[..|reqs| - 1]), reqs[|reqs| - 1].now, RulesOf(reqs[|reqs| - 1].call)).1
  }

  // --- when sweeping shows -------------------------------------------------------------------

  /** A bucket the sweeper has dropped and a request stamped before its reset still names. */
  predicate LateKey(found: Map, plain: Map, key: string, now: nat) {
    key !in found && key in plain && plain[key].resetAt > now
  }

  predicate NamesLateKey(found: Map, plain: Map, rules: seq<Rule>, now: nat) {
    exists i | 0 <= i < |rules| :: LateKey(found, plain, rules[i].key, now)
  }

  /** Every bucket a request names looks the same in both tables. */
  predicate SameSight(found: Map, plain: Map, rules: seq<Rule>, now: nat) {
    forall i | 0 <= i < |rules| :: Current(found, rules[i].key, now) == Current(plain, rules[i].key, now)
  }

  predicate Late(reqs: seq<Request>)
    requires reqs != []
  {
    var before, r := reqs[..|reqs| - 1], reqs[|reqs| - 1];
    NamesLateKey(Found(Run(before), r.now), PlainRun(before), RulesOf(r.call), r.now)
  }

  predicate SeesTheSame(reqs: seq<Request>)
    requires reqs != []
  {
    var before, r := reqs[..|reqs| - 1], reqs[|reqs| - 1];
    SameSight(Found(Run(before), r.now), PlainRun(before), RulesOf(r.call), r.now)
  }

  predicate NeverLate(reqs: seq<Request>) {
    reqs == [] || (NeverLate(reqs[..|reqs| - 1]) && !Late(reqs))
  }

  predicate AlwaysSeesTheSame(reqs: seq<Request>) {
    reqs == [] || (AlwaysSeesTheSame(reqs[..|reqs| - 1]) && SeesTheSame(reqs))
  }

  /** What the sweeping table has, the other has too, and no stored bucket is empty. */
  ghost predicate Below(found: Map, plain: Map) {
    && (forall key | key in found :: key in plain && found[key] == plain[key])
    && (forall key | key in plain :: plain[key].count > 0)
  }

  /** What is missing was dropped by a sweep at or after its reset. */
  ghost predicate SweptAway(s: State, plain: Map) {
    forall key | key in plain && key !in s.buckets :: s.lastSweep.Some? && plain[key].resetAt <= s.lastSweep.value
  }

  lemma {:induction false} SightIff(found: Map, plain: Map, rules: seq<Rule>, now: nat)
    requires Below(found, plain)
    ensures SameSight(found, plain, rules, now) <==> !NamesLateKey(found, plain, rules, now)
  {
    forall i | 0 <= i < |rules|
      ensures Current(found, rules[i].key, now) == Current(plain, rules[i].key, now)
          <==> !LateKey(found, plain, rules[i].key, now)
    {
    }
  }

  lemma {:induction false} FirstFullSeesTheSame(found: Map, plain: Map, rules: seq<Rule>, now: nat)
    requires SameSight(found, plain, rules, now)
    ensures FirstFull(found, rules, now) == FirstFull(plain, rules, now)
  {
    if rules != [] {
      assert forall i | 0 <= i < |rules| - 1 :: rules[1..][i] == rules[i + 1];
      FirstFullSeesTheSame(found, plain, rules[1..], now);
    }
  }

  lemma {:induction false} CountUpStaysBelow(found: Map, plain: Map, rules: seq<Rule>, now: nat)
    requires Below(found, plain) && SameSight(found, plain, rules, now)
    ensures Below(CountUp(found, found, rules, now), CountUp(plain, plain, rules, now))
    ensures forall key :: key in CountUp(plain, plain, rules, now) && key !in CountUp(found, found, rules, now)
                          ==> key in plain && key !in found && CountUp(plain, plain, rules, now)[key] == plain[key]
  {
    if rules != [] {
      var front := rules[..|rules| - 1];
      CountUpStaysBelow(found, plain, front, now);
    }
  }

  /** A request that sees the same in both tables is answered the same and leaves them as they were apart. */
  lemma {:induction false} DecideStaysBelow(found: Map, plain: Map, rules: seq<Rule>, now: nat)
    requires Below(found, plain) && SameSight(found, plain, rules, now) && Apart(rules)
    ensures var (found', a), (plain', b) := Decide(found, now, rules), Decide(plain, now, rules);
            && a == b && Below(found', plain')
            && forall key | key in plain' && key !in found' ::
                 key in plain && key !in found && plain'[key] == plain[key]
  {
    FirstFullSeesTheSame(found, plain, rules, now);
    var full := FirstFull(found, rules, now);
    if full.Some? {
      var i :| 0 <= i < |rules| && rules[i] == full.value;
      assert Current(found, rules[i].key, now) == Current(plain, rules[i].key, now);
    } else {
      CountUpStaysBelow(found, plain, rules, now);
    }
  }

  lemma {:induction false} FoundStaysBelow(s: State, plain: Map, now: nat)
    requires Below(s.buckets, plain) && SweptAway(s, plain)
    ensures Below(Found(s, now), plain)
    ensures forall key | key in plain && key !in Found(s, now) ::
              var lastSweep := if SweepDue(s.lastSweep, now) then Some(now) else s.lastSweep;
              lastSweep.Some? && plain[key].resetAt <= lastSweep.value
  {
  }

  lemma {:induction false} UntilLate(reqs: seq<Request>)
    requires NeverLate(reqs)
    ensures Below(Run(reqs).buckets, PlainRun(reqs)) && SweptAway(Run(reqs), PlainRun(reqs))
    ensures reqs != [] ==> Answer(reqs) == PlainAnswer(reqs) && SeesTheSame(reqs)
  {
    if reqs != [] {
      var before, r := reqs[..|reqs| - 1], reqs[|reqs| - 1];
      UntilLate(before);
      var found := Found(Run(before), r.now);
      FoundStaysBelow(Run(before), PlainRun(before), r.now);
      SightIff(found, PlainRun(before), RulesOf(r.call), r.now);
      RulesAreApart(r.call);
      DecideStaysBelow(found, PlainRun(before), RulesOf(r.call), r.now);
    }
  }

  /** As long as no request names a swept bucket before its reset, sweeping changes no answer. */
  lemma {:induction false} SweepingChangesNoDecision(reqs: seq<Request>)
    requires reqs != [] && NeverLate(reqs)
    ensures Answer(reqs) == PlainAnswer(reqs)
  {
    UntilLate(reqs);
  }

  /** That is exact: every request finds its buckets as if nothing were ever swept if and only if none is late. */
  lemma {:induction false} SweepingIsInvisibleIff(reqs: seq<Request>)
    ensures NeverLate(reqs) <==> AlwaysSeesTheSame(reqs)
  {
    if reqs != [] {
      var before, r := reqs[..|reqs| - 1], reqs[|reqs| - 1];
      SweepingIsInvisibleIff(before);
      if NeverLate(before) {
        UntilLate(before);
        FoundStaysBelow(Run(before), PlainRun(before), r.now);
        SightIff(Found(Run(before), r.now), PlainRun(before), RulesOf(r.call), r.now);
      }
    }
  }

  /** The first late request is answered differently exactly when the first full bucket it should have met was swept. */
  lemma {:induction false} FirstLateAnswerIff(reqs: seq<Request>)
    requires reqs != [] && NeverLate(reqs[..|reqs| - 1])
    ensures var before, r := reqs[..|reqs| - 1], reqs[|reqs| - 1];
            var full := FirstFull(PlainRun(before), RulesOf(r.call), r.now);
            && (Answer(reqs) != PlainAnswer(reqs)
                <==> (full.Some? && LateKey(Found(Run(before), r.now), PlainRun(before), full.value.key, r.now)))
  {
    var before, r := reqs[..|reqs| - 1], reqs[|reqs| - 1];
    UntilLate(before);
    FoundStaysBelow(Run(before), PlainRun(before), r.now);
    RulesAreApart(r.call);
    FirstFullMet(Found(Run(before), r.now), PlainRun(before), RulesOf(r.call), r.now);
  }

  /** The first full bucket, when a swept one can not be full. */
  lemma {:induction false} FirstFullMet(found: Map, plain: Map, rules: seq<Rule>, now: nat)
    requires Below(found, plain) && Apart(rules)
    ensures var met, full := FirstFull(found, rules, now), FirstFull(plain, rules, now);
            if full.Some? && LateKey(found, plain, full.value.key, now)
            then met.None? || met.value.scope != full.value.scope
            else
              && met == full
              && (full.Some? ==> Current(found, full.value.key, now) == Current(plain, full.value.key, now))
  {
    if rules != [] {
      var rest := rules[1..];
      ApartBehind(rules);
      FirstFullMet(found, plain, rest, now);
      HeadSeen(found, plain, rules[0].key, now);
    }
  }

  lemma {:induction false} ApartBehind(rules: seq<Rule>)
    requires Apart(rules) && rules != []
    ensures rules[0].limit > 0 && Apart(rules[1..]) && forall r | r in rules[1..] :: r.scope != rules[0].scope
  {
    var rest := rules[1..];
    assert forall i | 0 <= i < |rest| :: rest[i] == rules[i + 1];
    forall r | r in rest ensures r.scope != rules[0].scope {
      var i :| 0 <= i < |rest| && rest[i] == r;
      assert rules[0].scope != rules[i + 1].scope;
    }
  }

  lemma {:induction false} HeadSeen(found: Map, plain: Map, key: string, now: nat)
    requires Below(found, plain)
    ensures if LateKey(found, plain, key, now) then Current(found, key, now).count == 0
            else Current(found, key, now) == Current(plain, key, now)
  {
  }

  /** A late request is stamped before a sweep that got the lock first. */
  lemma {:induction false} LateIsOutOfOrder(reqs: seq<Request>)
    requires reqs != [] && NeverLate(reqs[..|reqs| - 1]) && Late(reqs)
    ensures exists j | 0 <= j < |reqs| - 1 :: reqs[j].now > reqs[|reqs| - 1].now
  {
    var before, r := reqs[..|reqs| - 1], reqs[|reqs| - 1];
    UntilLate(before);
    FoundStaysBelow(Run(before), PlainRun(before), r.now);
    SweepIsStamped(before);
    var rules := RulesOf(r.call);
    var i :| 0 <= i < |rules| && LateKey(Found(Run(before), r.now), PlainRun(before), rules[i].key, r.now);
    var j :| 0 <= j < |before| && Run(before).lastSweep == Some(before[j].now);
    assert reqs[j] == before[j];
  }

  lemma {:induction false} SweepIsStamped(reqs: seq<Request>)
    ensures Run(reqs).lastSweep.Some? ==> exists j | 0 <= j < |reqs| :: Run(reqs).lastSweep == Some(reqs[j].now)
  {
    if reqs != [] {
      var n := |reqs| - 1;
      SweepIsStamped(reqs[..n]);
      if Run(reqs[..n]).lastSweep.Some? {
        var j :| 0 <= j < n && Run(reqs[..n]).lastSweep == Some(reqs[..n][j].now);
        assert reqs[j] == reqs[..n][j];
      }
      assert Run(reqs).lastSweep == Some(reqs[n].now) || Run(reqs).lastSweep == Run(reqs[..n]).lastSweep;
    }
  }

  /** No request is stamped more than `skew` before one that got the lock first. */
  ghost predicate Skewed(reqs: seq<Request>, skew: nat) {
    forall i, j | 0 <= i < j < |reqs| :: reqs[i].now <= reqs[j].now + skew
  }

  /** With stamps in lock order nobody is late. */
  lemma {:induction false} InOrderIsNeverLate(reqs: seq<Request>)
    requires Skewed(reqs, 0)
    ensures NeverLate(reqs)
  {
    if reqs != [] {
      InOrderIsNeverLate(reqs[..|reqs| - 1]);
      if Late(reqs) {
        LateIsOutOfOrder(reqs);
      }
    }
  }

  /** `n` requests of one identity, stamped at zero. */
  function Burst(digest: string, n: nat): seq<Request> {
    if n == 0 then [] else Burst(digest, n - 1) + [Request(0, IdentityCall(Pin, digest))]
  }

  function IdentityKey(digest: string): string {
    "pin:identity:" + digest
  }

  lemma {:induction false} RulesOfIdentity(digest: string)
    ensures RulesOf(IdentityCall(Pin, digest)) == [Rule(IdentityKey(digest), Identity, 10)]
  {
    assert "pin" + ":" + "identity:" + digest == IdentityKey(digest);
  }

  lemma {:induction false} BurstFills(digest: string, n: nat)
    requires 0 < n <= 10
    ensures Run(Burst(digest, n)) == State(map[IdentityKey(digest) := Bucket(n, WINDOW)], Some(0))
    ensures PlainRun(Burst(digest, n)) == map[IdentityKey(digest) := Bucket(n, WINDOW)]
  {
    RunOfNext(Burst(digest, n - 1), Request(0, IdentityCall(Pin, digest)));
    if n == 1 {
      FirstOfBurst(digest);
    } else {
      BurstFills(digest, n - 1);
      NextOfBurst(digest, n - 1);
    }
  }

  lemma {:induction false} FirstOfBurst(digest: string)
    ensures var r, one := Request(0, IdentityCall(Pin, digest)), map[IdentityKey(digest) := Bucket(1, WINDOW)];
            Next(Run([]), r).0 == State(one, Some(0)) && Decide(PlainRun([]), 0, RulesOf(r.call)).0 == one
  {
    OneRequestCounts(Run([]), PlainRun([]), 0, digest);
  }

  lemma {:induction false} NextOfBurst(digest: string, n: nat)
    requires 0 < n < 10
    ensures var r, now := Request(0, IdentityCall(Pin, digest)), map[IdentityKey(digest) := Bucket(n, WINDOW)];
            var more := map[IdentityKey(digest) := Bucket(n + 1, WINDOW)];
            && Next(State(now, Some(0)), r).0 == State(more, Some(0))
            && Decide(now, 0, RulesOf(r.call)).0 == more
  {
    var now := map[IdentityKey(digest) := Bucket(n, WINDOW)];
    OneRequestCounts(State(now, Some(0)), now, 0, digest);
  }

  lemma {:induction false} OneRuleCounts(m: Map, now: nat, rule: Rule)
    ensures var cur := Current(m, rule.key, now);
            Decide(m, now, [rule])
              == if cur.count >= rule.limit then (m[rule.key := cur], Some(Refusal(rule.scope, cur.resetAt)))
                                      else (m[rule.key := cur.(count := cur.count + 1)], None)
  {
    var only, none := [rule], [];
    assert only[..|only| - 1] == none && only[1..] == none;
    assert FirstFull(m, none, now) == None && CountUp(m, m, none, now) == m;
  }

  /** One request of an identity, on a table that has been swept or not. */
  lemma {:induction false} OneRequestCounts(s: State, plain: Map, now: nat, digest: string)
    ensures var r, key := Request(now, IdentityCall(Pin, digest)), IdentityKey(digest);
            var cur, there := Current(Found(s, now), key, now), Current(plain, key, now);
            && Next(s, r).0.lastSweep == (if SweepDue(s.lastSweep, now) then Some(now) else s.lastSweep)
            && (cur.count < 10 ==> Next(s, r).1.None?)
            && (cur.count < 10 ==> Next(s, r).0.buckets == Found(s, now)[key := cur.(count := cur.count + 1)])
            && (there.count < 10 ==>
                Decide(plain, now, RulesOf(r.call)) == (plain[key := there.(count := there.count + 1)], None))
            && (there.count >= 10 ==> Decide(plain, now, RulesOf(r.call)).1.Some?)
  {
    RulesOfIdentity(digest);
    OneRuleCounts(Found(s, now), now, Rule(IdentityKey(digest), Identity, 10));
    OneRuleCounts(plain, now, Rule(IdentityKey(digest), Identity, 10));
  }

  /** Another identity's request a millisecond after the reset sweeps the full bucket away. */
  function Swept(full: seq<Request>, b: string): seq<Request> {
    full + [Request(WINDOW + MILLISECOND, IdentityCall(Pin, b))]
  }

  lemma {:induction false} KeysDiffer(a: string, b: string)
    requires a != b
    ensures IdentityKey(a) != IdentityKey(b)
  {
    assert IdentityKey(a)[13..] == a && IdentityKey(b)[13..] == b;
  }

  lemma {:induction false} SweptStates(full: seq<Request>, a: string, b: string)
    requires a != b
    requires Run(full) == State(map[IdentityKey(a) := Bucket(10, WINDOW)], Some(0))
    requires PlainRun(full) == map[IdentityKey(a) := Bucket(10, WINDOW)]
    ensures var later := Bucket(1, WINDOW + MILLISECOND + WINDOW);
            && Run(Swept(full, b)) == State(map[IdentityKey(b) := later], Some(WINDOW + MILLISECOND))
            && PlainRun(Swept(full, b)) == map[IdentityKey(a) := Bucket(10, WINDOW)][IdentityKey(b) := later]
  {
    RunOfNext(full, Request(WINDOW + MILLISECOND, IdentityCall(Pin, b)));
    SweepOfFull(a, b);
  }

  lemma {:induction false} RunOfNext(reqs: seq<Request>, r: Request)
    ensures Run(reqs + [r]) == Next(Run(reqs), r).0
    ensures PlainRun(reqs + [r]) == Decide(PlainRun(reqs), r.now, RulesOf(r.call)).0
  {
    assert (reqs + [r])[..|reqs|] == reqs;
  }

  lemma {:induction false} SweepOfFull(a: string, b: string)
    requires a != b
    ensures var full, now, call := map[IdentityKey(a) := Bucket(10, WINDOW)],
                WINDOW + MILLISECOND, IdentityCall(Pin, b);
            var later := Bucket(1, now + WINDOW);
            && Next(State(full, Some(0)), Request(now, call)).0 == State(map[IdentityKey(b) := later], Some(now))
            && Decide(full, now, RulesOf(call)).0 == full[IdentityKey(b) := later]
  {
    var full, now := map[IdentityKey(a) := Bucket(10, WINDOW)], WINDOW + MILLISECOND;
    KeysDiffer(a, b);
    assert Found(State(full, Some(0)), now) == map[];
    OneRequestCounts(State(full, Some(0)), full, now, b);
  }

  /**
  A late request does get through: an identity spends its ten requests, another
  one reads the clock a millisecond after the reset and gets the lock first, and
  the eleventh, stamped a millisecond before the reset, finds its bucket swept.
  */
  lemma {:induction false} ALateRequestIsLetIn(a: string, b: string)
    requires a != b
    ensures var reqs := Swept(Burst(a, 10), b) + [Request(WINDOW - MILLISECOND, IdentityCall(Pin, a))];
            Late(reqs) && Answer(reqs).None? && PlainAnswer(reqs).Some?
  {
    BurstFills(a, 10);
    LateAfter(Burst(a, 10), a, b);
  }

  lemma {:induction false} LateAfter(full: seq<Request>, a: string, b: string)
    requires a != b
    requires Run(full) == State(map[IdentityKey(a) := Bucket(10, WINDOW)], Some(0))
    requires PlainRun(full) == map[IdentityKey(a) := Bucket(10, WINDOW)]
    ensures var reqs := Swept(full, b) + [Request(WINDOW - MILLISECOND, IdentityCall(Pin, a))];
            Late(reqs) && Answer(reqs).None? && PlainAnswer(reqs).Some?
  {
    var swept, now := Swept(full, b), WINDOW - MILLISECOND;
    var reqs := swept + [Request(now, IdentityCall(Pin, a))];
    assert reqs[..|reqs| - 1] == swept;
    KeysDiffer(a, b);
    SweptStates(full, a, b);
    OneRequestCounts(Run(swept), PlainRun(swept), now, a);
    RulesOfIdentity(a);
    assert LateKey(Found(Run(swept), now), PlainRun(swept), RulesOf(IdentityCall(Pin, a))[0].key, now);
  }

  // --- what one request counts --------------------------------------------------------------------

  predicate Names(rules: seq<Rule>, key: string) {
    exists i | 0 <= i < |rules| :: rules[i].key == key
  }

  /** Every named bucket goes up by exactly one; the others are left alone. */
  lemma {:induction false} CountUpCountsOnce(m: Map, rules: seq<Rule>, now: nat, key: string)
    ensures var after := CountUp(m, m, rules, now);
            if Names(rules, key) then
              key in after && after[key] == Current(m, key, now).(count := Current(m, key, now).count + 1)
            else (key in after <==> key in m) && (key in m ==> after[key] == m[key])
  {
    if rules != [] {
      var front := rules[..|rules| - 1];
      CountUpCountsOnce(m, front, now, key);
      assert Names(rules, key) <==> Names(front, key) || rules[|rules| - 1].key == key by {
        if Names(front, key) {
          var i :| 0 <= i < |front| && front[i].key == key;
          assert rules[i].key == key;
        }
      }
    }
  }

  function LiveCount(m: Map, key: string, now: nat): nat {
    Current(m, key, now).count
  }

  /** A refused request, whatever rules it carries, raises no counter. */
  lemma {:induction false} ARefusalCountsNothing(m: Map, now: nat, rules: seq<Rule>, key: string)
    requires Decide(m, now, rules).1.Some?
    ensures LiveCount(Decide(m, now, rules).0, key, now)
         == LiveCount(m, key, now)
  {
  }

  /** An accepted request raises exactly the buckets it names, each below its limit and by one. */
  lemma {:induction false} AnAcceptanceCountsEachRuleOnce(m: Map, now: nat, rules: seq<Rule>, key: string)
    requires Decide(m, now, rules).1.None?
    ensures LiveCount(Decide(m, now, rules).0, key, now)
         == LiveCount(m, key, now) + (if Names(rules, key) then 1 else 0)
    ensures forall i | 0 <= i < |rules| :: LiveCount(m, rules[i].key, now) < rules[i].limit
  {
    CountUpCountsOnce(m, rules, now, key);
  }

  // --- how many requests get through -------------------------------------------------------------

  predicate Hit(reqs: seq<Request>, key: string)
    requires reqs != []
  {
    Answer(reqs).None? && Names(RulesOf(reqs[|reqs| - 1].call), key)
  }

  /** The stamps of the requests accepted on a key, in lock order. */
  function AcceptedStamps(reqs: seq<Request>, key: string): seq<nat> {
    if reqs == [] then []
    else AcceptedStamps(reqs[..|reqs| - 1], key) + (if Hit(reqs, key) then [reqs[|reqs| - 1].now] else [])
  }

  /** A bucket of a key: the stamp that opened it and those it counted. */
  datatype Gen = Gen(openedAt: nat, hits: seq<nat>)

  function LastGen(gens: seq<Gen>): Gen
    requires gens != []
  {
    gens[|gens| - 1]
  }

  /** One more accepted request: in the bucket it finds live, or in a new one. */
  function Grown(gens: seq<Gen>, live: bool, now: nat): seq<Gen> {
    if gens != [] && live then gens[..|gens| - 1] + [LastGen(gens).(hits := LastGen(gens).hits + [now])]
    else gens + [Gen(now, [now])]
  }

  /** The buckets a key has had. */
  function Gens(reqs: seq<Request>, key: string): seq<Gen> {
    if reqs == [] then []
    else
      var before, r := reqs[..|reqs| - 1], reqs[|reqs| - 1];
      if Hit(reqs, key) then Grown(Gens(before, key), Live(Found(Run(before), r.now), key, r.now).Some?, r.now)
      else Gens(before, key)
  }

  function Flat(gens: seq<Gen>): seq<nat> {
    if gens == [] then [] else Flat(gens[..|gens| - 1]) + LastGen(gens).hits
  }

  lemma {:induction false} FlatOfGrown(gens: seq<Gen>, live: bool, now: nat)
    ensures Flat(Grown(gens, live, now)) == Flat(gens) + [now]
  {
    var grown := Grown(gens, live, now);
    if gens != [] && live {
      assert grown[..|grown| - 1] == gens[..|gens| - 1];
    } else {
      assert grown[..|grown| - 1] == gens;
    }
  }

  function BucketOf(m: Map, key: string): Option<Bucket> {
    if key in m then Some(m[key]) else None
  }

  /** What a request leaves in a key's bucket: one more, what was there, or a full bucket. */
  predicate Moves(was: Option<Bucket>, now: Option<Bucket>, stamp: nat, hit: bool, limit: nat) {
    var cur := if was.Some? && was.value.resetAt > stamp then was.value else Bucket(0, stamp + WINDOW);
    if hit then now == Some(cur.(count := cur.count + 1)) && cur.count < limit
    else now == was || (now == Some(cur) && cur.count >= limit)
  }

  lemma {:induction false} DecisionMoves(m: Map, now: nat, rules: seq<Rule>, key: string, limit: nat)
    requires forall i | 0 <= i < |rules| && rules[i].key == key :: rules[i].limit == limit
    ensures var (m', refusal) := Decide(m, now, rules);
            Moves(BucketOf(m, key), BucketOf(m', key), now, refusal.None? && Names(rules, key), limit)
  {
    CountUpCountsOnce(m, rules, now, key);
    var full := FirstFull(m, rules, now);
    if full.Some? {
      var i :| 0 <= i < |rules| && rules[i] == full.value;
    } else if Names(rules, key) {
      var i :| 0 <= i < |rules| && rules[i].key == key;
    }
  }

  function Stamps(reqs: seq<Request>): set<nat> {
    set i | 0 <= i < |reqs| :: reqs[i].now
  }

  ghost predicate GenKept(g: Gen, stamps: set<nat>, limit: nat) {
    && |g.hits| <= limit && g.openedAt in stamps
    && forall i | 0 <= i < |g.hits| :: g.hits[i] < g.openedAt + WINDOW
  }

  /** The last bucket is the one in the table, or a sweep at or after its reset has dropped it. */
  ghost predicate Tracks(gens: seq<Gen>, bucket: Option<Bucket>, lastSweep: Option<nat>, stamps: set<nat>, limit: nat) {
    && (forall i | 0 <= i < |gens| :: GenKept(gens[i], stamps, limit))
    && (lastSweep.Some? ==> lastSweep.value in stamps)
    && (bucket.Some? ==> gens != [] && bucket.value == Bucket(|LastGen(gens).hits|, LastGen(gens).openedAt + WINDOW))
    && (bucket.None? && gens != [] ==> lastSweep.Some? && lastSweep.value >= LastGen(gens).openedAt + WINDOW)
  }

  /** Buckets follow each other a window apart, give or take the skew. */
  ghost predicate Spaced(gens: seq<Gen>, skew: nat) {
    && (forall i, k | 0 <= i < |gens| && 0 <= k < |gens[i].hits| :: gens[i].openedAt <= gens[i].hits[k] + skew)
    && (forall i | 0 < i < |gens| :: gens[i - 1].openedAt + WINDOW <= gens[i].openedAt + skew)
  }

  lemma {:induction false} SweepTracks(gens: seq<Gen>, s: State, key: string, now: nat, stamps: set<nat>, limit: nat)
    requires Tracks(gens, BucketOf(s.buckets, key), s.lastSweep, stamps, limit)
    ensures Tracks(gens, BucketOf(Found(s, now), key),
                   if SweepDue(s.lastSweep, now) then Some(now) else s.lastSweep, stamps + {now}, limit)
  {
  }

  lemma {:induction false} HitTracks(gens: seq<Gen>, was: Option<Bucket>, now: Option<Bucket>, lastSweep: Option<nat>,
                                     stamp: nat, stamps: set<nat>, limit: nat)
    requires Tracks(gens, was, lastSweep, stamps, limit) && stamp in stamps
    requires Moves(was, now, stamp, true, limit)
    ensures Tracks(Grown(gens, was.Some? && was.value.resetAt > stamp, stamp), now, lastSweep, stamps, limit)
  {
  }

  lemma {:induction false} MissTracks(gens: seq<Gen>, was: Option<Bucket>, now: Option<Bucket>, lastSweep: Option<nat>,
                                      stamp: nat, stamps: set<nat>, limit: nat)
    requires Tracks(gens, was, lastSweep, stamps, limit) && limit > 0
    requires Moves(was, now, stamp, false, limit)
    ensures Tracks(gens, now, lastSweep, stamps, limit)
  {
  }

  lemma {:induction false} HitSpaces(gens: seq<Gen>, was: Option<Bucket>, lastSweep: Option<nat>, stamp: nat,
                                     stamps: set<nat>, limit: nat, skew: nat)
    requires Tracks(gens, was, lastSweep, stamps, limit) && Spaced(gens, skew)
    requires forall t | t in stamps :: t <= stamp + skew
    ensures Spaced(Grown(gens, was.Some? && was.value.resetAt > stamp, stamp), skew)
  {
    if gens != [] {
      assert GenKept(LastGen(gens), stamps, limit);
    }
  }

  lemma {:induction false} StampsOfNext(reqs: seq<Request>)
    requires reqs != []
    ensures Stamps(reqs) == Stamps(reqs[..|reqs| - 1]) + {reqs[|reqs| - 1].now}
  {
    var n := |reqs| - 1;
    forall t | t in Stamps(reqs[..n]) ensures t in Stamps(reqs) {
      var i :| 0 <= i < n && reqs[..n][i].now == t;
      assert reqs[i].now == t;
    }
  }

  lemma {:induction false} LimitIsPositive(call: Call, key: string)
    ensures Names(RulesOf(call), key) ==> LimitOf(key) > 0
  {
    RulesAreDistinctAndPriced(call);
    RulesAreApart(call);
  }

  lemma {:induction false} RunTracks(reqs: seq<Request>, key: string)
    ensures Tracks(Gens(reqs, key), BucketOf(Run(reqs).buckets, key), Run(reqs).lastSweep, Stamps(reqs), LimitOf(key))
    ensures Flat(Gens(reqs, key)) == AcceptedStamps(reqs, key)
  {
    if reqs != [] {
      var before := reqs[..|reqs| - 1];
      RunTracks(before, key);
      StampsOfNext(reqs);
      StepTracks(Run(before), reqs[|reqs| - 1], Gens(before, key), key, Stamps(before));
      FlatOfGrown(Gens(before, key), true, reqs[|reqs| - 1].now);
      FlatOfGrown(Gens(before, key), false, reqs[|reqs| - 1].now);
    }
  }

  lemma {:induction false} StepTracks(s: State, r: Request, gens: seq<Gen>, key: string, stamps: set<nat>)
    requires Tracks(gens, BucketOf(s.buckets, key), s.lastSweep, stamps, LimitOf(key))
    ensures var (next, refusal) := Next(s, r);
            var grown := if refusal.None? && Names(RulesOf(r.call), key)
                         then Grown(gens, Live(Found(s, r.now), key, r.now).Some?, r.now) else gens;
            Tracks(grown, BucketOf(next.buckets, key), next.lastSweep, stamps + {r.now}, LimitOf(key))
  {
    var found := Found(s, r.now);
    var (next, refusal) := Next(s, r);
    SweepTracks(gens, s, key, r.now, stamps, LimitOf(key));
    RulesAreDistinctAndPriced(r.call);
    DecisionMoves(found, r.now, RulesOf(r.call), key, LimitOf(key));
    if refusal.None? && Names(RulesOf(r.call), key) {
      HitTracks(gens, BucketOf(found, key), BucketOf(next.buckets, key), next.lastSweep, r.now, stamps + {r.now},
                LimitOf(key));
    } else if Names(RulesOf(r.call), key) {
      LimitIsPositive(r.call, key);
      MissTracks(gens, BucketOf(found, key), BucketOf(next.buckets, key), next.lastSweep, r.now, stamps + {r.now},
                 LimitOf(key));
    } else {
      UnnamedStays(found, r.now, RulesOf(r.call), key);
    }
  }

  lemma {:induction false} UnnamedStays(m: Map, now: nat, rules: seq<Rule>, key: string)
    requires !Names(rules, key)
    ensures BucketOf(Decide(m, now, rules).0, key) == BucketOf(m, key)
  {
    CountUpCountsOnce(m, rules, now, key);
    var full := FirstFull(m, rules, now);
    if full.Some? {
      var i :| 0 <= i < |rules| && rules[i] == full.value;
    }
  }

  lemma {:induction false} RunIsSpaced(reqs: seq<Request>, key: string, skew: nat)
    requires Skewed(reqs, skew)
    ensures Spaced(Gens(reqs, key), skew)
  {
    if reqs != [] {
      var before, r := reqs[..|reqs| - 1], reqs[|reqs| - 1];
      RunIsSpaced(before, key, skew);
      RunTracks(before, key);
      SweepTracks(Gens(before, key), Run(before), key, r.now, Stamps(before), LimitOf(key));
      HitSpaces(Gens(before, key), BucketOf(Found(Run(before), r.now), key),
                if SweepDue(Run(before).lastSweep, r.now) then Some(r.now) else Run(before).lastSweep,
                r.now, Stamps(before) + {r.now}, LimitOf(key), skew);
    }
  }

  /**
  However requests are stamped: those accepted on a key fall, in lock order,
  into consecutive buckets of at most the key's limit each, all stamped before
  their bucket resets, and the bucket in the table counts the last of them.
  */
  lemma {:induction false} LimitPerBucket(reqs: seq<Request>, key: string)
    ensures Flat(Gens(reqs, key)) == AcceptedStamps(reqs, key)
    ensures forall i | 0 <= i < |Gens(reqs, key)| ::
              var g := Gens(reqs, key)[i];
              |g.hits| <= LimitOf(key) && forall k | 0 <= k < |g.hits| :: g.hits[k] < g.openedAt + WINDOW
    ensures key in Run(reqs).buckets ==>
              Gens(reqs, key) != [] &&
              var g := LastGen(Gens(reqs, key));
              Run(reqs).buckets[key] == Bucket(|g.hits|, g.openedAt + WINDOW)
  {
    RunTracks(reqs, key);
  }

  /** How many stamps lie in the half-open interval [from, to). */
  function Within(stamps: seq<nat>, from: int, to: int): nat {
    if stamps == [] then 0
    else
      var last := stamps[|stamps| - 1];
      Within(stamps[..|stamps| - 1], from, to) + if from <= last < to then 1 else 0
  }

  lemma {:induction false} WithinOfConcat(a: seq<nat>, b: seq<nat>, from: int, to: int)
    ensures Within(a + b, from, to) == Within(a, from, to) + Within(b, from, to)
  {
    if b == [] {
      assert a + b == a;
    } else {
      assert (a + b)[..|a + b| - 1] == a + b[..|b| - 1];
      WithinOfConcat(a, b[..|b| - 1], from, to);
    }
  }

  lemma {:induction false} WithinIsBounded(stamps: seq<nat>, from: int, to: int)
    ensures Within(stamps, from, to) <= |stamps|
    ensures (forall i | 0 <= i < |stamps| :: !(from <= stamps[i] < to)) ==> Within(stamps, from, to) == 0
    ensures (forall i | 0 <= i < |stamps| :: from <= stamps[i] < to) ==> Within(stamps, from, to) == |stamps|
  {
    if stamps != [] {
      WithinIsBounded(stamps[..|stamps| - 1], from, to);
    }
  }

  ghost predicate Limited(gens: seq<Gen>, limit: nat, skew: nat) {
    && Spaced(gens, skew)
    && forall i | 0 <= i < |gens| ::
         |gens[i].hits| <= limit && forall k | 0 <= k < |gens[i].hits| :: gens[i].hits[k] < gens[i].openedAt + WINDOW
  }

  function Times(n: nat, x: int): int {
    if n == 0 then 0 else Times(n - 1, x) + x
  }

  lemma {:induction false} TimesIsProduct(n: nat, x: int)
    ensures Times(n, x) == n * x
  {
    if n > 0 {
      TimesIsProduct(n - 1, x);
      assert (n - 1) * x + x == n * x;
    }
  }

  /** Buckets opened before `end`, spaced apart, and the interval that starts at `from`. */
  lemma {:induction false} FewBucketsReach(gens: seq<Gen>, limit: nat, skew: nat, from: int, end: int, n: nat)
    requires Limited(gens, limit, skew) && skew < WINDOW
    requires gens != [] ==> LastGen(gens).openedAt < end
    requires end <= from - WINDOW + Times(n, WINDOW - skew)
    ensures Within(Flat(gens), from, from + WINDOW) <= Times(n, limit)
  {
    if gens != [] {
      var front, g := gens[..|gens| - 1], LastGen(gens);
      WithinOfConcat(Flat(front), g.hits, from, from + WINDOW);
      WithinIsBounded(g.hits, from, from + WINDOW);
      FrontIsLimited(gens, limit, skew);
      if n == 0 {
        FewBucketsReach(front, limit, skew, from, end, 0);
      } else {
        FewBucketsReach(front, limit, skew, from, end - (WINDOW - skew), n - 1);
      }
    } else {
      TimesIsProduct(n, limit);
    }
  }

  lemma {:induction false} FrontIsLimited(gens: seq<Gen>, limit: nat, skew: nat)
    requires Limited(gens, limit, skew) && gens != [] && skew < WINDOW
    ensures var front, g := gens[..|gens| - 1], LastGen(gens);
            && Limited(front, limit, skew)
            && (front != [] ==> LastGen(front).openedAt + WINDOW <= g.openedAt + skew)
            && |g.hits| <= limit
            && forall k | 0 <= k < |g.hits| :: g.openedAt - skew <= g.hits[k] < g.openedAt + WINDOW
  {
    var front, g := gens[..|gens| - 1], LastGen(gens);
    forall k | 0 <= k < |g.hits| ensures g.openedAt - skew <= g.hits[k] < g.openedAt + WINDOW {
      assert gens[|gens| - 1].hits[k] == g.hits[k];
    }
  }

  /** Buckets opened too late to hold a stamp of the interval do not count. */
  lemma {:induction false} LateBucketsMiss(gens: seq<Gen>, limit: nat, skew: nat, from: int, n: nat)
    requires Limited(gens, limit, skew) && skew < WINDOW
    requires 2 * WINDOW + skew <= Times(n, WINDOW - skew)
    ensures Within(Flat(gens), from, from + WINDOW) <= Times(n, limit)
  {
    if gens != [] && LastGen(gens).openedAt >= from + WINDOW + skew {
      var front, g := gens[..|gens| - 1], LastGen(gens);
      WithinOfConcat(Flat(front), g.hits, from, from + WINDOW);
      FrontIsLimited(gens, limit, skew);
      WithinIsBounded(g.hits, from, from + WINDOW);
      LateBucketsMiss(front, limit, skew, from, n);
    } else {
      FewBucketsReach(gens, limit, skew, from, from + WINDOW + skew, n);
    }
  }

  lemma {:induction false} RunIsLimited(reqs: seq<Request>, key: string, skew: nat)
    requires Skewed(reqs, skew)
    ensures Limited(Gens(reqs, key), LimitOf(key), skew)
  {
    RunTracks(reqs, key);
    RunIsSpaced(reqs, key, skew);
    var gens := Gens(reqs, key);
    forall i | 0 <= i < |gens|
      ensures |gens[i].hits| <= LimitOf(key)
      ensures forall k | 0 <= k < |gens[i].hits| :: gens[i].hits[k] < gens[i].openedAt + WINDOW
    {
      assert GenKept(gens[i], Stamps(reqs), LimitOf(key));
    }
  }

  /** Accepted requests on the key stamped in the half-open interval [from, to). */
  function Accepted(reqs: seq<Request>, key: string, from: int, to: int): nat {
    Within(AcceptedStamps(reqs, key), from, to)
  }

  /** With stamps up to `skew` out of order, any interval as long as the window holds at most `n` times the limit. */
  lemma {:induction false} LimitInAnyInterval(reqs: seq<Request>, key: string, from: int, skew: nat, n: nat)
    requires Skewed(reqs, skew) && skew < WINDOW && 2 * WINDOW + skew <= n * (WINDOW - skew)
    ensures Accepted(reqs, key, from, from + WINDOW) <= n * LimitOf(key)
  {
    RunTracks(reqs, key);
    RunIsLimited(reqs, key, skew);
    TimesIsProduct(n, WINDOW - skew);
    TimesIsProduct(n, LimitOf(key));
    LateBucketsMiss(Gens(reqs, key), LimitOf(key), skew, from, n);
  }

  /** Twice the limit with stamps in lock order, three times with stamps up to a quarter of the window apart from it. */
  lemma {:induction false} TwiceTheLimitInAnyInterval(reqs: seq<Request>, key: string, from: int)
    ensures Skewed(reqs, 0) ==> Accepted(reqs, key, from, from + WINDOW) <= 2 * LimitOf(key)
    ensures Skewed(reqs, WINDOW / 4) ==> Accepted(reqs, key, from, from + WINDOW) <= 3 * LimitOf(key)
  {
    if Skewed(reqs, 0) {
      LimitInAnyInterval(reqs, key, from, 0, 2);
    }
    if Skewed(reqs, WINDOW / 4) {
      LimitInAnyInterval(reqs, key, from, WINDOW / 4, 3);
    }
  }

  /** Buckets that reset by `from` hold no stamp from there on. */
  lemma {:induction false} EarlierBucketsMiss(gens: seq<Gen>, limit: nat, from: int, to: int)
    requires Limited(gens, limit, 0) && (gens != [] ==> LastGen(gens).openedAt + WINDOW <= from)
    ensures Within(Flat(gens), from, to) == 0
  {
    if gens != [] {
      var front, g := gens[..|gens| - 1], LastGen(gens);
      WithinOfConcat(Flat(front), g.hits, from, to);
      FrontIsLimited(gens, limit, 0);
      WithinIsBounded(g.hits, from, to);
      EarlierBucketsMiss(front, limit, from, to);
    }
  }

  lemma {:induction false} LastBucketCounts(gens: seq<Gen>, limit: nat)
    requires Limited(gens, limit, 0) && gens != []
    ensures var g := LastGen(gens); Within(Flat(gens), g.openedAt, g.openedAt + WINDOW) == |g.hits| <= limit
  {
    var front, g := gens[..|gens| - 1], LastGen(gens);
    WithinOfConcat(Flat(front), g.hits, g.openedAt, g.openedAt + WINDOW);
    FrontIsLimited(gens, limit, 0);
    WithinIsBounded(g.hits, g.openedAt, g.openedAt + WINDOW);
    EarlierBucketsMiss(front, limit, g.openedAt, g.openedAt + WINDOW);
  }

  /** The bucket in the table is the last of the key's. */
  predicate HoldsLast(gens: seq<Gen>, stamps: seq<nat>, bucket: Bucket) {
    gens != [] && Flat(gens) == stamps && bucket == Bucket(|LastGen(gens).hits|, LastGen(gens).openedAt + WINDOW)
  }

  lemma {:induction false} BucketsOfRun(reqs: seq<Request>, key: string, bucket: Bucket) returns (gens: seq<Gen>)
    requires Skewed(reqs, 0) && BucketOf(Run(reqs).buckets, key) == Some(bucket)
    ensures Limited(gens, LimitOf(key), 0) && HoldsLast(gens, AcceptedStamps(reqs, key), bucket)
  {
    gens := Gens(reqs, key);
    RunTracks(reqs, key);
    RunIsLimited(reqs, key, 0);
  }

  lemma {:induction false} OwnWindow(gens: seq<Gen>, limit: nat, stamps: seq<nat>, bucket: Bucket)
    requires Limited(gens, limit, 0) && HoldsLast(gens, stamps, bucket)
    ensures Within(stamps, bucket.resetAt - WINDOW, bucket.resetAt) == bucket.count <= limit
  {
    LastBucketCounts(gens, limit);
  }

  /** With stamps in lock order, a bucket counts exactly the requests accepted on its key in its own window. */
  lemma {:induction false} LimitPerWindow(reqs: seq<Request>, key: string, bucket: Bucket)
    requires Skewed(reqs, 0) && BucketOf(Run(reqs).buckets, key) == Some(bucket)
    ensures Accepted(reqs, key, bucket.resetAt - WINDOW, bucket.resetAt) == bucket.count <= LimitOf(key)
  {
    var gens := BucketsOfRun(reqs, key, bucket);
    OwnWindow(gens, LimitOf(key), AcceptedStamps(reqs, key), bucket);
  }

  // --- Retry-After ----------------------------------------------------------------------------------

  /** Whole seconds until the window resets, rounded up from whole milliseconds, at least 1. */
  function RetryAfter(left: nat): nat {
    Max((left / MILLISECOND + 999) / 1000, 1)
  }

  /** The wait covers what is left exactly unless the milliseconds are whole seconds and something is left over. */
  lemma {:induction false} WaitingIsEnoughIff(left: nat)
    ensures left <= RetryAfter(left) * SECOND
        <==> left < MILLISECOND || left % MILLISECOND == 0 || (left / MILLISECOND) % 1000 != 0
    ensures left < RetryAfter(left) * SECOND + MILLISECOND
    ensures left <= WINDOW ==> 1 <= RetryAfter(left) <= 60
  {
    var ms := left / MILLISECOND;
    assert left == ms * MILLISECOND + left % MILLISECOND;
    assert ms == ms / 1000 * 1000 + ms % 1000;
  }

  /** A nanosecond over a second is told to wait one second. */
  lemma {:induction false} AWaitCanBeShort()
    ensures RetryAfter(1_000_000_001) == 1 && 1_000_000_001 > RetryAfter(1_000_000_001) * SECOND
  {
  }

  /** The full bucket of a table that tracks its history. */
  lemma {:induction false} FullIsLive(m: Map, now: nat, rules: seq<Rule>, key: string)
    requires FirstFull(m, rules, now).Some? && FirstFull(m, rules, now).value.key == key && Apart(rules)
    ensures key in m && m[key].resetAt > now
    ensures Decide(m, now, rules).1.Some? && Decide(m, now, rules).1.value.resetAt == m[key].resetAt
  {
    var i :| 0 <= i < |rules| && rules[i] == FirstFull(m, rules, now).value;
  }

  /** Every bucket in the table was opened by a request, a window before its reset. */
  lemma {:induction false} BucketsWereOpened(reqs: seq<Request>, key: string)
    requires key in Run(reqs).buckets
    ensures exists t | t in Stamps(reqs) :: Run(reqs).buckets[key].resetAt == t + WINDOW
  {
    RunTracks(reqs, key);
    OpenedByAStamp(Gens(reqs, key), BucketOf(Run(reqs).buckets, key), Run(reqs).lastSweep, Stamps(reqs), LimitOf(key));
  }

  lemma {:induction false} OpenedByAStamp(gens: seq<Gen>, bucket: Option<Bucket>, lastSweep: Option<nat>,
                                          stamps: set<nat>, limit: nat)
    requires Tracks(gens, bucket, lastSweep, stamps, limit) && bucket.Some?
    ensures exists t | t in stamps :: bucket.value.resetAt == t + WINDOW
  {
    assert GenKept(LastGen(gens), stamps, limit);
  }

  /** Every refusal names a bucket that is live at the refused stamp, and a wait of at most a minute plus the skew. */
  lemma {:induction false} RefusalsAreLive(reqs: seq<Request>, skew: nat)
    requires reqs != [] && Answer(reqs).Some?
    ensures var now, resetAt := reqs[|reqs| - 1].now, Answer(reqs).value.resetAt;
            now < resetAt && (Skewed(reqs, skew) ==> resetAt <= now + WINDOW + skew)
  {
    var before, r := reqs[..|reqs| - 1], reqs[|reqs| - 1];
    var found := Found(Run(before), r.now);
    var key := FirstFull(found, RulesOf(r.call), r.now).value.key;
    RulesAreApart(r.call);
    FullIsLive(found, r.now, RulesOf(r.call), key);
    if Skewed(reqs, skew) {
      BucketsWereOpened(before, key);
      var t :| t in Stamps(before) && Run(before).buckets[key].resetAt == t + WINDOW;
      StampsWithin(reqs, skew, t);
    }
  }

  lemma {:induction false} StampsWithin(reqs: seq<Request>, skew: nat, t: nat)
    requires Skewed(reqs, skew) && reqs != [] && t in Stamps(reqs[..|reqs| - 1])
    ensures t <= reqs[|reqs| - 1].now + skew
  {
    var before := reqs[..|reqs| - 1];
    var j :| 0 <= j < |before| && before[j].now == t;
    assert reqs[j] == before[j];
  }
}
