/**
Two tables of per-key locks that reclaim their entries by reference count:
the title locks of the feedback routes and the probe locks of the session
gate. Every access to a table happens under its guard and is one step; locking,
unlocking and dropping a clone are steps of their own, and a task may be
dropped at any of them.
*/
module KeyedLocks {
  /** The table (key to lock object), the strong count of every lock object made so far, and the next one. */
  datatype Table = Table(entries: map<string, nat>, count: map<nat, nat>, next: nat)

  const EMPTY := Table(map[], map[], 0)

  function Entry(table: Table, key: string): (Table, nat) {
    if key in table.entries then
      var lock := table.entries[key];
      (table.(count := table.count[lock := CountOf(table, lock) + 1]), lock)
    else
      (Table(table.entries[key := table.next], table.count[table.next := 2], table.next + 1), table.next)
  }

  function CountOf(table: Table, lock: nat): nat {
    if lock in table.count then table.count[lock] else 0
  }

  function Dec(n: nat): nat {
    if n == 0 then 0 else n - 1
  }

  /** The entries nobody else holds are dropped. */
  function Retain(table: Table): Table {
    var kept := map key | key in table.entries && CountOf(table, table.entries[key]) > 1 :: table.entries[key];
    Table(kept,
          map lock | lock in table.count ::
            if lock in table.entries.Values && table.count[lock] <= 1 then Dec(table.count[lock])
            else table.count[lock],
          table.next)
  }

  /** Drop the entry when the table and the caller's clone are its only holders. */
  function Cleaned(table: Table, key: string, lock: nat): Table {
    if CountOf(table, lock) == 2 && key in table.entries then
      var gone := table.entries[key];
      table.(entries := table.entries - {key}, count := table.count[gone := Dec(CountOf(table, gone))])
    else table
  }

  function Dropped(table: Table, lock: nat): Table {
    table.(count := table.count[lock := Dec(CountOf(table, lock))])
  }

  /** The table as the gateway mutates it. */
  class LockTable {
    var entries: map<string, nat>
    var count: map<nat, nat>
    var next: nat

    function Now(): Table
      reads this
    {
      Table(entries, count, next)
    }

    constructor ()
      ensures Now() == EMPTY
    {
      entries, count, next := map[], map[], 0;
    }

    /** Find or make the key's lock and clone it. */
    method Fetch(key: string) returns (lock: nat)
      modifies this
      ensures (Now(), lock) == Entry(old(Now()), key)
    {
      if key !in entries {
        entries := entries[key := next];
        count := count[next := 1];
        next := next + 1;
      }
      lock := entries[key];
      count := count[lock := (if lock in count then count[lock] else 0) + 1];
      assert key !in old(entries) ==> count == old(count)[lock := 2];
    }

    /** The session gate's variant: locks no one else holds go first. */
    method ProbeLock(key: string) returns (lock: nat)
      modifies this
      ensures (Now(), lock) == Entry(Retain(old(Now())), key)
    {
      var before := Now();
      entries := map k | k in before.entries && CountOf(before, before.entries[k]) > 1 :: before.entries[k];
      count := map l | l in before.count ::
        if l in before.entries.Values && before.count[l] <= 1 then Dec(before.count[l]) else before.count[l];
      lock := Fetch(key);
    }

    method Cleanup(key: string, lock: nat)
      modifies this
      ensures Now() == Cleaned(old(Now()), key, lock)
    {
      if lock in count && count[lock] == 2 && key in entries {
        var gone := entries[key];
        entries := entries - {key};
        count := count[gone := Dec(if gone in count then count[gone] else 0)];
      }
    }

    method DropClone(lock: nat)
      modifies this
      ensures Now() == Dropped(old(Now()), lock)
    {
      count := count[lock := Dec(if lock in count then count[lock] else 0)];
    }
  }

  // --- tasks that come and go ------------------------------------------------------

  /** ItemLocks cleans up after itself; the probe table sweeps on arrival. */
  datatype Policy = CleanAtTheEnd | SweepOnArrival

  datatype Stage = Waiting | Inside | Leaving | Dropping

  datatype Holder = Holder(key: string, lock: nat, stage: Stage)

  datatype State = State(table: Table, tasks: map<nat, Holder>)

  datatype Event =
    | Arrive(task: nat, key: string)
    | Acquire(task: nat)
    | Unlock(task: nat)
    | Clean(task: nat)
    | DropClone(task: nat)
    | Cancel(task: nat)

  /** A mutex is free while nobody is inside it. */
  predicate Free(s: State, lock: nat) {
    forall t | t in s.tasks :: !(s.tasks[t].lock == lock && s.tasks[t].stage.Inside?)
  }

  function Move(s: State, t: nat, stage: Stage): State
    requires t in s.tasks
  {
    s.(tasks := s.tasks[t := s.tasks[t].(stage := stage)])
  }

  function Gone(s: State, t: nat): State
    requires t in s.tasks
  {
    State(Dropped(s.table, s.tasks[t].lock), s.tasks - {t})
  }

  /** One step; an event that cannot happen leaves the state alone. */
  function Next(policy: Policy, s: State, e: Event): State {
    if e.Arrive? then
      if e.task in s.tasks then s
      else
        var (table, lock) := Entry(if policy.SweepOnArrival? then Retain(s.table) else s.table, e.key);
        State(table, s.tasks[e.task := Holder(e.key, lock, Waiting)])
    else if e.task !in s.tasks then s
    else
      var h := s.tasks[e.task];
      match e
      case Acquire(t) => if h.stage.Waiting? && Free(s, h.lock) then Move(s, t, Inside) else s
      case Unlock(t) =>
        if h.stage.Inside? then Move(s, t, if policy.CleanAtTheEnd? then Leaving else Dropping) else s
      case Clean(t) =>
        if h.stage.Leaving? then Move(s.(table := Cleaned(s.table, h.key, h.lock)), t, Dropping) else s
      case DropClone(t) => if h.stage.Dropping? then Gone(s, t) else s
      case Cancel(t) => if h.stage.Waiting? || h.stage.Inside? then Gone(s, t) else s
  }

  function Run(policy: Policy, events: seq<Event>): State {
    if events == [] then State(EMPTY, map[])
    else Next(policy, Run(policy, events[..|events| - 1]), events[|events| - 1])
  }

  // --- the invariant ------------------------------------------------------------------

  function Holders(s: State, lock: nat): set<nat> {
    set t | t in s.tasks && s.tasks[t].lock == lock
  }

  /** A strong count is the table's entry plus the clones that tasks hold. */
  predicate Counted(s: State, lock: nat) {
    CountOf(s.table, lock) == (if lock in s.table.entries.Values then 1 else 0) + |Holders(s, lock)|
  }

  predicate Current(s: State, h: Holder) {
    h.key in s.table.entries && s.table.entries[h.key] == h.lock
  }

  ghost predicate Inv(s: State) {
    && (forall lock: nat :: Counted(s, lock))
    && (forall k | k in s.table.entries :: s.table.entries[k] < s.table.next)
    && Injective(s.table.entries)
    && (forall t | t in s.tasks :: s.tasks[t].lock < s.table.next)
    // A task that has not finished with its lock holds the one a newcomer would get.
    && (forall t | t in s.tasks :: !s.tasks[t].stage.Dropping? ==> Current(s, s.tasks[t]))
    && (forall t1, t2 | t1 in s.tasks && t2 in s.tasks ::
          s.tasks[t1].stage.Inside? && s.tasks[t2].stage.Inside? && s.tasks[t1].lock == s.tasks[t2].lock ==> t1 == t2)
  }

  lemma {:induction false} HoldersOfMove(s: State, t: nat, stage: Stage, lock: nat)
    requires t in s.tasks
    ensures Holders(Move(s, t, stage), lock) == Holders(s, lock)
  {
  }

  lemma {:induction false} HoldersOfGone(s: State, t: nat, lock: nat)
    requires t in s.tasks
    ensures Holders(Gone(s, t), lock) == Holders(s, lock) - {t}
    ensures |Holders(Gone(s, t), lock)| == |Holders(s, lock)| - (if s.tasks[t].lock == lock then 1 else 0)
  {
    assert Holders(Gone(s, t), lock) == Holders(s, lock) - {t};
  }

  lemma {:induction false} GoneKeepsInv(s: State, t: nat)
    requires Inv(s) && t in s.tasks
    ensures Inv(Gone(s, t))
  {
    forall lock: nat ensures Counted(Gone(s, t), lock) {
      assert Counted(s, lock);
      HoldersOfGone(s, t, lock);
    }
  }

  predicate Injective(m: map<string, nat>) {
    forall k1, k2 | k1 in m && k2 in m :: m[k1] == m[k2] ==> k1 == k2
  }

  lemma {:induction false} ValuesOfRemoval(m: map<string, nat>, key: string)
    requires Injective(m) && key in m
    ensures (m - {key}).Values == m.Values - {m[key]}
  {
    var rest := m - {key};
    forall v | v in m.Values - {m[key]} ensures v in rest.Values {
      var k :| k in m && m[k] == v;
      assert k in rest && rest[k] == v;
    }
  }

  lemma {:induction false} ValuesOfInsertion(m: map<string, nat>, key: string, value: nat)
    requires key !in m
    ensures m[key := value].Values == m.Values + {value}
  {
    var more := m[key := value];
    assert more[key] == value;
    forall v | v in m.Values ensures v in more.Values {
      var k :| k in m && m[k] == v;
      assert more[k] == v;
    }
  }

  /** Only the leaving task and the table hold a lock whose strong count is two. */
  lemma {:induction false} CountTwoMeansAlone(s: State, t: nat)
    requires Inv(s) && t in s.tasks && Current(s, s.tasks[t]) && CountOf(s.table, s.tasks[t].lock) == 2
    ensures Holders(s, s.tasks[t].lock) == {t}
  {
    var lock := s.tasks[t].lock;
    assert Counted(s, lock) && t in Holders(s, lock);
    assert |Holders(s, lock) - {t}| == 0;
  }

  lemma {:induction false} CleanKeepsInv(s: State, t: nat)
    requires Inv(s) && t in s.tasks && s.tasks[t].stage.Leaving?
    ensures Inv(Move(s.(table := Cleaned(s.table, s.tasks[t].key, s.tasks[t].lock)), t, Dropping))
  {
    var h := s.tasks[t];
    var s' := Move(s.(table := Cleaned(s.table, h.key, h.lock)), t, Dropping);
    assert Current(s, h);
    if CountOf(s.table, h.lock) == 2 {
      CountTwoMeansAlone(s, t);
      ValuesOfRemoval(s.table.entries, h.key);
      forall u | u in s'.tasks && !s'.tasks[u].stage.Dropping? ensures Current(s', s'.tasks[u]) {
        assert u !in Holders(s, h.lock) && Current(s, s.tasks[u]);
      }
    }
    forall lock: nat ensures Counted(s', lock) {
      assert Counted(s, lock);
      assert Holders(s', lock) == Holders(s, lock);
    }
  }

  /** Sweeping drops only locks that no task holds. */
  lemma {:induction false} RetainKeepsInv(s: State)
    requires Inv(s)
    ensures Inv(s.(table := Retain(s.table)))
    ensures forall k | k in Retain(s.table).entries :: Holders(s, Retain(s.table).entries[k]) != {}
  {
    var s' := s.(table := Retain(s.table));
    var entries, kept := s.table.entries, s'.table.entries;
    forall lock: nat ensures Counted(s', lock) {
      assert Counted(s, lock);
      assert Holders(s', lock) == Holders(s, lock);
      if lock in entries.Values {
        var k :| k in entries && entries[k] == lock;
        if CountOf(s.table, lock) > 1 {
          assert k in kept && kept[k] == lock;
        }
      }
    }
    forall t | t in s.tasks && !s.tasks[t].stage.Dropping? ensures Current(s', s.tasks[t]) {
      var lock := s.tasks[t].lock;
      assert t in Holders(s, lock) && Counted(s, lock);
      assert lock in s.table.entries.Values;
    }
    forall k | k in s'.table.entries ensures Holders(s, s'.table.entries[k]) != {} {
      assert Counted(s, s.table.entries[k]);
    }
  }

  lemma {:induction false} HoldersOfArrival(s: State, table: Table, t: nat, h: Holder, lock: nat)
    requires t !in s.tasks
    ensures |Holders(State(table, s.tasks[t := h]), lock)| == |Holders(s, lock)| + (if h.lock == lock then 1 else 0)
  {
    var after := Holders(State(table, s.tasks[t := h]), lock);
    if h.lock == lock {
      assert after == Holders(s, lock) + {t};
    } else {
      assert after == Holders(s, lock);
    }
  }

  lemma {:induction false} EntryKeepsCounts(s: State, t: nat, key: string, lock: nat)
    requires Inv(s) && t !in s.tasks
    ensures var (table, made) := Entry(s.table, key);
            Counted(State(table, s.tasks[t := Holder(key, made, Waiting)]), lock)
  {
    var (table, made) := Entry(s.table, key);
    assert Counted(s, lock) && Counted(s, made);
    HoldersOfArrival(s, table, t, Holder(key, made, Waiting), lock);
    if key !in s.table.entries {
      ValuesOfInsertion(s.table.entries, key, made);
      assert made !in s.table.entries.Values && Holders(s, made) == {};
    }
  }

  lemma {:induction false} EntryKeepsInv(s: State, t: nat, key: string)
    requires Inv(s) && t !in s.tasks
    ensures var (table, lock) := Entry(s.table, key);
            Inv(State(table, s.tasks[t := Holder(key, lock, Waiting)]))
  {
    var (table, made) := Entry(s.table, key);
    var s' := State(table, s.tasks[t := Holder(key, made, Waiting)]);
    forall lock: nat ensures Counted(s', lock) {
      EntryKeepsCounts(s, t, key, lock);
    }
  }

  lemma {:induction false} NextKeepsInv(policy: Policy, s: State, e: Event)
    requires Inv(s)
    ensures Inv(Next(policy, s, e))
  {
    if e.Arrive? {
      if e.task !in s.tasks {
        RetainKeepsInv(s);
        EntryKeepsInv(if policy.SweepOnArrival? then s.(table := Retain(s.table)) else s, e.task, e.key);
      }
    } else if e.task in s.tasks {
      match e
      case Acquire(t) => MoveKeepsInv(s, t, Inside);
      case Unlock(t) => MoveKeepsInv(s, t, Leaving); MoveKeepsInv(s, t, Dropping);
      case Clean(t) => if s.tasks[t].stage.Leaving? { CleanKeepsInv(s, t); }
      case DropClone(t) => GoneKeepsInv(s, t);
      case Cancel(t) => GoneKeepsInv(s, t);
    }
  }

  lemma {:induction false} MoveKeepsInv(s: State, t: nat, stage: Stage)
    requires Inv(s) && t in s.tasks
    ensures !s.tasks[t].stage.Dropping? && (stage.Inside? ==> Free(s, s.tasks[t].lock)) ==> Inv(Move(s, t, stage))
  {
    forall lock: nat ensures Counted(s, lock) && Holders(Move(s, t, stage), lock) == Holders(s, lock) {
      HoldersOfMove(s, t, stage, lock);
    }
    assert Current(s, s.tasks[t]) ==> Current(Move(s, t, stage), Move(s, t, stage).tasks[t]);
  }

  lemma {:induction false} RunKeepsInv(policy: Policy, events: seq<Event>)
    ensures Inv(Run(policy, events))
  {
    if events == [] {
      forall lock: nat ensures Counted(Run(policy, events), lock) {
        assert Holders(Run(policy, events), lock) == {};
      }
    } else {
      RunKeepsInv(policy, events[..|events| - 1]);
      NextKeepsInv(policy, Run(policy, events[..|events| - 1]), events[|events| - 1]);
    }
  }

  // --- the theorems ---------------------------------------------------------------------

  /** In every interleaving, at most one task is inside the critical section of a key. */
  lemma {:induction false} MutualExclusion(policy: Policy, events: seq<Event>, t1: nat, t2: nat)
    requires var tasks := Run(policy, events).tasks;
             && t1 in tasks && tasks[t1].stage.Inside?
             && t2 in tasks && tasks[t2].stage.Inside?
             && tasks[t1].key == tasks[t2].key
    ensures t1 == t2
  {
    RunKeepsInv(policy, events);
    var s := Run(policy, events);
    assert Current(s, s.tasks[t1]) && Current(s, s.tasks[t2]);
  }

  /** A lock that someone waits for or holds is never reclaimed: whoever arrives next shares it. */
  lemma {:induction false} NewcomersShareTheLock(policy: Policy, events: seq<Event>, t: nat, newcomer: nat)
    requires var tasks := Run(policy, events).tasks;
             t in tasks && newcomer !in tasks && !tasks[t].stage.Dropping?
    ensures var s := Run(policy, events);
            var s' := Next(policy, s, Arrive(newcomer, s.tasks[t].key));
            s'.tasks[newcomer].lock == s.tasks[t].lock
  {
    RunKeepsInv(policy, events);
    var s := Run(policy, events);
    RetainKeepsInv(s);
    assert Current(s, s.tasks[t]) && Current(s.(table := Retain(s.table)), s.tasks[t]);
  }

  /** Right after a probe lock is taken, every lock in the table belongs to a probe in flight. */
  lemma {:induction false} ProbeTableHoldsOnlyProbesInFlight(events: seq<Event>, t: nat, key: string)
    requires t !in Run(SweepOnArrival, events).tasks
    ensures var s := Next(SweepOnArrival, Run(SweepOnArrival, events), Arrive(t, key));
            forall k | k in s.table.entries :: Holders(s, s.table.entries[k]) != {}
  {
    RunKeepsInv(SweepOnArrival, events);
    var before := Run(SweepOnArrival, events);
    RetainKeepsInv(before);
    var s := Next(SweepOnArrival, before, Arrive(t, key));
    forall k | k in s.table.entries ensures Holders(s, s.table.entries[k]) != {} {
      if k == key {
        assert t in Holders(s, s.table.entries[k]);
      } else {
        var u :| u in Holders(before, s.table.entries[k]);
        assert u in Holders(s, s.table.entries[k]);
      }
    }
  }

  // --- when an entry is reclaimed -----------------------------------------------------------

  /** The cleanup of a task drops its key's entry exactly when nobody else holds the lock. */
  lemma {:induction false} CleanDropsIff(policy: Policy, events: seq<Event>, t: nat)
    requires var tasks := Run(policy, events).tasks; t in tasks && tasks[t].stage.Leaving?
    ensures var s := Run(policy, events);
            s.tasks[t].key !in Next(policy, s, Clean(t)).table.entries <==> Holders(s, s.tasks[t].lock) == {t}
  {
    RunKeepsInv(policy, events);
    CleanCounts(Run(policy, events), t);
  }

  lemma {:induction false} CleanCounts(s: State, t: nat)
    requires Inv(s) && t in s.tasks && Current(s, s.tasks[t])
    ensures CountOf(s.table, s.tasks[t].lock) == 2 <==> Holders(s, s.tasks[t].lock) == {t}
  {
    var lock := s.tasks[t].lock;
    assert Counted(s, lock) && lock in s.table.entries.Values;
    if CountOf(s.table, lock) == 2 {
      CountTwoMeansAlone(s, t);
    }
  }

  /** An entry that no task holds. */
  predicate Orphaned(s: State, key: string) {
    key in s.table.entries && Holders(s, s.table.entries[key]) == {}
  }

  /** The last holder of a current entry, dropping its clone or cancelled: `e` takes it away. */
  predicate LastOut(s: State, e: Event, key: string) {
    && (e.DropClone? || e.Cancel?)
    && e.task in s.tasks
    && (if e.DropClone? then s.tasks[e.task].stage.Dropping? else s.tasks[e.task].stage in {Waiting, Inside})
    && s.tasks[e.task].key == key && Current(s, s.tasks[e.task])
    && Holders(s, s.tasks[e.task].lock) == {e.task}
  }

  /** A step orphans an entry exactly when it is the last holder's departure and the entry is still there. */
  lemma {:induction false} OrphanedIff(events: seq<Event>, e: Event, key: string)
    requires !Orphaned(Run(CleanAtTheEnd, events), key)
    ensures var s := Run(CleanAtTheEnd, events);
            Orphaned(Next(CleanAtTheEnd, s, e), key) <==> LastOut(s, e, key)
  {
    RunKeepsInv(CleanAtTheEnd, events);
    RunIsTagged(CleanAtTheEnd, events);
    StepOrphansIff(Run(CleanAtTheEnd, events), e, key);
  }

  /** A lock in the table belongs to holders of its key only. */
  ghost predicate Tagged(s: State) {
    forall t, k | t in s.tasks && k in s.table.entries && s.table.entries[k] == s.tasks[t].lock :: s.tasks[t].key == k
  }

  lemma {:induction false} RunIsTagged(policy: Policy, events: seq<Event>)
    ensures Tagged(Run(policy, events))
  {
    if events != [] {
      var before := Run(policy, events[..|events| - 1]);
      RunIsTagged(policy, events[..|events| - 1]);
      RunKeepsInv(policy, events[..|events| - 1]);
      NextIsTagged(policy, before, events[|events| - 1]);
    }
  }

  lemma {:induction false} NextIsTagged(policy: Policy, s: State, e: Event)
    requires Inv(s) && Tagged(s)
    ensures Tagged(Next(policy, s, e))
  {
  }

  lemma {:induction false} StepOrphansIff(s: State, e: Event, key: string)
    requires Inv(s) && Tagged(s) && !Orphaned(s, key)
    ensures Orphaned(Next(CleanAtTheEnd, s, e), key) <==> LastOut(s, e, key)
  {
    if e.Arrive? {
      if e.task !in s.tasks {
        ArrivalOrphansNothing(s, e.task, e.key, key);
      }
    } else if e.task in s.tasks {
      var h := s.tasks[e.task];
      if (e.DropClone? && h.stage.Dropping?) || (e.Cancel? && h.stage in {Waiting, Inside}) {
        DepartureOrphansIff(s, e.task, key);
      } else {
        StayingOrphansNothing(s, e, key);
      }
    }
  }

  lemma {:induction false} DepartureOrphansIff(s: State, t: nat, key: string)
    requires Inv(s) && Tagged(s) && !Orphaned(s, key) && t in s.tasks
    ensures Orphaned(Gone(s, t), key)
        <==> s.tasks[t].key == key && Current(s, s.tasks[t]) && Holders(s, s.tasks[t].lock) == {t}
  {
    if key in s.table.entries {
      HoldersOfGone(s, t, s.table.entries[key]);
      assert t in Holders(s, s.tasks[t].lock);
    }
  }

  lemma {:induction false} StayingOrphansNothing(s: State, e: Event, key: string)
    requires Inv(s) && !Orphaned(s, key) && !e.Arrive?
    requires Next(CleanAtTheEnd, s, e).tasks.Keys == s.tasks.Keys
    ensures !Orphaned(Next(CleanAtTheEnd, s, e), key)
  {
    var s' := Next(CleanAtTheEnd, s, e);
    if key in s'.table.entries {
      assert Holders(s', s'.table.entries[key]) == Holders(s, s.table.entries[key]);
    }
  }

  lemma {:induction false} ArrivalOrphansNothing(s: State, t: nat, at: string, key: string)
    requires Inv(s) && t !in s.tasks && !Orphaned(s, key)
    ensures !Orphaned(Next(CleanAtTheEnd, s, Arrive(t, at)), key)
  {
    var s' := Next(CleanAtTheEnd, s, Arrive(t, at));
    if key in s.table.entries {
      var u :| u in Holders(s, s.table.entries[key]);
      assert u in Holders(s', s'.table.entries[key]);
    } else if key == at {
      assert t in Holders(s', s'.table.entries[key]);
    }
  }

  /** While a task that has cleaned up still holds its clone, no other step moves its entry. */
  lemma {:induction false} HeldEntryStays(s: State, e: Event, t: nat)
    requires Inv(s) && Tagged(s) && t in s.tasks && s.tasks[t].stage.Dropping?
    requires t in Next(CleanAtTheEnd, s, e).tasks
    ensures var s' := Next(CleanAtTheEnd, s, e);
            s'.tasks[t] == s.tasks[t] && (Current(s', s'.tasks[t]) <==> Current(s, s.tasks[t]))
  {
    if e.Clean? && e.task in s.tasks && s.tasks[e.task].stage.Leaving? {
      CleanCounts(s, e.task);
      assert t != e.task;
      if s.tasks[e.task].lock == s.tasks[t].lock {
        assert t in Holders(s, s.tasks[e.task].lock);
      }
    }
  }

  /** The task that cleans up at `j` stays until `i`. */
  ghost predicate Lasts(events: seq<Event>, j: nat, i: nat, t: nat) {
    && j < i < |events|
    && events[j] == Clean(t) && t in Run(CleanAtTheEnd, events[..j]).tasks
    && Run(CleanAtTheEnd, events[..j]).tasks[t].stage.Leaving?
    && forall m | j < m <= i :: t in Run(CleanAtTheEnd, events[..m]).tasks
  }

  /** Whether the entry survived the cleanup of a task that found company or not. */
  ghost predicate SinceClean(s: State, s': State, t: nat)
    requires t in s.tasks
  {
    && t in s'.tasks && s'.tasks[t] == s.tasks[t].(stage := Dropping)
    && (Current(s', s'.tasks[t]) <==> Holders(s, s.tasks[t].lock) != {t})
  }

  lemma {:induction false} CleanSplits(s: State, t: nat)
    requires Inv(s) && t in s.tasks && s.tasks[t].stage.Leaving?
    ensures SinceClean(s, Next(CleanAtTheEnd, s, Clean(t)), t)
  {
    CleanCounts(s, t);
  }

  lemma {:induction false} EntrySinceClean(events: seq<Event>, j: nat, i: nat, t: nat)
    requires Lasts(events, j, i, t)
    ensures SinceClean(Run(CleanAtTheEnd, events[..j]), Run(CleanAtTheEnd, events[..i]), t)
    decreases i
  {
    assert events[..i][..i - 1] == events[..i - 1];
    var before := Run(CleanAtTheEnd, events[..i - 1]);
    RunKeepsInv(CleanAtTheEnd, events[..i - 1]);
    if i > j + 1 {
      EntrySinceClean(events, j, i - 1, t);
      RunIsTagged(CleanAtTheEnd, events[..i - 1]);
      HeldEntryStays(before, events[i - 1], t);
    } else {
      CleanSplits(before, t);
    }
  }

  /**
  Whether the last clone to go leaves its entry behind was settled at its own
  cleanup: it does exactly when somebody else held the lock at that moment.
  */
  lemma {:induction false} LastOutLeavesTheEntryIff(events: seq<Event>, j: nat, i: nat, t: nat)
    requires Lasts(events, j, i, t) && events[i] == DropClone(t)
    requires var s := Run(CleanAtTheEnd, events[..i]); Holders(s, s.tasks[t].lock) == {t}
    ensures var s, end := Run(CleanAtTheEnd, events[..j]), Run(CleanAtTheEnd, events[..i + 1]);
            var h := s.tasks[t];
            (h.key in end.table.entries && end.table.entries[h.key] == h.lock) <==> Holders(s, h.lock) != {t}
  {
    EntrySinceClean(events, j, i, t);
    assert events[..i + 1][..i] == events[..i];
  }

  /** A task cancelled while it is the only holder always leaves its entry behind. */
  lemma {:induction false} CancelledLastOutLeavesTheEntry(events: seq<Event>, t: nat)
    requires var s := Run(CleanAtTheEnd, events);
             t in s.tasks && s.tasks[t].stage in {Waiting, Inside} && Holders(s, s.tasks[t].lock) == {t}
    ensures var s := Run(CleanAtTheEnd, events);
            Orphaned(Next(CleanAtTheEnd, s, Cancel(t)), s.tasks[t].key)
  {
    RunKeepsInv(CleanAtTheEnd, events);
    var s := Run(CleanAtTheEnd, events);
    assert Current(s, s.tasks[t]);
    HoldersOfGone(s, t, s.tasks[t].lock);
  }

  /**
  So a title lock can outlive its tasks: here the second to clean up still sees
  the first one's clone, and neither drops the entry. The next task reuses it.
  */
  lemma {:induction false} AnEntryCanLinger(key: string)
    ensures var s := Run(CleanAtTheEnd, [Arrive(1, key), Arrive(2, key), Acquire(1), Unlock(1), Acquire(2), Unlock(2),
                                         Clean(1), Clean(2), DropClone(1), DropClone(2)]);
            s.tasks == map[] && key in s.table.entries
  {
    var p := CleanAtTheEnd;
    var h := Holder(key, 0, Waiting);
    var table := Table(map[key := 0], map[0 := 3], 1);
    var es, s := Then(p, [], Arrive(1, key));
    es, s := Then(p, es, Arrive(2, key));
    assert s == State(table, map[1 := h, 2 := h]);
    es, s := Then(p, es, Acquire(1));
    es, s := Then(p, es, Unlock(1));
    assert s == State(table, map[1 := h.(stage := Leaving), 2 := h]);
    es, s := Then(p, es, Acquire(2));
    es, s := Then(p, es, Unlock(2));
    assert s == State(table, map[1 := h.(stage := Leaving), 2 := h.(stage := Leaving)]);
    es, s := Then(p, es, Clean(1));
    es, s := Then(p, es, Clean(2));
    assert s == State(table, map[1 := h.(stage := Dropping), 2 := h.(stage := Dropping)]);
    es, s := Then(p, es, DropClone(1));
    es, s := Then(p, es, DropClone(2));
    assert s.tasks == map[];
    assert es == [Arrive(1, key), Arrive(2, key), Acquire(1), Unlock(1), Acquire(2), Unlock(2),
                  Clean(1), Clean(2), DropClone(1), DropClone(2)];
  }

  lemma {:induction false} Then(policy: Policy, es: seq<Event>, e: Event) returns (more: seq<Event>, s: State)
    ensures more == es + [e] && s == Run(policy, more) == Next(policy, Run(policy, es), e)
  {
    more := es + [e];
    s := Run(policy, more);
    assert more[..|more| - 1] == es;
  }
}

/** One spawned call per key; concurrent callers await the same result. */
module SingleFlights {
  import opened Util

  /** A spawned call: its key and, once it has finished, its value. */
  datatype Flight = Flight(key: string, result: Option<int>)

  /** A caller awaits the flight it found or started; then it has the flight's value and deregisters it. */
  datatype Caller = Caller(key: string, flight: nat, value: Option<int>)

  /** The registered flights, every flight ever spawned (by order of spawning), and the callers. */
  datatype State = State(flights: map<string, nat>, spawned: seq<Flight>, callers: map<nat, Caller>)

  datatype Event =
    | Join(caller: nat, key: string)
    | Complete(flight: nat, result: int)
    | Receive(caller: nat)
    | Deregister(caller: nat)
    | Abandon(caller: nat)

  /** The flight a caller of `key` gets, spawning one if none is registered. */
  function Entry(s: State, key: string): (State, nat) {
    if key in s.flights then (s, s.flights[key])
    else (s.(flights := s.flights[key := |s.spawned|], spawned := s.spawned + [Flight(key, None)]), |s.spawned|)
  }

  /** Only the very flight that was awaited is removed. */
  function Removed(flights: map<string, nat>, key: string, flight: nat): map<string, nat> {
    if key in flights && flights[key] == flight then flights - {key} else flights
  }

  function Next(s: State, e: Event): State {
    match e
    case Join(c, key) =>
      if c in s.callers then s
      else
        var (s', flight) := Entry(s, key);
        s'.(callers := s'.callers[c := Caller(key, flight, None)])
    case Complete(f, v) =>
      if f < |s.spawned| && s.spawned[f].result.None? then
        s.(spawned := s.spawned[f := s.spawned[f].(result := Some(v))])
      else s
    case Receive(c) =>
      if c in s.callers && s.callers[c].flight < |s.spawned| then
        s.(callers := s.callers[c := s.callers[c].(value := s.spawned[s.callers[c].flight].result)])
      else s
    case Deregister(c) =>
      if c in s.callers && s.callers[c].value.Some? then
        State(Removed(s.flights, s.callers[c].key, s.callers[c].flight), s.spawned, s.callers - {c})
      else s
    case Abandon(c) => s.(callers := s.callers - {c})
  }

  function Run(events: seq<Event>): State {
    if events == [] then State(map[], [], map[])
    else Next(Run(events[..|events| - 1]), events[|events| - 1])
  }

  /** The registry as the gateway mutates it; a flight is a number, the spawned task is outside. */
  class Registry {
    var flights: map<string, nat>
    var spawned: nat

    constructor ()
      ensures flights == map[] && spawned == 0
    {
      flights, spawned := map[], 0;
    }

    method Join(key: string) returns (flight: nat)
      modifies this
      ensures var before := State(old(flights), seq(old(spawned), _ => Flight("", None)), map[]);
              var (after, f) := Entry(before, key);
              flight == f && flights == after.flights && spawned == |after.spawned|
    {
      if key !in flights {
        flights := flights[key := spawned];
        spawned := spawned + 1;
      }
      flight := flights[key];
    }

    method Deregister(key: string, flight: nat)
      modifies this`flights
      ensures flights == Removed(old(flights), key, flight)
    {
      if key in flights && flights[key] == flight {
        flights := flights - {key};
      }
    }
  }

  predicate Inv(s: State) {
    && (forall k | k in s.flights :: s.flights[k] < |s.spawned| && s.spawned[s.flights[k]].key == k)
    // Whoever asks for the key of an unfinished call finds that call.
    && (forall f | 0 <= f < |s.spawned| ::
          s.spawned[f].result.None? ==> s.spawned[f].key in s.flights && s.flights[s.spawned[f].key] == f)
    && (forall c | c in s.callers ::
          && s.callers[c].flight < |s.spawned|
          && s.spawned[s.callers[c].flight].key == s.callers[c].key
          && (s.callers[c].value.Some? ==> s.callers[c].value == s.spawned[s.callers[c].flight].result))
  }

  lemma {:induction false} NextKeepsInv(s: State, e: Event)
    requires Inv(s)
    ensures Inv(Next(s, e))
  {
  }

  lemma {:induction false} RunKeepsInv(events: seq<Event>)
    ensures Inv(Run(events))
  {
    if events != [] {
      RunKeepsInv(events[..|events| - 1]);
      NextKeepsInv(Run(events[..|events| - 1]), events[|events| - 1]);
    }
  }

  /** In every interleaving, dropped callers included, a key has at most one unfinished call. */
  lemma {:induction false} OneUnfinishedCallPerKey(events: seq<Event>, f1: nat, f2: nat)
    requires var spawned := Run(events).spawned;
             && f1 < |spawned| && spawned[f1].result.None?
             && f2 < |spawned| && spawned[f2].result.None?
             && spawned[f1].key == spawned[f2].key
    ensures f1 == f2
  {
    RunKeepsInv(events);
  }

  /** A caller that finishes removes at most the flight it awaited, and that flight has landed. */
  lemma {:induction false} DeregisteringRemovesOnlyTheAwaitedFlight(events: seq<Event>, c: nat, key: string)
    requires var s := Run(events);
             c in s.callers && key in s.flights && key !in Next(s, Deregister(c)).flights
    ensures var s := Run(events);
            && s.flights[key] < |s.spawned|
            && s.flights[key] == s.callers[c].flight && key == s.callers[c].key
            && s.spawned[s.flights[key]].result == s.callers[c].value && s.callers[c].value.Some?
  {
    RunKeepsInv(events);
  }

  /** The value a caller leaves with is the one its own flight landed with, and a landed value never changes. */
  lemma {:induction false} ValuesAreFinal(events: seq<Event>, more: seq<Event>, f: nat)
    requires f < |Run(events).spawned| && Run(events).spawned[f].result.Some?
    ensures f < |Run(events + more).spawned| && Run(events + more).spawned[f] == Run(events).spawned[f]
  {
    if more == [] {
      assert events + more == events;
    } else {
      var n := |more| - 1;
      ValuesAreFinal(events, more[..n], f);
      assert (events + more)[..|events + more| - 1] == events + more[..n];
    }
  }

  // --- how long a landed flight stays ------------------------------------------------------

  /** A caller that received the flight's value has deregistered. */
  predicate Released(events: seq<Event>, f: nat) {
    events != [] &&
    var before, e := events[..|events| - 1], events[|events| - 1];
    (Released(before, f) || Releases(Run(before), e, f))
  }

  predicate Releases(s: State, e: Event, f: nat) {
    e.Deregister? && e.caller in s.callers && s.callers[e.caller].value.Some? && s.callers[e.caller].flight == f
  }

  predicate Registered(s: State, f: nat) {
    f < |s.spawned| && s.spawned[f].key in s.flights && s.flights[s.spawned[f].key] == f
  }

  lemma {:induction false} ReleasedWasSpawned(events: seq<Event>, f: nat)
    requires Released(events, f)
    ensures f < |Run(events).spawned|
  {
    var n := |events| - 1;
    RunKeepsInv(events[..n]);
    if Released(events[..n], f) {
      ReleasedWasSpawned(events[..n], f);
    }
    SpawnedGrows(Run(events[..n]), events[n]);
  }

  lemma {:induction false} SpawnedGrows(s: State, e: Event)
    ensures |Next(s, e).spawned| >= |s.spawned|
  {
  }

  lemma {:induction false} StepRegisteredIff(s: State, e: Event, f: nat)
    requires Inv(s) && f < |Next(s, e).spawned|
    ensures Registered(Next(s, e), f) <==> (f >= |s.spawned| || (Registered(s, f) && !Releases(s, e, f)))
  {
  }

  /** Over every run, a flight is registered until the first caller that has its value deregisters, and no longer. */
  lemma {:induction false} RegisteredIff(events: seq<Event>, f: nat)
    requires f < |Run(events).spawned|
    ensures Registered(Run(events), f) <==> !Released(events, f)
  {
    var n := |events| - 1;
    var s := Run(events[..n]);
    RunKeepsInv(events[..n]);
    StepRegisteredIff(s, events[n], f);
    if f < |s.spawned| {
      RegisteredIff(events[..n], f);
    } else if Released(events[..n], f) {
      ReleasedWasSpawned(events[..n], f);
    }
  }

  /** What a joining caller is handed was computed before it arrived. */
  predicate JoinsLanded(s: State, c: nat, key: string)
    requires c !in s.callers && (key in s.flights ==> s.flights[key] < |s.spawned|)
  {
    var (s', f) := Entry(s, key);
    s'.spawned[f].result.Some?
  }

  /** A caller is handed an old value exactly when some call of the key has landed and nobody has released it. */
  lemma {:induction false} AnOldValueIff(events: seq<Event>, c: nat, key: string)
    requires c !in Run(events).callers
    ensures var s := Run(events);
            && (key in s.flights ==> s.flights[key] < |s.spawned|)
            && (JoinsLanded(s, c, key) <==>
                exists f | 0 <= f < |s.spawned| ::
                  s.spawned[f].key == key && s.spawned[f].result.Some? && !Released(events, f))
  {
    RunKeepsInv(events);
    var s := Run(events);
    forall f | 0 <= f < |s.spawned| ensures Registered(s, f) <==> !Released(events, f) {
      RegisteredIff(events, f);
    }
    if JoinsLanded(s, c, key) {
      var f := s.flights[key];
      assert Registered(s, f);
    }
    if f: nat :| f < |s.spawned| && s.spawned[f].key == key && s.spawned[f].result.Some? && !Released(events, f) {
      assert Registered(s, f);
    }
  }

  /** It happens: when every caller of a landed flight was dropped, a later one gets the old value. */
  lemma {:induction false} ALandedFlightCanLinger(key: string, v: int)
    ensures var s := Run([Join(1, key), Abandon(1), Complete(0, v), Join(2, key), Receive(2)]);
            |s.spawned| == 1 && s.callers == map[2 := Caller(key, 0, Some(v))]
  {
    var es := [Join(1, key), Abandon(1), Complete(0, v), Join(2, key), Receive(2)];
    assert forall i | 0 <= i < 5 :: es[..i + 1][..i] == es[..i] && es[..i + 1][i] == es[i];
    var f := map[key := 0];
    assert Run(es[..1]) == State(f, [Flight(key, None)], map[1 := Caller(key, 0, None)]);
    assert Run(es[..2]) == State(f, [Flight(key, None)], map[]);
    assert Run(es[..3]) == State(f, [Flight(key, Some(v))], map[]);
    assert Run(es[..4]) == State(f, [Flight(key, Some(v))], map[2 := Caller(key, 0, None)]);
    assert es[..5] == es;
  }
}
