/**
The stores and the two feedback requests as the gateway runs them: a cached
JSON store object per file, and requests that call the stores one after the
other. Each request is shown to follow the step by step program of
`Household`, and a request that runs alone is shown to be all or nothing.
*/
module FeedbackRoutes {
  import opened Util
  import opened Stores
  import opened Household

  /**
  One JSON file behind an in-memory cache. The file is read on first use; a
  write persists the next snapshot before it becomes the cached one.
  */
  class JsonStore<T> {
    const empty: T
    const parse: T -> T
    var disk: Option<T>
    var cell: Option<T>

    /** What the next reader gets. */
    function Value(): T
      reads this
    {
      if cell.Some? then cell.value else if disk.Some? then parse(disk.value) else empty
    }

    /** The cache is never ahead of the file. */
    ghost predicate Valid()
      reads this
    {
      cell.Some? ==>
        if disk.None? then cell.value == empty
        else cell.value == disk.value || cell.value == parse(disk.value)
    }

    constructor (empty: T, parse: T -> T, disk: Option<T>)
      ensures Valid() && this.disk == disk && cell == None && this.empty == empty && this.parse == parse
    {
      this.empty := empty;
      this.parse := parse;
      this.disk := disk;
      cell := None;
    }

    /** The current snapshot; a failed load leaves the store uncached. */
    method Get(io: Io) returns (r: Option<T>)
      requires Valid()
      modifies this`cell
      ensures Valid() && Value() == old(Value())
      ensures r == if old(cell).None? && io.ReadFault? then None else Some(Value())
      ensures cell.Some? <==> old(cell).Some? || r.Some?
    {
      if cell.None? {
        if io.ReadFault? {
          return None;
        }
        cell := Some(if disk.Some? then parse(disk.value) else empty);
      }
      r := cell;
    }

    /** Build the next snapshot, persist it, and only then make it the current one. */
    method Update(f: T -> Option<T>, io: Io) returns (ok: bool)
      requires Valid()
      modifies this
      ensures Valid()
      ensures var loaded := old(cell).Some? || !io.ReadFault?;
              var next := f(old(Value()));
              && ok == (loaded && (next.None? || !io.WriteFault?))
              && Value() == (if ok then OrSame(next, old(Value())) else old(Value()))
              && (cell.Some? <==> loaded)
              && disk == (if ok && next.Some? then next else old(disk))
    {
      var current := Get(io);
      if current.None? {
        return false;
      }
      var next := f(current.value);
      if next.None? {
        return true;
      }
      if io.WriteFault? {
        return false;
      }
      disk := next;
      cell := next;
      ok := true;
    }

    /** The process starts over: what was cached is read back from the file. */
    method Restart()
      requires Valid()
      modifies this`cell
      ensures Valid() && cell == None
      ensures Value() == old(Value()) || Value() == parse(old(Value()))
    {
      cell := None;
    }
  }

  function Snapshot(feedback: JsonStore<FeedbackFile>, rejections: JsonStore<Rejections>): Both
    reads feedback, rejections
  {
    Both(feedback.Value(), rejections.Value(), feedback.cell.Some?, rejections.cell.Some?)
  }

  /** The outcome of the i-th store call of a request. */
  function Nth(io: seq<Io>, i: nat): Io {
    if i < |io| then io[i] else Fine
  }

  /** Where a request stands between two store calls. */
  datatype Point = Point(both: Both, task: Task)

  predicate AdvancesAt(trace: seq<Point>, io: seq<Io>, i: nat)
    requires i + 1 < |trace|
  {
    var (both, pc) := Step(trace[i].both, trace[i].task, Nth(io, i));
    !trace[i].task.pc.Done? && trace[i + 1] == Point(both, trace[i].task.(pc := pc))
  }

  /** A request that runs alone: each point is one store call after the one before. */
  predicate IsRun(trace: seq<Point>, io: seq<Io>) {
    |trace| > 0 && forall i: nat | i + 1 < |trace| :: AdvancesAt(trace, io, i)
  }

  function Last(trace: seq<Point>): Point
    requires |trace| > 0
  {
    trace[|trace| - 1]
  }

  /** The whole request: from where it starts to its answer. */
  predicate Serves(trace: seq<Point>, io: seq<Io>, start: Both, request: Task, end: Both, ok: bool) {
    IsRun(trace, io) && trace[0] == Point(start, request) && Last(trace) == Point(end, request.(pc := Done(ok)))
  }

  function Request(k: Key, sub: string, title: string, signal: Option<Signal>): Task {
    var pc := match signal case Some(Dislike) => DislikeUser case Some(Like) => LikeUser case None => ClearUser;
    Task(k, sub, title, pc)
  }

  /** `longer` is `trace` and one more store call, whose answer leads where the program says. */
  ghost predicate Extends(longer: seq<Point>, trace: seq<Point>, io: seq<Io>, both: Both, ok: bool, seen: Seen)
    requires |trace| > 0
  {
    var t := Last(trace).task;
    IsRun(longer, io) && |longer| == |trace| + 1 && longer[0] == trace[0] &&
    Last(longer) == Point(both, t.(pc := Continue(t, ok, seen)))
  }

  lemma {:induction false} Extend(trace: seq<Point>, io: seq<Io>, ok: bool, both: Both) returns (longer: seq<Point>)
    requires IsRun(trace, io) && !Last(trace).task.pc.Done?
    requires var p := Last(trace);
             (both, ok) == Perform(p.both, p.task.key, p.task.sub, CallOf(p.task), Nth(io, |trace| - 1))
    ensures Extends(longer, trace, io, both, ok, See(Last(trace).both, Last(trace).task.key, Last(trace).task.sub))
  {
    var p := Last(trace);
    longer := trace + [Point(both, p.task.(pc := Continue(p.task, ok, See(p.both, p.task.key, p.task.sub))))];
    forall i: nat | i + 1 < |longer| ensures AdvancesAt(longer, io, i) {
      if i + 1 < |trace| {
        assert AdvancesAt(trace, io, i);
      }
    }
  }

  /** The request of `trace` has come to `call`, and the stores are as it left them. */
  ghost predicate Due(trace: seq<Point>, io: seq<Io>, i: nat, both: Both, k: Key, sub: string, call: StoreCall) {
    && IsRun(trace, io) && |trace| == i + 1
    && var p := Last(trace);
    && p.both == both && p.task.key == k && p.task.sub == sub
    && !p.task.pc.Done? && CallOf(p.task) == call
  }

  // --- the five store calls on the store objects ------------------------------------

  method GetUser(feedback: JsonStore<FeedbackFile>, rejections: JsonStore<Rejections>, k: Key, sub: string,
             io: seq<Io>, i: nat, ghost trace: seq<Point>)
    returns (r: Option<FeedbackFile>, ghost seen: Seen, ghost longer: seq<Point>)
    requires feedback.Valid() && rejections.Valid()
    requires Due(trace, io, i, Snapshot(feedback, rejections), k, sub, GetFeedback)
    modifies feedback
    ensures feedback.Valid() && rejections.Valid()
    ensures Extends(longer, trace, io, Snapshot(feedback, rejections), r.Some?, seen)
    ensures r.Some? ==>
              && seen.red == Find(UserOf(r.value, sub).Of(k.kind).disliked, k.id)
              && seen.green == Find(UserOf(r.value, sub).Of(k.kind).liked, k.id)
              && seen.others == AnotherDislikes(r.value, sub, k)
  {
    seen := See(Snapshot(feedback, rejections), k, sub);
    r := feedback.Get(Nth(io, i));
    longer := Extend(trace, io, r.Some?, Snapshot(feedback, rejections));
  }

  method GetIds(feedback: JsonStore<FeedbackFile>, rejections: JsonStore<Rejections>, k: Key, sub: string,
             io: seq<Io>, i: nat, ghost trace: seq<Point>)
    returns (r: Option<Rejections>, ghost seen: Seen, ghost longer: seq<Point>)
    requires feedback.Valid() && rejections.Valid()
    requires Due(trace, io, i, Snapshot(feedback, rejections), k, sub, GetRejections)
    modifies rejections
    ensures feedback.Valid() && rejections.Valid()
    ensures Extends(longer, trace, io, Snapshot(feedback, rejections), r.Some?, seen)
    ensures r.Some? ==> seen.vetoed == Vetoed(r.value, k)
  {
    seen := See(Snapshot(feedback, rejections), k, sub);
    r := rejections.Get(Nth(io, i));
    longer := Extend(trace, io, r.Some?, Snapshot(feedback, rejections));
  }

  method Set(feedback: JsonStore<FeedbackFile>, rejections: JsonStore<Rejections>, k: Key, sub: string,
             title: string, next: Option<Signal>, io: seq<Io>, i: nat, ghost trace: seq<Point>)
    returns (ok: bool, ghost seen: Seen, ghost longer: seq<Point>)
    requires feedback.Valid() && rejections.Valid()
    requires Due(trace, io, i, Snapshot(feedback, rejections), k, sub, SetMine(title, next))
    modifies feedback
    ensures feedback.Valid() && rejections.Valid()
    ensures Extends(longer, trace, io, Snapshot(feedback, rejections), ok, seen)
  {
    seen := See(Snapshot(feedback, rejections), k, sub);
    ok := feedback.Update(file => Some(SetSignal(file, sub, k, title, next)), Nth(io, i));
    longer := Extend(trace, io, ok, Snapshot(feedback, rejections));
  }

  method Add(feedback: JsonStore<FeedbackFile>, rejections: JsonStore<Rejections>, k: Key, sub: string,
             title: string, io: seq<Io>, i: nat, ghost trace: seq<Point>)
    returns (ok: bool, ghost seen: Seen, ghost longer: seq<Point>)
    requires feedback.Valid() && rejections.Valid()
    requires Due(trace, io, i, Snapshot(feedback, rejections), k, sub, AddToVeto(title))
    modifies rejections
    ensures feedback.Valid() && rejections.Valid()
    ensures Extends(longer, trace, io, Snapshot(feedback, rejections), ok, seen)
  {
    seen := See(Snapshot(feedback, rejections), k, sub);
    ok := rejections.Update(r => AddVeto(r, k, title), Nth(io, i));
    longer := Extend(trace, io, ok, Snapshot(feedback, rejections));
  }

  method Remove(feedback: JsonStore<FeedbackFile>, rejections: JsonStore<Rejections>, k: Key, sub: string,
             io: seq<Io>, i: nat, ghost trace: seq<Point>)
    returns (ok: bool, ghost seen: Seen, ghost longer: seq<Point>)
    requires feedback.Valid() && rejections.Valid()
    requires Due(trace, io, i, Snapshot(feedback, rejections), k, sub, RemoveFromVeto)
    modifies rejections
    ensures feedback.Valid() && rejections.Valid()
    ensures Extends(longer, trace, io, Snapshot(feedback, rejections), ok, seen)
  {
    seen := See(Snapshot(feedback, rejections), k, sub);
    ok := rejections.Update(r => RemoveVeto(r, k), Nth(io, i));
    longer := Extend(trace, io, ok, Snapshot(feedback, rejections));
  }

  // --- parts of requests -----------------------------------------------------------------

  /** The personal write of a dislike, and a fresh veto taken back when it fails and nobody else dissents. */
  method StoreDislike(feedback: JsonStore<FeedbackFile>, rejections: JsonStore<Rejections>, k: Key, sub: string,
                      title: string, wasRejected: bool, io: seq<Io>, ghost trace: seq<Point>)
    returns (ok: bool, ghost longer: seq<Point>)
    requires feedback.Valid() && rejections.Valid()
    requires IsRun(trace, io) && |trace| == 4
    requires Last(trace) == Point(Snapshot(feedback, rejections), Task(k, sub, title, DislikeSet(wasRejected)))
    modifies feedback, rejections
    ensures feedback.Valid() && rejections.Valid()
    ensures IsRun(longer, io) && longer[0] == trace[0]
    ensures Last(longer) == Point(Snapshot(feedback, rejections), Task(k, sub, title, Done(ok)))
  {
    ghost var seen: Seen;
    ok, seen, longer := Set(feedback, rejections, k, sub, title, Some(Dislike), io, 3, trace);
    if !ok && !wasRejected {
      var file;
      file, seen, longer := GetUser(feedback, rejections, k, sub, io, 4, longer);
      if file.Some? && !AnotherDislikes(file.value, sub, k) {
        var undone;
        undone, seen, longer := Remove(feedback, rejections, k, sub, io, 5, longer);
      }
    }
  }

  /** The veto of a cleared dislike goes, and the dislike comes back when that fails. */
  method DropClearedVeto(feedback: JsonStore<FeedbackFile>, rejections: JsonStore<Rejections>, k: Key, sub: string,
                         red: string, io: seq<Io>, ghost trace: seq<Point>)
    returns (ok: bool, ghost longer: seq<Point>)
    requires feedback.Valid() && rejections.Valid()
    requires IsRun(trace, io) && |trace| == 3
    requires Last(trace) == Point(Snapshot(feedback, rejections), Task(k, sub, "", ClearOthers(red)))
    modifies feedback, rejections
    ensures feedback.Valid() && rejections.Valid()
    ensures IsRun(longer, io) && longer[0] == trace[0]
    ensures Last(longer) == Point(Snapshot(feedback, rejections), Task(k, sub, "", Done(ok)))
  {
    ghost var seen: Seen;
    var dropped, calls;
    ok, dropped, calls, longer := DropVeto(feedback, rejections, k, sub, io, 2, trace);
    if !ok {
      var restored;
      restored, seen, longer := Set(feedback, rejections, k, sub, red, Some(Dislike), io, calls, longer);
    }
  }

  /**
  Drop the veto unless another member dissents, or a store fails: what a like of
  a red title and a clear of one have in common. `asks` is the number of calls made so far.
  */
  method DropVeto(feedback: JsonStore<FeedbackFile>, rejections: JsonStore<Rejections>, k: Key, sub: string,
                  io: seq<Io>, asks: nat, ghost trace: seq<Point>)
    returns (ok: bool, dropped: bool, calls: nat, ghost longer: seq<Point>)
    requires feedback.Valid() && rejections.Valid()
    requires Due(trace, io, asks, Snapshot(feedback, rejections), k, sub, GetFeedback)
    requires Last(trace).task.pc.LikeOthers? || Last(trace).task.pc.ClearOthers?
    modifies feedback, rejections
    ensures feedback.Valid() && rejections.Valid()
    ensures IsRun(longer, io) && longer[0] == trace[0] && |longer| == calls + 1 && (dropped ==> ok)
    ensures var was := Last(trace).task;
            Last(longer) == Point(Snapshot(feedback, rejections), was.(pc :=
              match was.pc
              case LikeOthers(red) => if !ok then Done(false) else LikeSet(Some(red), dropped)
              case ClearOthers(title) => if !ok then ClearRestore(title) else Done(true)
              case _ => was.pc))
  {
    ghost var seen: Seen;
    var file;
    file, seen, longer := GetUser(feedback, rejections, k, sub, io, asks, trace);
    ok, dropped, calls := file.Some?, false, asks + 1;
    if file.Some? && !AnotherDislikes(file.value, sub, k) {
      dropped, seen, longer := Remove(feedback, rejections, k, sub, io, calls, longer);
      ok, calls := dropped, calls + 1;
    }
  }

  /** The personal write of a like, and the veto put back when it fails. */
  method StoreLike(feedback: JsonStore<FeedbackFile>, rejections: JsonStore<Rejections>, k: Key, sub: string,
                   title: string, prior: Option<IdTitle>, vetoCleared: bool,
                   io: seq<Io>, calls: nat, ghost trace: seq<Point>)
    returns (ok: bool, ghost longer: seq<Point>)
    requires feedback.Valid() && rejections.Valid() && (vetoCleared ==> prior.Some?)
    requires IsRun(trace, io) && |trace| == calls + 1
    requires Last(trace) == Point(Snapshot(feedback, rejections), Task(k, sub, title, LikeSet(prior, vetoCleared)))
    modifies feedback, rejections
    ensures feedback.Valid() && rejections.Valid()
    ensures IsRun(longer, io) && longer[0] == trace[0]
    ensures Last(longer) == Point(Snapshot(feedback, rejections), Task(k, sub, title, Done(ok)))
  {
    ghost var seen: Seen;
    ok, seen, longer := Set(feedback, rejections, k, sub, title, Some(Like), io, calls, trace);
    if !ok && vetoCleared {
      var restored;
      restored, seen, longer := Add(feedback, rejections, k, sub, prior.value.title, io, calls + 1, longer);
    }
  }

  // --- the requests --------------------------------------------------------------------

  /** POST /api/feedback with a dislike: the household veto first, then the personal write. */
  method Dislikes(feedback: JsonStore<FeedbackFile>, rejections: JsonStore<Rejections>,
                  k: Key, sub: string, title: string, io: seq<Io>)
    returns (ok: bool, ghost trace: seq<Point>)
    requires feedback.Valid() && rejections.Valid()
    modifies feedback, rejections
    ensures feedback.Valid() && rejections.Valid()
    ensures Serves(trace, io, old(Snapshot(feedback, rejections)), Request(k, sub, title, Some(Dislike)),
                   Snapshot(feedback, rejections), ok)
  {
    ghost var seen: Seen;
    trace := [Point(Snapshot(feedback, rejections), Request(k, sub, title, Some(Dislike)))];
    var mine;
    mine, seen, trace := GetUser(feedback, rejections, k, sub, io, 0, trace);
    if mine.None? {
      return false, trace;
    }
    var rows;
    rows, seen, trace := GetIds(feedback, rejections, k, sub, io, 1, trace);
    if rows.None? {
      return false, trace;
    }
    var wasRejected := Vetoed(rows.value, k);
    var vetoed;
    vetoed, seen, trace := Add(feedback, rejections, k, sub, title, io, 2, trace);
    if !vetoed {
      return false, trace;
    }
    ok, trace := StoreDislike(feedback, rejections, k, sub, title, wasRejected, io, trace);
  }

  /** POST /api/feedback with a like: a red title's veto goes unless another member still dissents. */
  method Likes(feedback: JsonStore<FeedbackFile>, rejections: JsonStore<Rejections>,
               k: Key, sub: string, title: string, io: seq<Io>)
    returns (ok: bool, ghost trace: seq<Point>)
    requires feedback.Valid() && rejections.Valid()
    modifies feedback, rejections
    ensures feedback.Valid() && rejections.Valid()
    ensures Serves(trace, io, old(Snapshot(feedback, rejections)), Request(k, sub, title, Some(Like)),
                   Snapshot(feedback, rejections), ok)
  {
    ghost var seen: Seen;
    trace := [Point(Snapshot(feedback, rejections), Request(k, sub, title, Some(Like)))];
    var mine;
    mine, seen, trace := GetUser(feedback, rejections, k, sub, io, 0, trace);
    if mine.None? {
      return false, trace;
    }
    var prior := Find(UserOf(mine.value, sub).Of(k.kind).disliked, k.id);
    var vetoCleared, calls := false, 1;
    if prior.Some? {
      ok, vetoCleared, calls, trace := DropVeto(feedback, rejections, k, sub, io, calls, trace);
      if !ok {
        return false, trace;
      }
    }
    ok, trace := StoreLike(feedback, rejections, k, sub, title, prior, vetoCleared, io, calls, trace);
  }

  /** DELETE /api/feedback: the stored signal decides whether the veto is touched. */
  method Clears(feedback: JsonStore<FeedbackFile>, rejections: JsonStore<Rejections>,
                k: Key, sub: string, io: seq<Io>)
    returns (ok: bool, ghost trace: seq<Point>)
    requires feedback.Valid() && rejections.Valid()
    modifies feedback, rejections
    ensures feedback.Valid() && rejections.Valid()
    ensures Serves(trace, io, old(Snapshot(feedback, rejections)), Request(k, sub, "", None),
                   Snapshot(feedback, rejections), ok)
  {
    ghost var seen: Seen;
    trace := [Point(Snapshot(feedback, rejections), Request(k, sub, "", None))];
    var mine;
    mine, seen, trace := GetUser(feedback, rejections, k, sub, io, 0, trace);
    if mine.None? {
      return false, trace;
    }
    var red := Find(UserOf(mine.value, sub).Of(k.kind).disliked, k.id);
    ok, seen, trace := Set(feedback, rejections, k, sub, "", None, io, 1, trace);
    if ok && red.Some? {
      ok, trace := DropClearedVeto(feedback, rejections, k, sub, red.value.title, io, trace);
    }
  }

  // --- a request that runs alone -----------------------------------------------------------

  /** What a member who is answered with success asked for. */
  function Wanted(v: View, sub: string, signal: Option<Signal>): View {
    if signal == Some(Dislike) then View(v.red + {sub}, true)
    else View(v.red - {sub}, v.vetoed && !(v.red == {sub}))
  }

  function SignalOf(pc: Pc): Option<Signal> {
    match pc
    case DislikeUser => Some(Dislike)
    case LikeUser => Some(Like)
    case _ => None
  }

  /** A compensating write that failed, leaving the request half done. */
  predicate CompensationFails(trace: seq<Point>, io: seq<Io>) {
    exists i: nat | i + 1 < |trace| :: CompensationFailsAt(trace, io, i)
  }

  predicate CompensationFailsAt(trace: seq<Point>, io: seq<Io>, i: nat)
    requires i + 1 < |trace|
  {
    var p := trace[i];
    && (p.task.pc.DislikeUndo? || p.task.pc.LikeRestore? || p.task.pc.ClearRestore?)
    && !Perform(p.both, p.task.key, p.task.sub, CallOf(p.task), Nth(io, i)).1
  }

  /** How the title stands against where the request found it, at each store call. */
  predicate Progress(v0: View, v: View, sub: string, signal: Option<Signal>, pc: Pc) {
    match pc
    case DislikeUser | DislikeIds | DislikeVeto(_) =>
      v == v0 && signal == Some(Dislike) && (pc.DislikeVeto? ==> pc.wasRejected == v0.vetoed)
    case DislikeSet(was) => v == v0.(vetoed := true) && was == v0.vetoed && signal == Some(Dislike)
    case DislikeOthers | DislikeUndo => v == v0.(vetoed := true) && !v0.vetoed && signal == Some(Dislike)
    case LikeUser => v == v0 && signal == Some(Like)
    case LikeOthers(_) => v == v0 && sub in v0.red && signal == Some(Like)
    case LikeUnveto(_) => v == v0 && v0.red == {sub} && signal == Some(Like)
    case LikeSet(_, cleared) =>
      signal == Some(Like) &&
      (if cleared then v0.red == {sub} && v == v0.(vetoed := false) else v == v0 && v0.red != {sub})
    case LikeRestore(_) => signal == Some(Like) && v0.red == {sub} && v == v0.(vetoed := false)
    case ClearUser => v == v0 && signal == None
    case ClearSet(actual, _) => v == v0 && signal == None && (actual == Some(Dislike) <==> sub in v0.red)
    case ClearOthers(_) | ClearRestore(_) => v == v0.(red := v0.red - {sub}) && sub in v0.red && signal == None
    case ClearUnveto(_) => v == v0.(red := {}) && v0.red == {sub} && signal == None
    case Done(ok) => v == if ok then Wanted(v0, sub, signal) else v0
  }

  /** Only a failed compensation breaks the promise. */
  lemma {:induction false} ContinueProgresses(v0: View, v: View, t: Task, signal: Option<Signal>, ok: bool, seen: Seen)
    requires Progress(v0, v, t.sub, signal, t.pc) && Shows(seen, v, t.sub) && !t.pc.Done?
    requires v0.red != {} ==> v0.vetoed
    requires t.pc.DislikeOthers? ==> ok
    ensures ok || !(t.pc.DislikeUndo? || t.pc.LikeRestore? || t.pc.ClearRestore?) ==>
              Progress(v0, if ok then Moved(v, t.sub, CallOf(t)) else v, t.sub, signal, Continue(t, ok, seen))
  {
    assert v.red == {t.sub} <==> t.sub in v.red && v.red - {t.sub} == {};
    assert t.sub in v0.red ==> (v0.red - {t.sub}) + {t.sub} == v0.red;
  }

  lemma {:induction false} TraceProgresses(trace: seq<Point>, io: seq<Io>, n: nat)
    requires IsRun(trace, io) && n < |trace|
    requires forall i: nat | i < n :: !CompensationFailsAt(trace, io, i)
    requires Starting(trace[0].task.pc) && Covered(trace[0].both, trace[0].task.key)
    ensures var t0, t := trace[0].task, trace[n].task;
            && t == t0.(pc := t.pc)
            && Progress(ViewOf(trace[0].both, t0.key), ViewOf(trace[n].both, t0.key), t0.sub, SignalOf(t0.pc), t.pc)
            && (n > 0 && t.pc != Done(false) ==> trace[n].both.feedbackLoaded)
  {
    if n > 0 {
      TraceProgresses(trace, io, n - 1);
      assert AdvancesAt(trace, io, n - 1) && !CompensationFailsAt(trace, io, n - 1);
      var p := trace[n - 1];
      var t := p.task;
      var ok := Perform(p.both, t.key, t.sub, CallOf(t), Nth(io, n - 1)).1;
      var seen := See(p.both, t.key, t.sub);
      PerformMovesOneView(p.both, t.key, t.sub, CallOf(t), Nth(io, n - 1), t.key);
      SeeShowsTheView(p.both, t.key, t.sub);
      ContinueProgresses(ViewOf(trace[0].both, t.key), ViewOf(p.both, t.key), t, SignalOf(trace[0].task.pc), ok, seen);
    }
  }

  /**
  All or nothing: a request that runs alone on a covered title leaves exactly
  what was asked for when it answers ok and exactly what it found when it
  answers an error, unless a compensating write failed as well.
  */
  lemma {:induction false} ARequestIsAllOrNothing(trace: seq<Point>, io: seq<Io>, start: Both,
                                                  request: Task, end: Both, ok: bool)
    requires Serves(trace, io, start, request, end, ok) && Starting(request.pc)
    requires Covered(start, request.key) && !CompensationFails(trace, io)
    ensures ViewOf(end, request.key) ==
            if ok then Wanted(ViewOf(start, request.key), request.sub, SignalOf(request.pc))
            else ViewOf(start, request.key)
  {
    TraceProgresses(trace, io, |trace| - 1);
  }

  /** A failed compensation is a request's last call. */
  lemma {:induction false} CompensationIsLast(trace: seq<Point>, io: seq<Io>, i: nat)
    requires IsRun(trace, io) && i + 1 < |trace| && CompensationFailsAt(trace, io, i)
    ensures i + 2 == |trace|
  {
    assert AdvancesAt(trace, io, i);
    assert i + 2 < |trace| ==> AdvancesAt(trace, io, i + 1);
  }

  lemma {:induction false} LostCompensation(trace: seq<Point>, io: seq<Io>, i: nat)
    requires IsRun(trace, io) && i + 2 == |trace| && CompensationFailsAt(trace, io, i)
    requires forall j: nat | j < i :: !CompensationFailsAt(trace, io, j)
    requires Starting(trace[0].task.pc) && Covered(trace[0].both, trace[0].task.key)
    ensures Covered(trace[i + 1].both, trace[0].task.key) <==> !trace[i].task.pc.LikeRestore?
  {
    TraceProgresses(trace, io, i);
    assert AdvancesAt(trace, io, i);
    var p, k := trace[i], trace[0].task.key;
    PerformMovesOneView(p.both, k, p.task.sub, CallOf(p.task), Nth(io, i), k);
    assert ViewOf(trace[i + 1].both, k) == ViewOf(p.both, k);
  }

  /**
  The one hole: alone on a covered title, a request leaves it covered exactly
  when it did not lose the compensating write of a red-to-green flip.
  */
  lemma {:induction false} OnlyARedToGreenFlipUncovers(trace: seq<Point>, io: seq<Io>, start: Both,
                                                       request: Task, end: Both, ok: bool)
    requires Serves(trace, io, start, request, end, ok) && Starting(request.pc) && Covered(start, request.key)
    ensures Covered(end, request.key) <==>
            !exists i: nat | i + 1 < |trace| :: CompensationFailsAt(trace, io, i) && trace[i].task.pc.LikeRestore?
  {
    if CompensationFails(trace, io) {
      var i: nat :| i + 1 < |trace| && CompensationFailsAt(trace, io, i);
      CompensationIsLast(trace, io, i);
      forall j: nat | j + 1 < |trace| && CompensationFailsAt(trace, io, j) ensures j == i {
        CompensationIsLast(trace, io, j);
      }
      LostCompensation(trace, io, i);
    } else {
      ARequestIsAllOrNothing(trace, io, start, request, end, ok);
    }
  }

  /**
  The hole in closed form: a like by the only dissenter whose read answers and
  whose veto is dropped, and then two write faults in a row.
  */
  predicate LosesTheVeto(start: Both, request: Task, io: seq<Io>) {
    && request.pc.LikeUser?
    && ViewOf(start, request.key).red == {request.sub}
    && (start.feedbackLoaded || !Nth(io, 0).ReadFault?)
    && !WriteFails(start.rejectionsLoaded, Nth(io, 2))
    && Nth(io, 3).WriteFault?
    && Nth(io, 4).WriteFault?
  }

  /** How far a red-to-green flip has come. */
  function FlipStage(pc: Pc): Option<nat> {
    match pc
    case LikeUser => Some(0)
    case LikeOthers(_) => Some(1)
    case LikeUnveto(_) => Some(2)
    case LikeSet(_, cleared) => if cleared then Some(3) else None
    case LikeRestore(_) => Some(4)
    case _ => None
  }

  lemma {:induction false} StageBefore(t: Task, ok: bool, seen: Seen)
    requires !t.pc.Done? && FlipStage(Continue(t, ok, seen)).Some?
    ensures var n := FlipStage(Continue(t, ok, seen)).value;
            n > 0 && FlipStage(t.pc) == Some(n - 1) && ok == (n < 4)
  {
  }

  /** A stage is only reached from the one before it. */
  lemma {:induction false} StageIsPosition(trace: seq<Point>, io: seq<Io>, n: nat)
    requires IsRun(trace, io) && n < |trace| && Starting(trace[0].task.pc) && FlipStage(trace[n].task.pc).Some?
    ensures FlipStage(trace[n].task.pc) == Some(n)
    ensures n > 0 ==> FlipStage(trace[n - 1].task.pc) == Some(n - 1)
    ensures n > 0 ==> CallSucceeds(trace, io, n - 1) == (n < 4)
  {
    if n > 0 {
      assert AdvancesAt(trace, io, n - 1);
      var p := trace[n - 1];
      StageBefore(p.task, CallSucceeds(trace, io, n - 1), See(p.both, p.task.key, p.task.sub));
      StageIsPosition(trace, io, n - 1);
    }
  }

  predicate CallSucceeds(trace: seq<Point>, io: seq<Io>, i: nat)
    requires i < |trace|
  {
    var p := trace[i];
    Perform(p.both, p.task.key, p.task.sub, CallOf(p.task), Nth(io, i)).1
  }

  /** What a flip has met by the time it has dropped the veto. */
  ghost predicate Flipping(start: Both, request: Task, io: seq<Io>, p: Point, stage: nat) {
    && p.task == request.(pc := p.task.pc) && FlipStage(p.task.pc) == Some(stage)
    && p.both.feedback == start.feedback
    && (if stage == 0 then p.both.feedbackLoaded == start.feedbackLoaded
        else p.both.feedbackLoaded && (start.feedbackLoaded || !Nth(io, 0).ReadFault?))
    && (if stage <= 2 then p.both.rejectionsLoaded == start.rejectionsLoaded && p.both.rejections == start.rejections
        else p.both.rejectionsLoaded && !WriteFails(start.rejectionsLoaded, Nth(io, 2))
             && !Vetoed(p.both.rejections, request.key))
    && (stage > 3 ==> Nth(io, 3).WriteFault?)
  }

  lemma {:induction false} FlipsTo(trace: seq<Point>, io: seq<Io>, n: nat)
    requires IsRun(trace, io) && n < |trace| && trace[0].task.pc.LikeUser?
    requires FlipStage(trace[n].task.pc).Some? && Vetoed(trace[0].both.rejections, trace[0].task.key)
    ensures n <= 4
    ensures Flipping(trace[0].both, trace[0].task, io, trace[n], n)
  {
    StageIsPosition(trace, io, n);
    if n > 0 {
      FlipsTo(trace, io, n - 1);
      assert AdvancesAt(trace, io, n - 1);
      FlipStep(trace[0].both, trace[0].task, io, trace[n - 1], trace[n], n);
    }
  }

  lemma {:induction false} FlipStep(start: Both, request: Task, io: seq<Io>, p: Point, q: Point, n: nat)
    requires 0 < n <= 4 && Flipping(start, request, io, p, n - 1) && Vetoed(start.rejections, request.key)
    requires var (both, pc) := Step(p.both, p.task, Nth(io, n - 1)); q == Point(both, p.task.(pc := pc))
    requires FlipStage(q.task.pc) == Some(n)
    ensures Flipping(start, request, io, q, n)
  {
    var k, call := request.key, CallOf(p.task);
    var (both, ok) := Perform(p.both, k, p.task.sub, call, Nth(io, n - 1));
    StageBefore(p.task, ok, See(p.both, k, p.task.sub));
    if n == 1 || n == 2 {
      assert call == GetFeedback;
    } else if n == 3 {
      UnvetoMet(p.both, k, p.task.sub, Nth(io, 2));
    } else {
      LikeUnstored(p.both, k, p.task, Nth(io, 3));
    }
  }

  lemma {:induction false} UnvetoMet(both: Both, k: Key, sub: string, io: Io)
    requires Vetoed(both.rejections, k)
    ensures var (after, ok) := Perform(both, k, sub, RemoveFromVeto, io);
            && (ok <==> !WriteFails(both.rejectionsLoaded, io))
            && (ok ==> after.rejectionsLoaded && !Vetoed(after.rejections, k))
            && after.feedback == both.feedback && after.feedbackLoaded == both.feedbackLoaded
  {
    RemoveVetoClearsOnlyTheTitle(both.rejections, k, k);
  }

  lemma {:induction false} LikeUnstored(both: Both, k: Key, t: Task, io: Io)
    requires both.feedbackLoaded && t.pc.LikeSet? && t.key == k
    ensures var (after, ok) := Perform(both, k, t.sub, CallOf(t), io);
            && (!ok <==> io.WriteFault?)
            && (!ok ==> after == both)
  {
  }

  /** From a sole dissenter's like, a run that meets the condition goes through all five stages. */
  lemma {:induction false} FlipGoesOn(trace: seq<Point>, io: seq<Io>, start: Both, request: Task,
                                      end: Both, ok: bool, n: nat)
    requires Serves(trace, io, start, request, end, ok) && LosesTheVeto(start, request, io)
    requires Vetoed(start.rejections, request.key) && n <= 4
    ensures n + 1 < |trace| && FlipStage(trace[n].task.pc) == Some(n)
  {
    if n > 0 {
      FlipGoesOn(trace, io, start, request, end, ok, n - 1);
      assert AdvancesAt(trace, io, n - 1);
      FlipsTo(trace, io, n - 1);
      FlipContinues(start, request, io, trace[n - 1], n);
    }
    NotTheLast(trace, n);
  }

  lemma {:induction false} NotTheLast(trace: seq<Point>, n: nat)
    requires n < |trace| && Last(trace).task.pc.Done? && FlipStage(trace[n].task.pc).Some?
    ensures n + 1 < |trace|
  {
  }

  lemma {:induction false} StageAfter(t: Task, ok: bool, seen: Seen, n: nat)
    requires 0 < n <= 4 && FlipStage(t.pc) == Some(n - 1) && ok == (n < 4) && seen.red.Some? && !seen.others
    ensures FlipStage(Continue(t, ok, seen)) == Some(n)
  {
  }

  lemma {:induction false} CallOfStage(start: Both, request: Task, io: seq<Io>, p: Point, n: nat)
    requires 0 < n <= 4 && Flipping(start, request, io, p, n - 1) && LosesTheVeto(start, request, io)
    requires Vetoed(start.rejections, request.key)
    ensures Perform(p.both, request.key, request.sub, CallOf(p.task), Nth(io, n - 1)).1 == (n < 4)
  {
    if n == 3 {
      UnvetoMet(p.both, request.key, request.sub, Nth(io, 2));
    } else if n == 4 {
      LikeUnstored(p.both, request.key, p.task, Nth(io, 3));
    } else {
      assert CallOf(p.task) == GetFeedback;
    }
  }

  lemma {:induction false} FlipContinues(start: Both, request: Task, io: seq<Io>, p: Point, n: nat)
    requires 0 < n <= 4 && Flipping(start, request, io, p, n - 1) && LosesTheVeto(start, request, io)
    requires Vetoed(start.rejections, request.key)
    ensures FlipStage(Step(p.both, p.task, Nth(io, n - 1)).1) == Some(n)
  {
    SoleDissenter(start, p.both, request.key, request.sub);
    CallOfStage(start, request, io, p, n);
    StageAfter(p.task, n < 4, See(p.both, request.key, request.sub), n);
  }

  lemma {:induction false} SoleDissenter(start: Both, both: Both, k: Key, sub: string)
    requires ViewOf(start, k).red == {sub} && both.feedback == start.feedback
    ensures See(both, k, sub).red.Some? && !See(both, k, sub).others
  {
    SeeShowsTheView(both, k, sub);
  }

  /**
  The one hole, from the start: alone on a covered title, a request leaves it
  uncovered exactly when it is a like by the only dissenter that drops the veto
  and then meets two write faults in a row.
  */
  lemma {:induction false} UncoveredIff(trace: seq<Point>, io: seq<Io>, start: Both, request: Task, end: Both, ok: bool)
    requires Serves(trace, io, start, request, end, ok) && Starting(request.pc) && Covered(start, request.key)
    ensures !Covered(end, request.key) <==> LosesTheVeto(start, request, io)
  {
    OnlyARedToGreenFlipUncovers(trace, io, start, request, end, ok);
    if LosesTheVeto(start, request, io) {
      FlipGoesOn(trace, io, start, request, end, ok, 4);
      FlipsTo(trace, io, 4);
      RestoreFails(start, request, io, trace[4]);
      assert CompensationFailsAt(trace, io, 4);
    }
    if !Covered(end, request.key) {
      var i: nat :| i + 1 < |trace| && CompensationFailsAt(trace, io, i) && trace[i].task.pc.LikeRestore?;
      LostFlipIsMet(trace, io, start, request, end, ok, i);
    }
  }

  lemma {:induction false} RestoreFails(start: Both, request: Task, io: seq<Io>, p: Point)
    requires Flipping(start, request, io, p, 4)
    ensures Perform(p.both, request.key, p.task.sub, CallOf(p.task), Nth(io, 4)).1 <==> !Nth(io, 4).WriteFault?
  {
    assert AddVeto(p.both.rejections, request.key, p.task.pc.restore).Some?;
  }

  lemma {:induction false} LostFlipIsMet(trace: seq<Point>, io: seq<Io>, start: Both, request: Task,
                                         end: Both, ok: bool, i: nat)
    requires Serves(trace, io, start, request, end, ok) && Starting(request.pc) && Covered(start, request.key)
    requires i + 1 < |trace| && CompensationFailsAt(trace, io, i) && trace[i].task.pc.LikeRestore?
    ensures LosesTheVeto(start, request, io)
  {
    StageIsPosition(trace, io, i);
    CompensationIsLast(trace, io, i);
    forall j: nat | j < i ensures !CompensationFailsAt(trace, io, j) {
      if CompensationFailsAt(trace, io, j) {
        CompensationIsLast(trace, io, j);
      }
    }
    TraceProgresses(trace, io, i);
    StartsAsLike(trace, io, i);
    FlipsTo(trace, io, i);
    RestoreFails(start, request, io, trace[i]);
  }

  lemma {:induction false} StartsAsLike(trace: seq<Point>, io: seq<Io>, n: nat)
    requires IsRun(trace, io) && n < |trace| && Starting(trace[0].task.pc) && FlipStage(trace[n].task.pc).Some?
    ensures trace[0].task.pc.LikeUser?
  {
    StageIsPosition(trace, io, n);
    if n > 0 {
      StartsAsLike(trace, io, n - 1);
    }
  }

  /** The only dissenter turns green as far as the dropped veto. */
  lemma {:induction false} FlipDropsTheVeto(start: Both, k: Key, sub: string, title: string, io: seq<Io>)
    returns (trace: seq<Point>, red: IdTitle)
    requires start.feedbackLoaded && start.rejectionsLoaded && ViewOf(start, k) == View({sub}, true)
    requires Nth(io, 0) == Nth(io, 1) == Nth(io, 2) == Fine
    ensures IsRun(trace, io) && |trace| == 4 && trace[0] == Point(start, Request(k, sub, title, Some(Like)))
    ensures trace[3].task == Task(k, sub, title, LikeSet(Some(red), true))
    ensures trace[3].both.feedbackLoaded && trace[3].both.rejectionsLoaded && !Vetoed(trace[3].both.rejections, k)
    ensures trace[3].both.feedback == start.feedback
  {
    var t := Request(k, sub, title, Some(Like));
    SeeShowsTheView(start, k, sub);
    red := See(start, k, sub).red.value;
    var (unvetoed, _) := Perform(start, k, sub, RemoveFromVeto, Fine);
    PerformMovesOneView(start, k, sub, RemoveFromVeto, Fine, k);
    trace := [Point(start, t)];
    trace := Extend(trace, io, true, start);
    trace := Extend(trace, io, true, start);
    assert Last(trace) == Point(start, t.(pc := LikeUnveto(red)));
    trace := Extend(trace, io, true, unvetoed);
  }

  /** And it is real: the only dissenter's like and the restored veto both fail to reach the disk. */
  lemma {:induction false} LosingBothWritesUncovers(start: Both, k: Key, sub: string, title: string)
    returns (trace: seq<Point>, end: Both)
    requires start.feedbackLoaded && start.rejectionsLoaded && ViewOf(start, k) == View({sub}, true)
    ensures var io := [Fine, Fine, Fine, WriteFault, WriteFault];
            Serves(trace, io, start, Request(k, sub, title, Some(Like)), end, false)
    ensures Covered(start, k) && !Covered(end, k)
  {
    var io := [Fine, Fine, Fine, WriteFault, WriteFault];
    var red;
    trace, red := FlipDropsTheVeto(start, k, sub, title, io);
    end := trace[3].both;
    trace := BothWritesFail(trace, io, k, sub, title, red);
  }

  /** The like is not stored, and the veto not put back. */
  lemma {:induction false} BothWritesFail(trace: seq<Point>, io: seq<Io>, k: Key, sub: string, title: string,
                                          red: IdTitle)
    returns (longer: seq<Point>)
    requires IsRun(trace, io) && |trace| == 4 && trace[3].task == Task(k, sub, title, LikeSet(Some(red), true))
    requires trace[3].both.feedbackLoaded && trace[3].both.rejectionsLoaded && !Vetoed(trace[3].both.rejections, k)
    requires Nth(io, 3) == Nth(io, 4) == WriteFault
    ensures IsRun(longer, io) && longer[0] == trace[0]
    ensures Last(longer) == Point(trace[3].both, Task(k, sub, title, Done(false)))
  {
    var end := trace[3].both;
    longer := Extend(trace, io, false, end);
    assert Last(longer).task == Task(k, sub, title, LikeRestore(red.title));
    assert AddVeto(end.rejections, k, red.title).Some?;
    longer := Extend(longer, io, false, end);
  }
}
