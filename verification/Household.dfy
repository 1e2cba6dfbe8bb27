/**
The household veto: a like or dislike is one member's, a veto is everyone's,
and they live in two stores that are written one after the other with
hand-written rollback. A request runs store call by store call under the lock
of its title; requests for other titles, account deletions, title backfills
and a restart of the process may come between any two calls, and any call may
fail.
*/
module Household {
  import opened Util
  import opened Stores

  /** What the disk does to one store call. A load only reads while the store is not cached. */
  datatype Io = Fine | ReadFault | WriteFault

  /** Both stores as the requests see them, and whether each is cached. */
  datatype Both = Both(feedback: FeedbackFile, rejections: Rejections, feedbackLoaded: bool, rejectionsLoaded: bool)

  function LoadFeedback(s: Both, io: Io): (Both, bool) {
    if !s.feedbackLoaded && io.ReadFault? then (s, false) else (s.(feedbackLoaded := true), true)
  }

  function LoadRejections(s: Both, io: Io): (Both, bool) {
    if !s.rejectionsLoaded && io.ReadFault? then (s, false) else (s.(rejectionsLoaded := true), true)
  }

  /** A write changes the store and succeeds, or changes nothing and fails; None is a no-op. */
  function WriteFeedback(s: Both, next: Option<FeedbackFile>, io: Io): (Both, bool) {
    var (loaded, ok) := LoadFeedback(s, io);
    if !ok then (loaded, false)
    else if next.None? then (loaded, true)
    else if io.WriteFault? then (loaded, false)
    else (loaded.(feedback := next.value), true)
  }

  function WriteRejections(s: Both, next: Option<Rejections>, io: Io): (Both, bool) {
    var (loaded, ok) := LoadRejections(s, io);
    if !ok then (loaded, false)
    else if next.None? then (loaded, true)
    else if io.WriteFault? then (loaded, false)
    else (loaded.(rejections := next.value), true)
  }

  // --- one request, store call by store call -----------------------------------

  /** The store call a request makes next, with the locals it still needs. */
  datatype Pc =
    | DislikeUser
    | DislikeIds
    | DislikeVeto(wasRejected: bool)
    | DislikeSet(wasRejected: bool)
    | DislikeOthers
    | DislikeUndo
    | LikeUser
    | LikeOthers(red: IdTitle)
    | LikeUnveto(red: IdTitle)
    | LikeSet(prior: Option<IdTitle>, vetoCleared: bool)
    | LikeRestore(restore: string)
    | ClearUser
    | ClearSet(actual: Option<Signal>, priorTitle: string)
    | ClearOthers(priorTitle: string)
    | ClearUnveto(priorTitle: string)
    | ClearRestore(priorTitle: string)
    | Done(ok: bool)

  datatype Task = Task(key: Key, sub: string, title: string, pc: Pc)

  predicate Starting(pc: Pc) {
    pc.DislikeUser? || pc.LikeUser? || pc.ClearUser?
  }

  /** The five things a request asks of the stores. */
  datatype StoreCall =
    | GetFeedback
    | GetRejections
    | SetMine(title: string, next: Option<Signal>)
    | AddToVeto(title: string)
    | RemoveFromVeto

  function CallOf(t: Task): StoreCall {
    match t.pc
    case DislikeUser | LikeUser | ClearUser => GetFeedback
    case DislikeOthers | LikeOthers(_) | ClearOthers(_) => GetFeedback
    case DislikeIds => GetRejections
    case DislikeVeto(_) => AddToVeto(t.title)
    case DislikeSet(_) => SetMine(t.title, Some(Dislike))
    case DislikeUndo | LikeUnveto(_) | ClearUnveto(_) => RemoveFromVeto
    case LikeSet(_, _) => SetMine(t.title, Some(Like))
    case LikeRestore(restore) => AddToVeto(restore)
    case ClearSet(_, _) => SetMine("", None)
    case ClearRestore(title) => SetMine(title, Some(Dislike))
    case Done(_) => GetFeedback
  }

  function Perform(s: Both, k: Key, sub: string, call: StoreCall, io: Io): (Both, bool) {
    match call
    case GetFeedback => LoadFeedback(s, io)
    case GetRejections => LoadRejections(s, io)
    case SetMine(title, next) => WriteFeedback(s, Some(SetSignal(s.feedback, sub, k, title, next)), io)
    case AddToVeto(title) => WriteRejections(s, AddVeto(s.rejections, k, title), io)
    case RemoveFromVeto => WriteRejections(s, RemoveVeto(s.rejections, k), io)
  }

  /** What a successful read shows of the title: the caller's own rows, the others, the veto. */
  datatype Seen = Seen(red: Option<IdTitle>, green: Option<IdTitle>, others: bool, vetoed: bool)

  function See(s: Both, k: Key, sub: string): Seen {
    var mine := UserOf(s.feedback, sub).Of(k.kind);
    Seen(Find(mine.disliked, k.id), Find(mine.liked, k.id),
         AnotherDislikes(s.feedback, sub, k), Vetoed(s.rejections, k))
  }

  /** Where the request goes once its call has answered. */
  function Continue(t: Task, ok: bool, seen: Seen): Pc {
    match t.pc
    // The veto first: its rollback is a plain remove.
    case DislikeUser => if ok then DislikeIds else Done(false)
    case DislikeIds => if ok then DislikeVeto(seen.vetoed) else Done(false)
    case DislikeVeto(was) => if ok then DislikeSet(was) else Done(false)
    case DislikeSet(was) => if ok then Done(true) else if was then Done(false) else DislikeOthers
    case DislikeOthers => if ok && !seen.others then DislikeUndo else Done(false)
    case DislikeUndo => Done(false)
    // Red to green: drop the veto unless another member still dissents.
    case LikeUser =>
      if !ok then Done(false) else if seen.red.Some? then LikeOthers(seen.red.value) else LikeSet(None, false)
    case LikeOthers(prior) =>
      if !ok then Done(false)
      else if seen.others then LikeSet(Some(prior), false)
      else LikeUnveto(prior)
    case LikeUnveto(prior) => if ok then LikeSet(Some(prior), true) else Done(false)
    case LikeSet(prior, cleared) =>
      if ok then Done(true)
      else if cleared then LikeRestore(if prior.Some? then prior.value.title else t.title)
      else Done(false)
    case LikeRestore(_) => Done(false)
    // The stored signal decides whether the veto is touched.
    case ClearUser =>
      if !ok then Done(false)
      else if seen.red.Some? then ClearSet(Some(Dislike), seen.red.value.title)
      else if seen.green.Some? then ClearSet(Some(Like), seen.green.value.title)
      else ClearSet(None, "")
    case ClearSet(actual, title) =>
      if !ok then Done(false) else if actual == Some(Dislike) then ClearOthers(title) else Done(true)
    case ClearOthers(title) =>
      if !ok then ClearRestore(title)
      else if seen.others then Done(true)
      else ClearUnveto(title)
    case ClearUnveto(title) => if ok then Done(true) else ClearRestore(title)
    case ClearRestore(_) => Done(false)
    case Done(_) => t.pc
  }

  function Step(s: Both, t: Task, io: Io): (Both, Pc) {
    var (s', ok) := Perform(s, t.key, t.sub, CallOf(t), io);
    (s', Continue(t, ok, See(s, t.key, t.sub)))
  }

  // --- every request at once -----------------------------------------------------

  /** The lock of a title admits one request, so the running requests are keyed by title. */
  datatype Sys = Sys(both: Both, running: map<Key, Task>)

  datatype Event =
    | Begin(task: Task)
    | Call(key: Key, io: Io)
    | DeleteAccount(sub: string, io: Io)
    | BackfillLikedTitle(sub: string, key: Key, title: string, io: Io)
    | BackfillVetoTitle(key: Key, title: string, io: Io)
    | Restart(feedbackReparsed: bool, rejectionsReparsed: bool)

  function Reloaded(s: Both, feedbackReparsed: bool, rejectionsReparsed: bool): Both {
    Both(if feedbackReparsed then NormalizeFeedback(s.feedback) else s.feedback,
         if rejectionsReparsed then NormalizeRejections(s.rejections) else s.rejections, false, false)
  }

  function Next(sys: Sys, e: Event): Sys {
    match e
    case Begin(t) =>
      if t.key in sys.running || !Starting(t.pc) then sys else sys.(running := sys.running[t.key := t])
    case Call(k, io) =>
      if k !in sys.running then sys
      else
        var t := sys.running[k];
        var (both, pc) := Step(sys.both, t, io);
        Sys(both, if pc.Done? then sys.running - {k} else sys.running[k := t.(pc := pc)])
    case DeleteAccount(sub, io) =>
      sys.(both := WriteFeedback(sys.both, DropUser(sys.both.feedback, sub), io).0)
    case BackfillLikedTitle(sub, k, title, io) =>
      sys.(both := WriteFeedback(sys.both, BackfillLike(sys.both.feedback, sub, k, title), io).0)
    case BackfillVetoTitle(k, title, io) =>
      sys.(both := WriteRejections(sys.both, BackfillVeto(sys.both.rejections, k, title), io).0)
    case Restart(feedbackReparsed, rejectionsReparsed) =>
      Sys(Reloaded(sys.both, feedbackReparsed, rejectionsReparsed), map[])
  }

  function Run(sys: Sys, events: seq<Event>): Sys {
    if events == [] then sys else Next(Run(sys, events[..|events| - 1]), events[|events| - 1])
  }

  // --- the admitted holes -----------------------------------------------------------

  /** Between dropping the veto and storing the like, the title is red without a veto. */
  predicate RedToGreenWindow(pc: Pc) {
    (pc.LikeSet? && pc.vetoCleared) || pc.LikeRestore?
  }

  predicate WriteFails(loaded: bool, io: Io) {
    io.WriteFault? || (io.ReadFault? && !loaded)
  }

  /** The compensating veto write fails as well, or the process dies inside the window. */
  predicate OpensHole(sys: Sys, e: Event, k: Key) {
    && k in sys.running
    && RedToGreenWindow(sys.running[k].pc)
    && (|| e.Restart?
        || (&& e.Call? && e.key == k && sys.running[k].pc.LikeRestore?
            && WriteFails(sys.both.rejectionsLoaded, e.io)))
  }

  predicate HoleIn(sys: Sys, events: seq<Event>, k: Key) {
    events != [] &&
    var before, last := events[..|events| - 1], events[|events| - 1];
    (HoleIn(sys, before, k) || OpensHole(Run(sys, before), last, k))
  }

  /** A veto may outlive its last dislike: an account deletion, a restart mid-request, a failed rollback. */
  predicate Loosens(sys: Sys, e: Event, k: Key) {
    match e
    case Call(key, io) =>
      key == k && k in sys.running &&
      ((sys.running[k].pc.DislikeUndo? && WriteFails(sys.both.rejectionsLoaded, io)) ||
       (sys.running[k].pc.ClearRestore? && WriteFails(sys.both.feedbackLoaded, io)))
    case DeleteAccount(sub, _) => sub in Dissenters(sys.both.feedback, k)
    case Restart(_, _) => k in sys.running || "" in Dissenters(sys.both.feedback, k)
    case _ => false
  }

  predicate LooseIn(sys: Sys, events: seq<Event>, k: Key) {
    events != [] &&
    var before, last := events[..|events| - 1], events[|events| - 1];
    (LooseIn(sys, before, k) || Loosens(Run(sys, before), last, k))
  }

  // --- the invariant of one title -----------------------------------------------------

  /** Who dislikes the title, and whether it is vetoed: all the protocol depends on. */
  datatype View = View(red: set<string>, vetoed: bool)

  function ViewOf(s: Both, k: Key): View {
    View(Dissenters(s.feedback, k), Vetoed(s.rejections, k))
  }

  predicate Idle(v: View, hole: bool, loose: bool) {
    && (!hole ==> v.red != {} ==> v.vetoed)
    && (!hole && !loose ==> v.vetoed ==> v.red != {})
  }

  /** What holds of the title while its request waits at a store call. */
  predicate At(v: View, sub: string, pc: Pc, hole: bool, loose: bool) {
    match pc
    case DislikeUser | DislikeIds | LikeUser | ClearUser | Done(_) => Idle(v, hole, loose)
    case DislikeVeto(was) => Idle(v, hole, loose) && was == v.vetoed
    case DislikeSet(was) =>
      v.vetoed && (!hole && !was ==> v.red == {}) && (!hole && !loose && was ==> v.red != {})
    case DislikeOthers | DislikeUndo => v.vetoed && (!hole ==> v.red == {})
    case LikeOthers(_) => Idle(v, hole, loose) && (!loose ==> sub in v.red)
    case LikeUnveto(_) => Idle(v, hole, loose) && v.red <= {sub} && (!loose ==> sub in v.red)
    case LikeSet(prior, cleared) =>
      if cleared then !v.vetoed && v.red <= {sub} && (!loose ==> sub in v.red)
      else Idle(v, hole, loose) && (prior.None? ==> sub !in v.red) &&
           (prior.Some? && !loose ==> v.red - {sub} != {})
    case LikeRestore(_) => !v.vetoed && v.red <= {sub} && (!loose ==> sub in v.red)
    case ClearSet(actual, _) =>
      && Idle(v, hole, loose)
      && (actual == Some(Dislike) ==> (!hole ==> v.vetoed))
      && (actual != Some(Dislike) ==> sub !in v.red)
    case ClearOthers(_) | ClearRestore(_) => sub !in v.red && (!hole ==> v.vetoed)
    case ClearUnveto(_) => v.red == {} && (!hole ==> v.vetoed)
  }

  /** One title: its view, the request that holds its lock, and whether the feedback store is cached. */
  datatype Title = Title(view: View, task: Option<Task>, cached: bool)

  function TitleOf(sys: Sys, k: Key): Title {
    Title(ViewOf(sys.both, k), if k in sys.running then Some(sys.running[k]) else None, sys.both.feedbackLoaded)
  }

  predicate Good(x: Title, k: Key, hole: bool, loose: bool) {
    if x.task.Some? then
      var t := x.task.value;
      && t.key == k
      && (!Starting(t.pc) ==> x.cached)
      && At(x.view, t.sub, t.pc, hole, loose)
    else Idle(x.view, hole, loose)
  }

  predicate Inv(sys: Sys, k: Key, hole: bool, loose: bool) {
    Good(TitleOf(sys, k), k, hole, loose)
  }

  /** A successful call's effect on its own title. */
  function Moved(v: View, sub: string, call: StoreCall): View {
    match call
    case SetMine(_, next) => v.(red := if next == Some(Dislike) then v.red + {sub} else v.red - {sub})
    case AddToVeto(_) => v.(vetoed := true)
    case RemoveFromVeto => v.(vetoed := false)
    case _ => v
  }

  /** A store call moves its own title's view or fails without a trace; it never touches another title. */
  lemma {:induction false} PerformMovesOneView(s: Both, k: Key, sub: string, call: StoreCall, io: Io, other: Key)
    ensures var (s', ok) := Perform(s, k, sub, call, io);
            && ViewOf(s', other) == (if ok && other == k then Moved(ViewOf(s, k), sub, call) else ViewOf(s, other))
            && (s.feedbackLoaded ==> s'.feedbackLoaded)
            && (!ok ==> match call
                        case GetFeedback => !s.feedbackLoaded
                        case GetRejections => !s.rejectionsLoaded
                        case SetMine(_, _) => WriteFails(s.feedbackLoaded, io)
                        case _ => WriteFails(s.rejectionsLoaded, io))
            && (ok && call.GetFeedback? ==> s'.feedbackLoaded)
  {
    match call
    case SetMine(title, next) => SetSignalMovesOneDissenter(s.feedback, sub, k, title, next, other);
    case AddToVeto(title) => AddVetoVetoesOnlyTheTitle(s.rejections, k, title, other);
    case RemoveFromVeto => RemoveVetoClearsOnlyTheTitle(s.rejections, k, other);
    case _ =>
  }

  predicate Shows(seen: Seen, v: View, sub: string) {
    && (seen.red.Some? <==> sub in v.red)
    && (seen.others <==> v.red - {sub} != {})
    && (seen.vetoed <==> v.vetoed)
  }

  lemma {:induction false} SeeShowsTheView(s: Both, k: Key, sub: string)
    ensures Shows(See(s, k, sub), ViewOf(s, k), sub)
  {
    AnotherDislikesIsDissent(s.feedback, sub, k);
  }

  /** Each answer leads from one store call's assertion to the next one's. */
  lemma {:induction false} ContinueKeepsAt(v: View, t: Task, ok: bool, seen: Seen, hole: bool, loose: bool)
    requires At(v, t.sub, t.pc, hole, loose) && Shows(seen, v, t.sub)
    requires t.pc.DislikeOthers? ==> ok
    ensures At(if ok then Moved(v, t.sub, CallOf(t)) else v, t.sub, Continue(t, ok, seen),
               hole || (t.pc.LikeRestore? && !ok), loose || (!ok && (t.pc.DislikeUndo? || t.pc.ClearRestore?)))
  {
  }

  /** The title once its own request's call has answered. */
  function Answered(x: Title, ok: bool, seen: Seen): Title
    requires x.task.Some?
  {
    var t := x.task.value;
    var pc := Continue(t, ok, seen);
    Title(if ok then Moved(x.view, t.sub, CallOf(t)) else x.view,
          if pc.Done? then None else Some(t.(pc := pc)),
          x.cached || (ok && CallOf(t).GetFeedback?))
  }

  lemma {:induction false} AnsweredIsGood(x: Title, k: Key, ok: bool, seen: Seen, hole: bool, loose: bool)
    requires x.task.Some? && Good(x, k, hole, loose) && Shows(seen, x.view, x.task.value.sub)
    requires x.task.value.pc.DislikeOthers? ==> ok
    ensures var pc := x.task.value.pc;
            Good(Answered(x, ok, seen), k,
                 hole || (pc.LikeRestore? && !ok), loose || (!ok && (pc.DislikeUndo? || pc.ClearRestore?)))
  {
    ContinueKeepsAt(x.view, x.task.value, ok, seen, hole, loose);
  }

  predicate Keyed(sys: Sys) {
    forall k | k in sys.running :: sys.running[k].key == k
  }

  /** A request's own call, seen from its title. */
  lemma {:induction false} CallAnswersItsTitle(sys: Sys, k: Key, io: Io)
    requires k in sys.running && sys.running[k].key == k
    ensures var t := sys.running[k];
            var ok := Perform(sys.both, k, t.sub, CallOf(t), io).1;
            var after := TitleOf(Next(sys, Call(k, io)), k);
            after == Answered(TitleOf(sys, k), ok, See(sys.both, k, t.sub)).(cached := after.cached)
  {
    var t := sys.running[k];
    PerformMovesOneView(sys.both, k, t.sub, CallOf(t), io, k);
  }

  lemma {:induction false} CallKeepsInv(sys: Sys, k: Key, io: Io, hole: bool, loose: bool)
    requires k in sys.running && Inv(sys, k, hole, loose)
    ensures Inv(Next(sys, Call(k, io)), k,
                hole || OpensHole(sys, Call(k, io), k), loose || Loosens(sys, Call(k, io), k))
  {
    var t := sys.running[k];
    var ok := Perform(sys.both, k, t.sub, CallOf(t), io).1;
    PerformMovesOneView(sys.both, k, t.sub, CallOf(t), io, k);
    SeeShowsTheView(sys.both, k, t.sub);
    CallAnswersItsTitle(sys, k, io);
    AnsweredIsGood(TitleOf(sys, k), k, ok, See(sys.both, k, t.sub), hole, loose);
  }

  /** Any other event: another title's call, a deletion, a backfill, a restart. At most it drops one dissenter. */
  lemma {:induction false} OtherEventView(sys: Sys, e: Event, k: Key)
    requires Keyed(sys) && !e.Begin? && !(e.Call? && e.key == k)
    ensures var v, v' := ViewOf(sys.both, k), ViewOf(Next(sys, e).both, k);
            v' == v || v' == v.(red := v.red - {if e.DeleteAccount? then e.sub else ""})
    ensures ViewOf(Next(sys, e).both, k) != ViewOf(sys.both, k) ==> e.DeleteAccount? || e.Restart?
    ensures !e.Restart? && sys.both.feedbackLoaded ==> Next(sys, e).both.feedbackLoaded
  {
    var s := sys.both;
    match e
    case Call(key, io) =>
      if key in sys.running {
        PerformMovesOneView(s, key, sys.running[key].sub, CallOf(sys.running[key]), io, k);
      }
    case DeleteAccount(sub, io) => DropUserDropsOneDissenter(s.feedback, sub, k);
    case BackfillLikedTitle(sub, key, title, io) => BackfillLikeKeepsDissent(s.feedback, sub, key, title, k);
    case BackfillVetoTitle(key, title, io) => BackfillVetoKeepsTheVeto(s.rejections, key, title, k);
    case Restart(_, _) => ReloadKeepsTheIds(s.feedback, s.rejections, k);
  }

  /** A dissenter who leaves can only loosen the veto. */
  lemma {:induction false} DroppingADissenterKeepsAt(v: View, gone: string, sub: string, pc: Pc,
                                                     hole: bool, loose: bool)
    requires At(v, sub, pc, hole, loose)
    ensures At(v.(red := v.red - {gone}), sub, pc, hole, loose || gone in v.red)
  {
    if gone !in v.red {
      assert v.red - {gone} == v.red;
    }
  }

  /** A request that dies leaves its title covered outside the red-to-green window. */
  lemma {:induction false} RestartLeavesIdle(v: View, sub: string, pc: Pc, hole: bool, loose: bool)
    requires At(v, sub, pc, hole, loose)
    ensures Idle(v, hole || RedToGreenWindow(pc), loose || !pc.Done?)
  {
  }

  lemma {:induction false} RestartKeepsInv(sys: Sys, e: Event, k: Key, hole: bool, loose: bool)
    requires Inv(sys, k, hole, loose) && Keyed(sys) && e.Restart?
    ensures Inv(Next(sys, e), k, hole || OpensHole(sys, e, k), loose || Loosens(sys, e, k))
  {
    OtherEventView(sys, e, k);
    var v := ViewOf(sys.both, k);
    if k in sys.running {
      RestartLeavesIdle(v, sys.running[k].sub, sys.running[k].pc, hole, loose);
    }
    DroppingADissenterKeepsAt(v, "", "", Done(true),
      hole || OpensHole(sys, e, k), loose || k in sys.running);
  }

  lemma {:induction false} OtherEventKeepsInv(sys: Sys, e: Event, k: Key, hole: bool, loose: bool)
    requires Inv(sys, k, hole, loose) && Keyed(sys) && !e.Restart? && !(e.Call? && e.key == k)
    ensures Inv(Next(sys, e), k, hole || OpensHole(sys, e, k), loose || Loosens(sys, e, k))
  {
    if !e.Begin? {
      OtherEventView(sys, e, k);
      if e.DeleteAccount? {
        var t := if k in sys.running then sys.running[k] else Task(k, "", "", Done(true));
        DroppingADissenterKeepsAt(ViewOf(sys.both, k), e.sub, t.sub, t.pc, hole, loose);
      }
    }
  }

  lemma {:induction false} NextKeepsInv(sys: Sys, e: Event, k: Key, hole: bool, loose: bool)
    requires Inv(sys, k, hole, loose) && Keyed(sys)
    ensures Inv(Next(sys, e), k, hole || OpensHole(sys, e, k), loose || Loosens(sys, e, k))
  {
    if e.Call? && e.key == k {
      if k in sys.running {
        CallKeepsInv(sys, k, e.io, hole, loose);
      }
    } else if e.Restart? {
      RestartKeepsInv(sys, e, k, hole, loose);
    } else {
      OtherEventKeepsInv(sys, e, k, hole, loose);
    }
  }

  // --- the theorems ---------------------------------------------------------------------

  /** A moment at which no request is at the title; other titles may be busy. */
  predicate AtRest(sys: Sys, k: Key) {
    Keyed(sys) && k !in sys.running
  }

  predicate Covered(s: Both, k: Key) {
    Dissenters(s.feedback, k) != {} ==> Vetoed(s.rejections, k)
  }

  predicate Exact(s: Both, k: Key) {
    Vetoed(s.rejections, k) <==> Dissenters(s.feedback, k) != {}
  }

  lemma {:induction false} RunIsKeyed(start: Sys, events: seq<Event>)
    requires Keyed(start)
    ensures Keyed(Run(start, events))
  {
    if events != [] {
      RunIsKeyed(start, events[..|events| - 1]);
    }
  }

  lemma {:induction false} RunKeepsInv(start: Sys, events: seq<Event>, k: Key, loose: bool)
    requires AtRest(start, k) && Covered(start.both, k) && (!loose ==> Exact(start.both, k))
    ensures Inv(Run(start, events), k, HoleIn(start, events, k), loose || LooseIn(start, events, k))
  {
    if events != [] {
      var before, e := events[..|events| - 1], events[|events| - 1];
      RunKeepsInv(start, before, k, loose);
      RunIsKeyed(start, before);
      NextKeepsInv(Run(start, before), e, k, HoleIn(start, before, k), loose || LooseIn(start, before, k));
    }
  }

  /**
  Whatever the members do and whatever fails, and in every interleaving: a title
  nobody is writing is vetoed if anyone dislikes it, unless the compensating
  write of a red-to-green flip failed too (or the process died inside one).
  */
  lemma {:induction false} EveryDislikeIsVetoed(start: Sys, events: seq<Event>, k: Key)
    requires AtRest(start, k) && Covered(start.both, k)
    requires !HoleIn(start, events, k)
    ensures var end := Run(start, events);
            k !in end.running ==> Covered(end.both, k)
  {
    RunKeepsInv(start, events, k, true);
  }

  lemma {:induction false} RunOfConcat(start: Sys, early: seq<Event>, late: seq<Event>)
    ensures Run(start, early + late) == Run(Run(start, early), late)
  {
    if late == [] {
      assert early + late == early;
    } else {
      var n := |late| - 1;
      assert (early + late)[..|early| + n] == early + late[..n];
      RunOfConcat(start, early, late[..n]);
    }
  }

  /**
  A hole closes at the next moment the title is at rest and covered again,
  however it got there: from then on only a new one can leave it uncovered.
  */
  lemma {:induction false} AHoleCloses(start: Sys, early: seq<Event>, late: seq<Event>, k: Key)
    requires Keyed(start)
    requires var rest := Run(start, early); k !in rest.running && Covered(rest.both, k)
    requires !HoleIn(Run(start, early), late, k)
    ensures var end := Run(start, early + late);
            k !in end.running ==> Covered(end.both, k)
  {
    RunIsKeyed(start, early);
    RunOfConcat(start, early, late);
    EveryDislikeIsVetoed(Run(start, early), late, k);
  }

  /**
  With no account deletion, no restart and every compensation succeeding, the
  veto is exactly the union of the dislikes.
  */
  lemma {:induction false} TheVetoIsTheUnionOfTheDislikes(start: Sys, events: seq<Event>, k: Key)
    requires AtRest(start, k) && Exact(start.both, k)
    requires !HoleIn(start, events, k) && !LooseIn(start, events, k)
    ensures var end := Run(start, events);
            k !in end.running ==> Exact(end.both, k)
  {
    RunKeepsInv(start, events, k, false);
  }
}
