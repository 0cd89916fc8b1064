/**
 The mixer under way: session events from any goroutine, slider moves, settings changes and the
 reload worker, one lock between them. The finder adds each session once and removes it at most
 once, after its add.
 */
module MixerRuns {
  import opened Prelude
  import opened Signals
  import opened Mixer
  import M = Mapping

  /** Who holds the lock across several steps, and what is left to do. */
  datatype Lock = Free | Refreshing(left: set<Session>) | Adjusting(rest: seq<Session>)

  /** The reload worker: asleep in its select, woken and waiting for the lock, or inside the refresh. */
  datatype Worker = Asleep | Woken | Busy

  /** `mapping` is the live active mapping; `gone` are sessions whose removed-handler has returned, which
      the finder releases. */
  datatype State = State(
    m: Index,
    unmapped: seq<Session>,
    mapping: M.SliderMappings,
    signals: Signals,
    worker: Worker,
    lock: Lock,
    live: set<Session>,
    gone: set<Session>)

  function Initial(mapping: M.SliderMappings): State {
    State(map[], [], mapping, SILENT, Asleep, Free, {}, {})
  }

  datatype Step =
    | Adds(session: Session)
    | Removes(session: Session)
    | Publishes(who: Publisher, mapping: M.SliderMappings)
    | Notifies(who: Publisher)
    | Wakes
    | RefreshStarts
    | Looks(session: Session)
    | RefreshEnds
    | AdjustStarts(target: string)
    | Calls
    | AdjustEnds

  predicate Enabled(s: State, step: Step) {
    match step
    case Adds(session) => s.lock.Free? && session !in s.live && session !in s.gone
    case Removes(session) => s.lock.Free? && session in s.live
    case Publishes(who, _) => MayPublish(s.signals, who)
    case Notifies(who) => who in s.signals.busy
    case Wakes => s.worker.Asleep? && s.signals.waiting
    case RefreshStarts => s.worker.Woken? && s.lock.Free?
    case Looks(session) => s.lock.Refreshing? && session in s.lock.left
    case RefreshEnds => s.lock.Refreshing? && s.lock.left == {}
    case AdjustStarts(_) => s.lock.Free?
    case Calls => s.lock.Adjusting? && s.lock.rest != []
    case AdjustEnds => s.lock.Adjusting? && s.lock.rest == []
  }

  function Appended(list: seq<Session>, mapping: M.SliderMappings, s: Session): seq<Session> {
    if Mapped(mapping, s) then list else list + [s]
  }

  function Apply(s: State, step: Step): State
    requires Enabled(s, step)
  {
    match step
    case Adds(session) =>
      s.(m := AddedTo(s.m, session), unmapped := Appended(s.unmapped, s.mapping, session), live := s.live + {session})
    case Removes(session) =>
      s.(m := RemovedFrom(s.m, session), unmapped := WithoutOne(s.unmapped, session),
         live := s.live - {session}, gone := s.gone + {session})
    case Publishes(who, mapping) => s.(mapping := mapping, signals := PublishedBy(s.signals, who))
    case Notifies(who) => s.(signals := NotifiedBy(s.signals, who))
    case Wakes => s.(signals := Taken(s.signals), worker := Woken)
    case RefreshStarts => s.(worker := Busy, unmapped := [], lock := Refreshing(set k <- s.m, x <- s.m[k] :: x))
    case Looks(session) =>
      s.(unmapped := Appended(s.unmapped, s.mapping, session), lock := Refreshing(s.lock.left - {session}))
    case RefreshEnds => s.(worker := Asleep, lock := Free)
    case AdjustStarts(target) => s.(lock := Adjusting(Group(s.m, target)))
    case Calls => s.(lock := Adjusting(s.lock.rest[1..]))   // SetVolume on s.lock.rest[0]
    case AdjustEnds => s.(lock := Free)
  }

  function Run(mapping: M.SliderMappings, steps: seq<Step>): Option<State> {
    if steps == [] then Some(Initial(mapping))
    else
      match Run(mapping, steps[..|steps| - 1])
      case None => None
      case Some(s) => if Enabled(s, steps[|steps| - 1]) then Some(Apply(s, steps[|steps| - 1])) else None
  }

  // ---------- invariant ----------

  /** The cached list has exactly these sessions right: unmapped ones in it, mapped ones not. */
  ghost predicate RightAbout(s: State, sessions: set<Session>) {
    forall x <- sessions :: x in s.unmapped <==> !Mapped(s.mapping, x)
  }

  ghost predicate Safe(s: State) {
    && Indexes(s.m, s.live)
    && s.live !! s.gone
    && (s.lock.Adjusting? ==> forall x <- s.lock.rest :: x in s.live)
    && (s.lock.Refreshing? ==> s.lock.left <= s.live && s.worker.Busy?)
    && (s.worker.Busy? ==> s.lock.Refreshing?)
  }

  ghost predicate Cached(s: State) {
    && NoRepeats(s.unmapped)
    && (forall x <- s.unmapped :: x in s.live)
    && (s.lock.Refreshing? ==> forall x <- s.lock.left :: x !in s.unmapped)
    && (if s.lock.Refreshing? then RightAbout(s, s.live - s.lock.left) || Announced(s.signals)
        else RightAbout(s, s.live) || Announced(s.signals) || s.worker.Woken?)
  }

  lemma SafeKept(s: State, step: Step)
    requires Safe(s) && Enabled(s, step)
    ensures Safe(Apply(s, step))
  {
    match step
    case Adds(session) => AddedIndexes(s.m, s.live, session);
    case Removes(session) => RemovedIndexes(s.m, s.live, session);
    case RefreshStarts =>
      var t := Apply(s, step);
      forall x <- t.lock.left ensures x in s.live {
        assert x in Group(s.m, x.key);
      }
    case _ =>
  }

  predicate OfSessions(step: Step) { step.Adds? || step.Removes? }

  predicate OfRefresh(step: Step) { step.RefreshStarts? || step.Looks? || step.RefreshEnds? }

  lemma CachedKeptBySessions(s: State, step: Step)
    requires Safe(s) && Cached(s) && Enabled(s, step) && OfSessions(step)
    ensures Cached(Apply(s, step))
  {
    if step.Removes? {
      WithoutOneRemoves(s.unmapped, step.session);
    }
    hide Mapped, Indexes, AddedTo, RemovedFrom, WithoutOne;
  }

  lemma CachedKeptByRefresh(s: State, step: Step)
    requires Safe(s) && Cached(s) && Enabled(s, step) && OfRefresh(step)
    ensures Cached(Apply(s, step))
  {
    if step.RefreshStarts? {
      forall x <- s.live ensures x in Apply(s, step).lock.left {
        assert x in Group(s.m, x.key);
      }
    }
    hide Mapped, Indexes;
  }

  lemma CachedKeptByOthers(s: State, step: Step)
    requires Safe(s) && Cached(s) && Enabled(s, step) && !OfSessions(step) && !OfRefresh(step)
    ensures Cached(Apply(s, step))
  {
    hide Mapped, Indexes;
  }

  lemma CachedKept(s: State, step: Step)
    requires Safe(s) && Cached(s) && Enabled(s, step)
    ensures Cached(Apply(s, step))
  {
    hide Apply, Enabled, Safe, Cached;
    if OfSessions(step) {
      CachedKeptBySessions(s, step);
    } else if OfRefresh(step) {
      CachedKeptByRefresh(s, step);
    } else {
      CachedKeptByOthers(s, step);
    }
  }

  lemma {:induction false} RunKeepsInv(mapping: M.SliderMappings, steps: seq<Step>)
    requires Run(mapping, steps).Some?
    ensures Safe(Run(mapping, steps).value) && Cached(Run(mapping, steps).value)
  {
    if steps != [] {
      hide Apply, Enabled, Safe, Cached;
      var s := Run(mapping, steps[..|steps| - 1]).value;
      RunKeepsInv(mapping, steps[..|steps| - 1]);
      SafeKept(s, steps[|steps| - 1]);
      CachedKept(s, steps[|steps| - 1]);
    } else {
      InitialIsGood(mapping);
    }
  }

  lemma InitialIsGood(mapping: M.SliderMappings)
    ensures Safe(Initial(mapping)) && Cached(Initial(mapping))
  {
  }

  // ---------- results ----------

  /** In any state of any run, the next volume call goes to a live session. */
  lemma {:induction false} VolumeCallsReachLiveSessions(mapping: M.SliderMappings, steps: seq<Step>)
    requires Run(mapping, steps).Some? && Enabled(Run(mapping, steps).value, Calls)
    ensures var s := Run(mapping, steps).value; s.lock.rest[0] in s.live && s.lock.rest[0] !in s.gone
  {
    RunKeepsInv(mapping, steps);
  }

  lemma GoneGrows(s: State, step: Step)
    requires Enabled(s, step)
    ensures s.gone <= Apply(s, step).gone
  {
  }

  lemma {:induction false} GoneStays(mapping: M.SliderMappings, before: seq<Step>, after: seq<Step>)
    requires Run(mapping, before + after).Some?
    ensures Run(mapping, before).Some? && Run(mapping, before).value.gone <= Run(mapping, before + after).value.gone
  {
    hide Apply, Enabled;
    if after == [] {
      assert before + after == before;
    } else {
      var shorter := after[..|after| - 1];
      assert (before + after)[..|before + after| - 1] == before + shorter;
      GoneStays(mapping, before, shorter);
      GoneGrows(Run(mapping, before + shorter).value, after[|after| - 1]);
    }
  }

  /** Once the handler of its removal has returned, no volume call of the rest of the run reaches a session. */
  lemma {:induction false} RemovedSessionsGetNoCalls(
      mapping: M.SliderMappings, before: seq<Step>, session: Session, after: seq<Step>)
    requires Run(mapping, before + [Removes(session)] + after).Some?
    requires Enabled(Run(mapping, before + [Removes(session)] + after).value, Calls)
    ensures Run(mapping, before + [Removes(session)] + after).value.lock.rest[0] != session
  {
    var removed := before + [Removes(session)];
    assert removed[..|removed| - 1] == before;
    GoneStays(mapping, removed, after);
    VolumeCallsReachLiveSessions(mapping, removed + after);
  }

  /** The index is exactly the live sessions, grouped by key. */
  lemma {:induction false} IndexIsLiveSessions(mapping: M.SliderMappings, steps: seq<Step>)
    requires Run(mapping, steps).Some?
    ensures var s := Run(mapping, steps).value;
            && (forall key <- s.m :: s.m[key] != [] && NoRepeats(s.m[key]) && forall x <- s.m[key] :: x.key == key)
            && (forall x :: x in s.live <==> x in Group(s.m, x.key))
  {
    RunKeepsInv(mapping, steps);
  }

  /** Unless a settings change is on its way or being handled, the cached list holds exactly the live
      sessions no slider is mapped to, each once. */
  lemma {:induction false} UnmappedListIsCoherent(mapping: M.SliderMappings, steps: seq<Step>)
    requires Run(mapping, steps).Some?
    requires var s := Run(mapping, steps).value; !Announced(s.signals) && s.worker.Asleep?
    ensures var s := Run(mapping, steps).value;
            && NoRepeats(s.unmapped)
            && forall x :: x in s.unmapped <==> x in s.live && !Mapped(s.mapping, x)
  {
    RunKeepsInv(mapping, steps);
  }
}
