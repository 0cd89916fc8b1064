/**
 The throttle against a remote peer: setters, replays, invalidations and connection changes
 interleaved with one flush goroutine whose requests are acknowledged or not.

 The peer keeps, per key, the value of the last request it applied. `ideal` is what sending every
 accepted value at once would have left there.
 */
module VolumeSync {
  import opened Prelude
  import opened Throttle

  /** An acknowledged request and the generation its flush took the value in. */
  datatype Ack = Ack(key: Key, value: Volume, taken: nat)

  datatype Flush =
    | Resting
    | Begun(conn: nat)   // read the current connection
    | Sending(conn: nat, generation: nat, todo: map<Key, Volume>, sent: map<Key, Volume>)

  /** `untracked`: the peer moved on these keys and lastSent does not say so.
      `lost`: the newest value was in a request that failed. `masked`: it was dropped as a duplicate
      although the key was untracked. */
  datatype State = State(
    cache: Cache,
    current: Option<nat>,
    flush: Flush,
    peer: map<Key, Volume>,
    ideal: map<Key, Volume>,
    acceptedIn: map<Key, nat>,
    acks: set<Ack>,
    untracked: set<Key>,
    lost: set<Key>,
    masked: set<Key>)

  const INIT := State(Cache(map[], map[], 0), None, Resting, map[], map[], map[], {}, {}, {}, {})

  datatype Outcome = Acknowledged | AppliedUnheard | NotApplied

  datatype Step =
    | Accepts(values: map<Key, Volume>)   // SetVolume while connected, or a replay
    | Invalidates
    | ConnMoves(current: Option<nat>)
    | FlushBegins
    | FlushTakes
    | Sends(key: Key, outcome: Outcome)
    | FlushEnds

  predicate Enabled(s: State, step: Step) {
    match step
    case FlushBegins => s.flush.Resting? && s.current.Some?
    case FlushTakes => s.flush.Begun?
    case Sends(key, _) => s.flush.Sending? && key in s.flush.todo
    case FlushEnds => s.flush.Sending? && s.flush.todo == map[]
    case _ => true
  }

  /** The pending keys a flush drops because the peer is believed to have their value. */
  function Duplicates(c: Cache): set<Key> {
    set key | key in c.pending && Has(c, key, c.pending[key])
  }

  /** The condition under which flush records what it sent. */
  predicate Records(s: State) {
    s.flush.Sending? && s.current == Some(s.flush.conn) && s.flush.generation == s.cache.generation
  }

  function Apply(s: State, step: Step): State
    requires Enabled(s, step)
  {
    match step
    case Accepts(values) =>
      s.(cache := Put(s.cache, values),
         ideal := s.ideal + values,
         acceptedIn := map key | key in s.acceptedIn.Keys + values.Keys ::
                         if key in values then s.cache.generation else s.acceptedIn[key])
    case Invalidates => s.(cache := Invalidated(s.cache), untracked := {})
    case ConnMoves(current) => s.(current := current)
    case FlushBegins => s.(flush := Begun(s.current.value))
    case FlushTakes =>
      s.(cache := Drained(s.cache),
         flush := Sending(s.flush.conn, s.cache.generation, Todo(s.cache), map[]),
         lost := s.lost - s.cache.pending.Keys,
         masked := s.masked - s.cache.pending.Keys + Duplicates(s.cache) * s.untracked)
    case Sends(key, outcome) =>
      var value := s.flush.todo[key];
      var f := s.flush.(todo := s.flush.todo - {key});
      match outcome {
        case Acknowledged =>
          s.(flush := f.(sent := f.sent[key := value]),
             peer := s.peer[key := value],
             acks := s.acks + {Ack(key, value, f.generation)})
        case AppliedUnheard =>
          s.(flush := f, peer := s.peer[key := value], lost := s.lost + {key}, untracked := s.untracked + {key})
        case NotApplied => s.(flush := f, lost := s.lost + {key})
      }
    case FlushEnds =>
      if Records(s)
      then s.(flush := Resting, cache := Noted(s.cache, s.flush.sent), untracked := s.untracked - s.flush.sent.Keys)
      else s.(flush := Resting, untracked := s.untracked + s.flush.sent.Keys)
  }

  function Run(steps: seq<Step>): Option<State> {
    if steps == [] then Some(INIT)
    else
      match Run(steps[..|steps| - 1])
      case None => None
      case Some(s) => if Enabled(s, steps[|steps| - 1]) then Some(Apply(s, steps[|steps| - 1])) else None
  }

  // ---------- invariant ----------

  function InTodo(s: State): set<Key> { if s.flush.Sending? then s.flush.todo.Keys else {} }

  function InSent(s: State): set<Key> { if s.flush.Sending? then s.flush.sent.Keys else {} }

  predicate Holds(s: State, key: Key) { key in s.peer && key in s.ideal && s.peer[key] == s.ideal[key] }

  /** An acknowledged request carried the newest value of the key, taken no earlier than it was accepted. */
  ghost predicate Delivered(s: State, key: Key) {
    && key in s.ideal && key in s.acceptedIn
    && exists g: nat :: s.acceptedIn[key] <= g && Ack(key, s.ideal[key], g) in s.acks
  }

  ghost predicate Accounts(s: State) {
    && s.acceptedIn.Keys == s.ideal.Keys
    && (forall key <- s.acceptedIn :: s.acceptedIn[key] <= s.cache.generation)
    && (forall key <- s.cache.pending :: key in s.ideal && s.ideal[key] == s.cache.pending[key])
    && s.peer.Keys <= s.ideal.Keys
    && InTodo(s) <= s.ideal.Keys
    && (forall a <- s.acks :: a.taken <= s.cache.generation)
    && (s.flush.Sending? ==> s.flush.generation <= s.cache.generation)
  }

  ghost predicate Flushing(s: State) {
    s.flush.Sending? ==>
      && (s.flush.generation < s.cache.generation ==> s.cache.lastSent == map[])
      && s.flush.todo.Keys !! s.flush.sent.Keys
      && (forall key <- s.flush.todo ::
            && key in s.ideal && key in s.acceptedIn
            && key !in s.masked
            && !Has(s.cache, key, s.flush.todo[key])
            && (key !in s.cache.pending ==>
                s.ideal[key] == s.flush.todo[key] && s.acceptedIn[key] <= s.flush.generation))
      && (forall key <- s.flush.sent ::
            && key in s.peer && s.peer[key] == s.flush.sent[key]
            && !Has(s.cache, key, s.flush.sent[key])
            && Ack(key, s.flush.sent[key], s.flush.generation) in s.acks)
  }

  /** What lastSent says was acknowledged in this very generation, and is still so unless untracked. */
  ghost predicate Believed(s: State) {
    forall key <- s.cache.lastSent ::
      && key in s.peer
      && Ack(key, s.cache.lastSent[key], s.cache.generation) in s.acks
      && (key !in InSent(s) ==> (s.peer[key] == s.cache.lastSent[key] <==> key !in s.untracked))
  }

  /** Nothing more is on its way for this key, and its newest value was not lost. */
  predicate Quieted(s: State, key: Key) {
    key in s.ideal && key !in s.cache.pending && key !in InTodo(s) && key !in s.lost
  }

  ghost predicate Settled(s: State) {
    forall key <- s.ideal | Quieted(s, key) :: Delivered(s, key) && (Holds(s, key) <==> key !in s.masked)
  }

  ghost predicate Inv(s: State) { Accounts(s) && Flushing(s) && Believed(s) && Settled(s) }

  lemma AccountsKeptBySends(s: State, key: Key, outcome: Outcome)
    requires Accounts(s) && Enabled(s, Sends(key, outcome))
    ensures Accounts(Apply(s, Sends(key, outcome)))
  {
  }

  lemma AccountsKept(s: State, step: Step)
    requires Accounts(s) && Enabled(s, step) && !step.Sends?
    ensures Accounts(Apply(s, step))
  {
  }

  lemma FlushingKeptBySends(s: State, key: Key, outcome: Outcome)
    requires Accounts(s) && Flushing(s) && Enabled(s, Sends(key, outcome))
    ensures Flushing(Apply(s, Sends(key, outcome)))
  {
  }

  lemma FlushingKept(s: State, step: Step)
    requires Accounts(s) && Flushing(s) && Enabled(s, step) && !step.Sends?
    ensures Flushing(Apply(s, step))
  {
  }

  lemma BelievedKeptBySends(s: State, key: Key, outcome: Outcome)
    requires Accounts(s) && Flushing(s) && Believed(s) && Enabled(s, Sends(key, outcome))
    ensures Believed(Apply(s, Sends(key, outcome)))
  {
  }

  lemma BelievedKept(s: State, step: Step)
    requires Accounts(s) && Flushing(s) && Believed(s) && Enabled(s, step) && !step.Sends?
    ensures Believed(Apply(s, step))
  {
  }

  lemma SettledByTaking(s: State, step: Step, key: Key)
    requires Inv(s) && Enabled(s, step) && step.FlushTakes?
    requires Quieted(Apply(s, step), key)
    ensures Delivered(Apply(s, step), key) && (Holds(Apply(s, step), key) <==> key !in Apply(s, step).masked)
  {
    var t := Apply(s, step);
    if key in s.cache.pending {
      assert Ack(key, t.ideal[key], s.cache.generation) in t.acks;
    } else {
      assert Delivered(s, key);
    }
  }

  lemma SettledBySending(s: State, step: Step, key: Key)
    requires Inv(s) && Enabled(s, step) && step.Sends?
    requires Quieted(Apply(s, step), key)
    ensures Delivered(Apply(s, step), key) && (Holds(Apply(s, step), key) <==> key !in Apply(s, step).masked)
  {
    var t := Apply(s, step);
    if step.key == key {
      assert Ack(key, t.ideal[key], s.flush.generation) in t.acks;
    } else {
      assert Delivered(s, key);
    }
  }

  lemma SettledByOthers(s: State, step: Step, key: Key)
    requires Inv(s) && Enabled(s, step) && (!step.FlushTakes? && !step.Sends?)
    requires Quieted(Apply(s, step), key)
    ensures Delivered(Apply(s, step), key) && (Holds(Apply(s, step), key) <==> key !in Apply(s, step).masked)
  {
    assert Delivered(s, key);
  }

  lemma SettledKept(s: State, step: Step)
    requires Inv(s) && Enabled(s, step)
    ensures Settled(Apply(s, step))
  {
    hide Inv, Apply, Enabled, Delivered, Holds, Quieted;
    var t := Apply(s, step);
    forall key <- t.ideal | Quieted(t, key) ensures Delivered(t, key) && (Holds(t, key) <==> key !in t.masked) {
      if step.FlushTakes? {
        SettledByTaking(s, step, key);
      } else if step.Sends? {
        SettledBySending(s, step, key);
      } else {
        SettledByOthers(s, step, key);
      }
    }
  }

  lemma {:induction false} RunKeepsInv(steps: seq<Step>)
    requires Run(steps).Some?
    ensures Inv(Run(steps).value)
  {
    if steps != [] {
      var s, step := Run(steps[..|steps| - 1]).value, steps[|steps| - 1];
      RunKeepsInv(steps[..|steps| - 1]);
      if step.Sends? {
        AccountsKeptBySends(s, step.key, step.outcome);
        FlushingKeptBySends(s, step.key, step.outcome);
        BelievedKeptBySends(s, step.key, step.outcome);
      } else {
        AccountsKept(s, step);
        FlushingKept(s, step);
        BelievedKept(s, step);
      }
      SettledKept(s, step);
    }
  }

  // ---------- no old flush suppresses a restoration ----------

  lemma GenerationGrows(s: State, step: Step)
    requires Enabled(s, step)
    ensures s.cache.generation <= Apply(s, step).cache.generation
  {
  }

  lemma {:induction false} GenerationsGrow(before: seq<Step>, after: seq<Step>)
    requires Run(before + after).Some?
    ensures Run(before).Some? && Run(before).value.cache.generation <= Run(before + after).value.cache.generation
  {
    hide Apply, Enabled;
    if after == [] {
      assert before + after == before;
    } else {
      var shorter := after[..|after| - 1];
      assert (before + after)[..|before + after| - 1] == before + shorter;
      GenerationsGrow(before, shorter);
      GenerationGrows(Run(before + shorter).value, after[|after| - 1]);
    }
  }

  /** A pending value is dropped as a duplicate only if that very value was acknowledged for that key by
      a flush that took it after the latest invalidation, and so after any invalidation of the run. */
  lemma {:induction false} OldFlushesNeverSuppress(before: seq<Step>, after: seq<Step>, key: Key)
    requires Run(before + [Invalidates] + after).Some?
    requires key in Duplicates(Run(before + [Invalidates] + after).value.cache)
    ensures Run(before).Some?
    ensures var s, earlier := Run(before + [Invalidates] + after).value, Run(before).value;
            var ack := Ack(key, s.cache.pending[key], s.cache.generation);
            && ack in s.acks && ack !in earlier.acks
            && (earlier.flush.Sending? ==> earlier.flush.generation < ack.taken)
  {
    var invalidated := before + [Invalidates];
    GenerationsGrow(invalidated, after);
    assert invalidated[..|invalidated| - 1] == before;
    RunKeepsInv(before);
    RunKeepsInv(invalidated + after);
  }

  // ---------- the throttle against direct sending ----------

  predicate Quiescent(s: State) { s.cache.pending == map[] && s.flush.Resting? }

  /** Without anything pending or in flight, the peer has the newest value of a key that was not lost to a
      failed request exactly when that value was not masked; and the value was acknowledged after it
      was accepted in any case. */
  lemma {:induction false} QuietPeerHoldsTheNewestUnlessMasked(steps: seq<Step>, key: Key)
    requires Run(steps).Some? && Quiescent(Run(steps).value)
    requires key in Run(steps).value.ideal && key !in Run(steps).value.lost
    ensures var s := Run(steps).value; (Holds(s, key) <==> key !in s.masked) && Delivered(s, key)
  {
    RunKeepsInv(steps);
  }

  /** Every request was acknowledged, and every flush recorded what it sent or was overtaken by an invalidation. */
  predicate Faultless(steps: seq<Step>) {
    steps == [] ||
    (var before, step := steps[..|steps| - 1], steps[|steps| - 1];
     && Faultless(before)
     && (step.Sends? ==> step.outcome.Acknowledged?)
     && (step.FlushEnds? && Run(before).Some? && Run(before).value.flush.Sending? ==>
           Records(Run(before).value) || Run(before).value.flush.generation != Run(before).value.cache.generation))
  }

  lemma {:induction false} FaultlessRunsTrack(steps: seq<Step>)
    requires Run(steps).Some? && Faultless(steps)
    ensures var s := Run(steps).value; s.lost == {} && s.masked == {} && s.untracked !! s.cache.lastSent.Keys
  {
    if steps != [] {
      var before := steps[..|steps| - 1];
      FaultlessRunsTrack(before);
      RunKeepsInv(before);
    }
  }

  /** So on a faultless run the throttle refines direct sending. */
  lemma {:induction false} ThrottleRefinesDirectSending(steps: seq<Step>)
    requires Run(steps).Some? && Faultless(steps) && Quiescent(Run(steps).value)
    ensures Run(steps).value.peer == Run(steps).value.ideal
  {
    RunKeepsInv(steps);
    FaultlessRunsTrack(steps);
    var s := Run(steps).value;
    forall key <- s.ideal ensures Holds(s, key) {
    }
  }

  // ---------- what untracked means, in terms of the run alone ----------

  /** The peer took this value, whether or not its reply was heard. */
  predicate Applies(step: Step, key: Key) { step.Sends? && step.key == key && !step.outcome.NotApplied? }

  /** Where the last request of the key that the peer applied is in the run. */
  function LastApplied(steps: seq<Step>, key: Key): (i: Option<nat>)
    ensures i.Some? ==> i.value < |steps| && Applies(steps[i.value], key)
  {
    if steps == [] then None
    else if Applies(steps[|steps| - 1], key) then Some(|steps| - 1)
    else LastApplied(steps[..|steps| - 1], key)
  }

  /** Where the flush under way at `i` ended. */
  function EndAfter(steps: seq<Step>, i: nat): (e: Option<nat>)
    ensures e.Some? ==> i < e.value < |steps| && steps[e.value].FlushEnds?
  {
    if |steps| <= i + 1 then None
    else if EndAfter(steps[..|steps| - 1], i).Some? then EndAfter(steps[..|steps| - 1], i)
    else if steps[|steps| - 1].FlushEnds? then Some(|steps| - 1) else None
  }

  predicate InvalidatedAfter(steps: seq<Step>, i: nat) {
    |steps| > i + 1 && (steps[|steps| - 1].Invalidates? || InvalidatedAfter(steps[..|steps| - 1], i))
  }

  /** The last request of the key that the peer applied was not heard, or its flush ended without recording
      what it had sent; and nothing was invalidated since. */
  predicate Unnoted(steps: seq<Step>, key: Key) {
    match LastApplied(steps, key)
    case None => false
    case Some(i) =>
      if steps[i].outcome.AppliedUnheard? then !InvalidatedAfter(steps, i)
      else
        match EndAfter(steps, i) {
          case None => false
          case Some(e) => !Recorded(steps, e) && !InvalidatedAfter(steps, e)
        }
  }

  /** The flush that ends at `e` records what it sent. */
  predicate Recorded(steps: seq<Step>, e: nat)
    requires e < |steps|
  {
    match Run(steps[..e])
    case None => false
    case Some(s) => Records(s)
  }

  /** The last request of the key was acknowledged and its flush is still under way. */
  predicate Unended(steps: seq<Step>, key: Key) {
    match LastApplied(steps, key)
    case None => false
    case Some(i) => steps[i].outcome.Acknowledged? && EndAfter(steps, i).None?
  }

  ghost predicate TrackedAs(steps: seq<Step>, s: State, key: Key) {
    && (key in InSent(s) <==> Unended(steps, key))
    && (key !in InSent(s) ==> (key in s.untracked <==> Unnoted(steps, key)))
  }

  lemma ApplyingTracks(steps: seq<Step>, s: State, step: Step, key: Key)
    requires Run(steps) == Some(s) && Enabled(s, step) && Flushing(s) && Applies(step, key)
    ensures TrackedAs(steps + [step], Apply(s, step), key)
  {
    assert EndAfter(steps + [step], |steps|).None?;
  }

  lemma InvalidatingTracks(steps: seq<Step>, s: State, key: Key)
    requires TrackedAs(steps, s, key)
    ensures TrackedAs(steps + [Invalidates], Apply(s, Invalidates), key)
  {
    assert (steps + [Invalidates])[..|steps|] == steps;
  }

  lemma EndingTracks(steps: seq<Step>, s: State, key: Key)
    requires Run(steps) == Some(s) && Enabled(s, FlushEnds) && TrackedAs(steps, s, key)
    ensures TrackedAs(steps + [FlushEnds], Apply(s, FlushEnds), key)
  {
    var more := steps + [FlushEnds];
    assert more[..|steps|] == steps;
    if LastApplied(steps, key).Some? {
      var i := LastApplied(steps, key).value;
      assert LastApplied(more, key) == Some(i) && more[i] == steps[i];
      if EndAfter(steps, i).Some? {
        assert more[..EndAfter(steps, i).value] == steps[..EndAfter(steps, i).value];
      }
    }
  }

  lemma OtherStepTracks(steps: seq<Step>, s: State, step: Step, key: Key)
    requires Run(steps) == Some(s) && Enabled(s, step) && TrackedAs(steps, s, key)
    requires !Applies(step, key) && !step.Invalidates? && !step.FlushEnds?
    ensures TrackedAs(steps + [step], Apply(s, step), key)
  {
    var more := steps + [step];
    assert more[..|steps|] == steps;
    if LastApplied(steps, key).Some? {
      var i := LastApplied(steps, key).value;
      assert LastApplied(more, key) == Some(i) && more[i] == steps[i];
      if EndAfter(steps, i).Some? {
        assert more[..EndAfter(steps, i).value] == steps[..EndAfter(steps, i).value];
      }
    }
  }

  lemma {:induction false} RunsTrack(steps: seq<Step>, key: Key)
    requires Run(steps).Some?
    ensures TrackedAs(steps, Run(steps).value, key)
  {
    if steps != [] {
      var before, step := steps[..|steps| - 1], steps[|steps| - 1];
      var s := Run(before).value;
      RunsTrack(before, key);
      RunKeepsInv(before);
      assert before + [step] == steps;
      hide Apply, Enabled, TrackedAs, Accounts, Flushing, Believed, Settled;
      if Applies(step, key) {
        ApplyingTracks(before, s, step, key);
      } else if step.Invalidates? {
        InvalidatingTracks(before, s, key);
      } else if step.FlushEnds? {
        EndingTracks(before, s, key);
      } else {
        OtherStepTracks(before, s, step, key);
      }
    }
  }

  /** Between flushes a key is untracked exactly when the run says so. */
  lemma {:induction false} UntrackedExactly(steps: seq<Step>, key: Key)
    requires Run(steps).Some? && !Run(steps).value.flush.Sending?
    ensures key in Run(steps).value.untracked <==> Unnoted(steps, key)
  {
    RunsTrack(steps, key);
  }

  // ---------- one batch, sent in full ----------

  lemma Extends(steps: seq<Step>, step: Step)
    requires Run(steps).Some? && Enabled(Run(steps).value, step)
    ensures Run(steps + [step]) == Some(Apply(Run(steps).value, step))
  {
    assert (steps + [step])[..|steps + [step]| - 1] == steps;
  }

  function Acknowledging(order: seq<Key>): seq<Step> {
    seq(|order|, i requires 0 <= i < |order| => Sends(order[i], Acknowledged))
  }

  /** Values are accepted, and one flush sends what it takes in some order; every request is acknowledged. */
  function Batch(values: map<Key, Volume>, order: seq<Key>): seq<Step> {
    [Accepts(values), FlushBegins, FlushTakes] + Acknowledging(order) + [FlushEnds]
  }

  /** Go's range over a map: each key once, in any order. */
  ghost predicate Orders(order: seq<Key>, keys: set<Key>) {
    && (forall key :: key in order <==> key in keys)
    && (forall i, j :: 0 <= i < j < |order| ==> order[i] != order[j])
  }

  /** Where a flush stands when all it took is acknowledged. */
  function AllSent(s: State): State
    requires s.flush.Sending?
  {
    var f := s.flush;
    s.(flush := f.(todo := map[], sent := f.sent + f.todo),
       peer := s.peer + f.todo,
       acks := s.acks + set key | key in f.todo :: Ack(key, f.todo[key], f.generation))
  }

  lemma FirstOrdered(order: seq<Key>, keys: set<Key>)
    requires Orders(order, keys) && order != []
    ensures order[0] in keys && Orders(order[1..], keys - {order[0]})
  {
    assert forall i :: 0 <= i < |order| - 1 ==> order[1..][i] == order[i + 1];
    assert order == [order[0]] + order[1..];
  }

  lemma OneMoreSent(s: State, key: Key)
    requires s.flush.Sending? && key in s.flush.todo
    ensures Enabled(s, Sends(key, Acknowledged))
    ensures var t := Apply(s, Sends(key, Acknowledged));
            && t.flush.Sending? && t.flush.todo == s.flush.todo - {key} && AllSent(t) == AllSent(s)
  {
    var t := Apply(s, Sends(key, Acknowledged));
    assert t.flush.sent + t.flush.todo == s.flush.sent + s.flush.todo;
    assert t.peer + t.flush.todo == s.peer + s.flush.todo;
    assert AllSent(t).acks == AllSent(s).acks;
  }

  lemma NothingLeft(s: State)
    requires s.flush.Sending? && s.flush.todo == map[]
    ensures AllSent(s) == s
  {
    assert AllSent(s).flush.sent == s.flush.sent && AllSent(s).acks == s.acks;
  }

  lemma {:induction false} AllAreSent(steps: seq<Step>, order: seq<Key>)
    requires Run(steps).Some? && Run(steps).value.flush.Sending?
    requires Orders(order, Run(steps).value.flush.todo.Keys)
    ensures Run(steps + Acknowledging(order)) == Some(AllSent(Run(steps).value))
    decreases |order|
  {
    hide Run, Apply, Enabled, AllSent;
    var s := Run(steps).value;
    if order == [] {
      assert s.flush.todo.Keys == {};
      NothingLeft(s);
      assert steps + Acknowledging(order) == steps;
    } else {
      var step := Sends(order[0], Acknowledged);
      FirstOrdered(order, s.flush.todo.Keys);
      OneMoreSent(s, order[0]);
      hide Orders;
      Extends(steps, step);
      AllAreSent(steps + [step], order[1..]);
      assert Acknowledging(order) == [step] + Acknowledging(order[1..]);
      assert steps + Acknowledging(order) == steps + [step] + Acknowledging(order[1..]);
    }
  }

  lemma BatchIsTaken(steps: seq<Step>, values: map<Key, Volume>)
    requires Run(steps).Some? && Quiescent(Run(steps).value) && Run(steps).value.current.Some?
    ensures var s := Run(steps).value;
            && Run(steps + [Accepts(values), FlushBegins, FlushTakes]).Some?
            && var t := Run(steps + [Accepts(values), FlushBegins, FlushTakes]).value;
               && t.flush == Sending(s.current.value, s.cache.generation, Todo(Put(s.cache, values)), map[])
               && t.current == s.current && t.peer == s.peer && t.ideal == s.ideal + values && t.cache == s.cache
               && t.untracked == s.untracked
  {
    var s := Run(steps).value;
    var accepted := Apply(s, Accepts(values));
    assert accepted.cache == Put(s.cache, values);
    assert Drained(accepted.cache) == s.cache;
    Extends(steps, Accepts(values));
    Extends(steps + [Accepts(values)], FlushBegins);
    Extends(steps + [Accepts(values)] + [FlushBegins], FlushTakes);
    hide Run, Put, Todo;
    assert steps + [Accepts(values)] + [FlushBegins] + [FlushTakes] ==
           steps + [Accepts(values), FlushBegins, FlushTakes];
  }

  lemma SentBatchEnds(taken: State)
    requires taken.flush.Sending? && taken.flush.sent == map[]
    ensures var sent := AllSent(taken);
            && Enabled(sent, FlushEnds)
            && var t := Apply(sent, FlushEnds);
               && t.flush == Resting && t.cache.pending == taken.cache.pending && t.current == taken.current
               && t.peer == taken.peer + taken.flush.todo && t.ideal == taken.ideal
               && t.cache == if Records(taken) then Noted(taken.cache, taken.flush.todo) else taken.cache
  {
  }

  lemma BatchParts(steps: seq<Step>, values: map<Key, Volume>, order: seq<Key>)
    ensures steps + Batch(values, order) ==
            steps + [Accepts(values), FlushBegins, FlushTakes] + Acknowledging(order) + [FlushEnds]
  {
    hide Acknowledging;
  }

  /** The batch runs whatever the order, and leaves at the peer exactly what was not dropped as a duplicate. */
  lemma BatchRuns(steps: seq<Step>, values: map<Key, Volume>, order: seq<Key>)
    requires Run(steps).Some? && Quiescent(Run(steps).value) && Run(steps).value.current.Some?
    requires Orders(order, Todo(Put(Run(steps).value.cache, values)).Keys)
    ensures Run(steps + Batch(values, order)).Some?
    ensures var s, t := Run(steps).value, Run(steps + Batch(values, order)).value;
            && Quiescent(t) && t.current == s.current && t.ideal == s.ideal + values
            && t.peer == s.peer + Todo(Put(s.cache, values))
            && t.cache == Noted(s.cache, Todo(Put(s.cache, values)))
  {
    var s := Run(steps).value;
    hide Run, Apply, Enabled, AllSent, Orders, Put, Todo, Batch;
    var begun := steps + [Accepts(values), FlushBegins, FlushTakes];
    BatchIsTaken(steps, values);
    var taken := Run(begun).value;
    AllAreSent(begun, order);
    SentBatchEnds(taken);
    Extends(begun + Acknowledging(order), FlushEnds);
    BatchParts(steps, values, order);
  }

  /** Whatever is accepted next, and in whatever order its flush sends it, the peer then has what direct
      sending would have left there. */
  ghost predicate NextBatchesArrive(steps: seq<Step>)
    requires Run(steps).Some?
  {
    forall values: map<Key, Volume>, order: seq<Key> {:trigger Batch(values, order)} ::
      Orders(order, Todo(Put(Run(steps).value.cache, values)).Keys) ==>
        var t := Run(steps + Batch(values, order));
        t.Some? && Quiescent(t.value) && t.value.peer == t.value.ideal
  }

  /** From any quiet state of any run that agrees with direct sending, every next batch arrives if and only
      if the run leaves no key of lastSent unnoted. */
  lemma {:induction false} BatchesArriveExactlyWhenTracked(steps: seq<Step>)
    requires Run(steps).Some? && Quiescent(Run(steps).value) && Run(steps).value.current.Some?
    requires Run(steps).value.peer == Run(steps).value.ideal
    ensures NextBatchesArrive(steps) <==> forall key <- Run(steps).value.cache.lastSent :: !Unnoted(steps, key)
  {
    NextBatchesArriveExactly(steps);
    hide Run, Unnoted, NextBatchesArrive;
    forall key ensures key in Run(steps).value.untracked <==> Unnoted(steps, key) {
      UntrackedExactly(steps, key);
    }
  }

  lemma {:induction false} NextBatchesArriveExactly(steps: seq<Step>)
    requires Run(steps).Some? && Quiescent(Run(steps).value) && Run(steps).value.current.Some?
    requires Run(steps).value.peer == Run(steps).value.ideal
    ensures NextBatchesArrive(steps) <==> Run(steps).value.untracked !! Run(steps).value.cache.lastSent.Keys
  {
    RunKeepsInv(steps);
    var s := Run(steps).value;
    if s.untracked !! s.cache.lastSent.Keys {
      forall values: map<Key, Volume>, order: seq<Key> | Orders(order, Todo(Put(s.cache, values)).Keys)
        ensures var t := Run(steps + Batch(values, order));
                t.Some? && Quiescent(t.value) && t.value.peer == t.value.ideal
      {
        BatchRuns(steps, values, order);
        TrackedBatchAgrees(s, values);
      }
    } else {
      var key :| key in s.untracked && key in s.cache.lastSent;
      var values := map[key := s.cache.lastSent[key]];
      assert Todo(Put(s.cache, values)) == map[] && Orders([], {});
      BatchRuns(steps, values, []);
      assert s.peer[key] != values[key];
      assert Run(steps + Batch(values, [])).value.ideal[key] == values[key];
    }
  }

  lemma TrackedBatchAgrees(s: State, values: map<Key, Volume>)
    requires Quiescent(s) && Believed(s) && s.peer == s.ideal && s.untracked !! s.cache.lastSent.Keys
    ensures s.peer + Todo(Put(s.cache, values)) == s.ideal + values
  {
  }

  // ---------- a run on which it does not ----------

  /** One flush of one accepted value, up to its end. */
  function OneFlush(key: Key, value: Volume): seq<Step> {
    [Accepts(map[key := value]), FlushBegins, FlushTakes, Sends(key, Acknowledged)]
  }

  function AfterOneFlush(s: State, key: Key, value: Volume): State
    requires s.current.Some?
  {
    s.(flush := Sending(s.current.value, s.cache.generation, map[], map[key := value]),
       peer := s.peer[key := value],
       ideal := s.ideal[key := value],
       acceptedIn := s.acceptedIn[key := s.cache.generation],
       acks := s.acks + {Ack(key, value, s.cache.generation)},
       lost := s.lost - {key},
       masked := s.masked - {key})
  }

  function AfterTake(s: State, key: Key, value: Volume): State
    requires s.current.Some?
  {
    s.(flush := Sending(s.current.value, s.cache.generation, map[key := value], map[]),
       ideal := s.ideal[key := value],
       acceptedIn := s.acceptedIn[key := s.cache.generation],
       lost := s.lost - {key},
       masked := s.masked - {key})
  }

  lemma TakesOne(s: State, key: Key, value: Volume)
    requires Quiescent(s) && s.current.Some? && !Has(s.cache, key, value)
    ensures var accepted := Apply(s, Accepts(map[key := value]));
            && Enabled(accepted, FlushBegins)
            && Apply(Apply(accepted, FlushBegins), FlushTakes) == AfterTake(s, key, value)
  {
    var accepted := Apply(s, Accepts(map[key := value]));
    assert accepted.cache.pending == map[key := value];
    assert Todo(accepted.cache) == map[key := value];
    assert Duplicates(accepted.cache) == {};
    assert accepted.acceptedIn == s.acceptedIn[key := s.cache.generation];
    assert Drained(accepted.cache) == s.cache;
  }

  lemma SendsOne(s: State, key: Key, value: Volume)
    requires s.current.Some?
    ensures Enabled(AfterTake(s, key, value), Sends(key, Acknowledged))
    ensures Apply(AfterTake(s, key, value), Sends(key, Acknowledged)) == AfterOneFlush(s, key, value)
  {
    assert map[key := value] - {key} == map[];
  }

  lemma OneFlushRuns(steps: seq<Step>, key: Key, value: Volume)
    requires Run(steps).Some? && Quiescent(Run(steps).value) && Run(steps).value.current.Some?
    requires !Has(Run(steps).value.cache, key, value)
    ensures Run(steps + OneFlush(key, value)) == Some(AfterOneFlush(Run(steps).value, key, value))
  {
    var s := Run(steps).value;
    var step1, step2, step3, step4 := Accepts(map[key := value]), FlushBegins, FlushTakes, Sends(key, Acknowledged);
    TakesOne(s, key, value);
    SendsOne(s, key, value);
    Extends(steps, step1);
    Extends(steps + [step1], step2);
    Extends(steps + [step1] + [step2], step3);
    Extends(steps + [step1] + [step2] + [step3], step4);
    assert steps + [step1] + [step2] + [step3] + [step4] == steps + OneFlush(key, value);
  }

  /** Two flushes, the second acknowledged while its connection goes away; then the first value again,
      after the next connection is adopted and before OnUp has invalidated anything. */
  function MaskingRun(key: Key, first: Volume, second: Volume): seq<Step> {
    UntrackingRun(key, first, second) + [Accepts(map[key := first])] + [FlushBegins] + [FlushTakes] + [FlushEnds]
  }

  function UntrackingRun(key: Key, first: Volume, second: Volume): seq<Step> {
    [ConnMoves(Some(1))] + OneFlush(key, first) + [FlushEnds]
    + OneFlush(key, second) + [ConnMoves(Some(2))] + [FlushEnds]
  }

  /** The first half: one value sent, acknowledged and recorded. */
  lemma FirstFlushRuns(key: Key, first: Volume)
    ensures var begun := [ConnMoves(Some(1))];
            var flushed := begun + OneFlush(key, first) + [FlushEnds];
            && Run(begun).Some? && Run(flushed).Some?
            && var s := Run(flushed).value;
               && Quiescent(s) && s.current == Some(1) && s.cache.lastSent == map[key := first]
               && s.peer == map[key := first] && s.ideal == map[key := first] && s.lost == {} && s.untracked == {}
  {
    var begun := [ConnMoves(Some(1))];
    assert Run([]) == Some(INIT) && [] + begun == begun;
    Extends([], ConnMoves(Some(1)));
    OneFlushRuns(begun, key, first);
    hide Run, OneFlush;
    Extends(begun + OneFlush(key, first), FlushEnds);
  }

  lemma {:induction false} UntrackingRunRuns(key: Key, first: Volume, second: Volume)
    requires first != second
    ensures Run(UntrackingRun(key, first, second)).Some?
    ensures var s := Run(UntrackingRun(key, first, second)).value;
            && Quiescent(s) && s.current == Some(2) && s.cache.lastSent == map[key := first]
            && s.peer == map[key := second]
            && s.ideal == map[key := second] && s.lost == {} && s.untracked == {key}
  {
    hide Run, OneFlush;
    FirstFlushRuns(key, first);
    var flushed := [ConnMoves(Some(1))] + OneFlush(key, first) + [FlushEnds];
    OneFlushRuns(flushed, key, second);
    var sent := flushed + OneFlush(key, second);
    assert Run(sent).value.peer == map[key := second] && Run(sent).value.ideal == map[key := second];
    Extends(sent, ConnMoves(Some(2)));
    Extends(sent + [ConnMoves(Some(2))], FlushEnds);
  }

  /** Every request was acknowledged and all is quiet, yet the peer does not have the newest value. */
  lemma {:induction false} ADroppedConnectionCanMaskAValue(key: Key, first: Volume, second: Volume)
    requires first != second
    ensures Run(MaskingRun(key, first, second)).Some?
    ensures var s := Run(MaskingRun(key, first, second)).value;
            Quiescent(s) && s.lost == {} && s.ideal == map[key := first] && s.peer == map[key := second]
  {
    UntrackingRunRuns(key, first, second);
    var steps := UntrackingRun(key, first, second);
    var step1, step2, step3, step4 := Accepts(map[key := first]), FlushBegins, FlushTakes, FlushEnds;
    Extends(steps, step1);
    Extends(steps + [step1], step2);
    Extends(steps + [step1] + [step2], step3);
    var accepted := Run(steps + [step1]).value;
    assert accepted.cache.pending == map[key := first];
    assert Todo(accepted.cache) == map[];
    Extends(steps + [step1] + [step2] + [step3], step4);
  }

  /** No connection goes away: one value sent and recorded, a second one that the peer applies unheard. */
  function UnheardRun(key: Key, first: Volume, second: Volume): seq<Step> {
    [ConnMoves(Some(1))] + OneFlush(key, first) + [FlushEnds]
    + [Accepts(map[key := second]), FlushBegins, FlushTakes] + [Sends(key, AppliedUnheard)] + [FlushEnds]
  }

  /** The peer has the newest value, and yet not every next batch would arrive. */
  lemma {:induction false} AnUnheardRequestLeavesAKeyUnnoted(key: Key, first: Volume, second: Volume)
    requires first != second
    ensures Run(UnheardRun(key, first, second)).Some?
    ensures var s := Run(UnheardRun(key, first, second)).value;
            && Quiescent(s) && s.current == Some(1) && s.cache.lastSent == map[key := first]
            && s.ideal == map[key := second] && s.peer == map[key := second] && s.untracked == {key}
    ensures Unnoted(UnheardRun(key, first, second), key) && !NextBatchesArrive(UnheardRun(key, first, second))
  {
    hide Run, OneFlush, NextBatchesArrive, Unnoted;
    FirstFlushRuns(key, first);
    var flushed := [ConnMoves(Some(1))] + OneFlush(key, first) + [FlushEnds];
    var s := Run(flushed).value;
    var values := map[key := second];
    BatchIsTaken(flushed, values);
    var taken := flushed + [Accepts(values), FlushBegins, FlushTakes];
    assert Todo(Put(s.cache, values)) == map[key := second];
    Extends(taken, Sends(key, AppliedUnheard));
    assert map[key := second] - {key} == map[];
    Extends(taken + [Sends(key, AppliedUnheard)], FlushEnds);
    NextBatchesArriveExactly(UnheardRun(key, first, second));
    UntrackedExactly(UnheardRun(key, first, second), key);
  }

  /** So a slider that moves back is not followed, on a connection that never went away; and since lastSent
      stays as it is, every replay of that value is dropped in the same way. */
  lemma {:induction false} AnUnheardRequestCanMaskAValue(key: Key, first: Volume, second: Volume)
    requires first != second
    ensures var steps := UnheardRun(key, first, second) + Batch(map[key := first], []);
            && Run(steps).Some?
            && var s := Run(steps).value;
               && Quiescent(s) && s.current == Some(1) && s.cache.lastSent == map[key := first]
               && s.ideal == map[key := first] && s.peer == map[key := second]
  {
    AnUnheardRequestLeavesAKeyUnnoted(key, first, second);
    hide Run, UnheardRun, Batch, NextBatchesArrive, Unnoted;
    var s := Run(UnheardRun(key, first, second)).value;
    assert Todo(Put(s.cache, map[key := first])) == map[] && Orders([], {});
    BatchRuns(UnheardRun(key, first, second), map[key := first], []);
  }
}
