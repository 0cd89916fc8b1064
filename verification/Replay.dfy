/**
 A replay of slider values against the sliders themselves. The event loop reads the sliders
 (internal/app/app.go) before it takes the throttle's lock (internal/integrations/discord/volume.go),
 while moves travel to the throttle through a channel (internal/serial/protocol.go). The client stays
 connected, and one slider is mapped to a key.
 */
module Replay {
  import opened Prelude
  import opened Throttle
  import V = VolumeSync

  datatype Move = Move(key: Key, value: Volume)

  /** `levels` is what the sliders show, `transit` the moves on their way to the throttle, `read` what a
      replay has read and not yet put into pending. `throttle.ideal` is the newest accepted value of a key. */
  datatype State = State(
    levels: map<Key, Volume>,
    transit: seq<Move>,
    read: Option<map<Key, Volume>>,
    throttle: V.State)

  const INIT := State(map[], [], None, V.INIT)

  datatype Step =
    | Moves(move: Move)
    | Delivers(move: Move)
    | ReplayReads
    | ReplayWrites
    | Inside(step: V.Step)   // invalidations, connection changes, flushes

  predicate Enabled(s: State, step: Step) {
    match step
    case Moves(_) => true
    case Delivers(move) => s.transit != [] && s.transit[0] == move
    case ReplayReads => s.read.None?
    case ReplayWrites => s.read.Some?
    case Inside(inner) => !inner.Accepts? && V.Enabled(s.throttle, inner)
  }

  function Apply(s: State, step: Step): State
    requires Enabled(s, step)
  {
    match step
    case Moves(move) => s.(levels := s.levels[move.key := move.value], transit := s.transit + [move])
    case Delivers(move) =>
      s.(transit := s.transit[1..], throttle := V.Apply(s.throttle, V.Accepts(map[move.key := move.value])))
    case ReplayReads => s.(read := Some(s.levels))
    case ReplayWrites => s.(read := None, throttle := V.Apply(s.throttle, V.Accepts(s.read.value)))
    case Inside(inner) => s.(throttle := V.Apply(s.throttle, inner))
  }

  function Run(steps: seq<Step>): Option<State> {
    if steps == [] then Some(INIT)
    else
      match Run(steps[..|steps| - 1])
      case None => None
      case Some(s) => if Enabled(s, steps[|steps| - 1]) then Some(Apply(s, steps[|steps| - 1])) else None
  }

  // ---------- moves arrive in order ----------

  /** The last move of a key that is on its way. */
  function Latest(transit: seq<Move>, key: Key): Option<Volume> {
    if transit == [] then None
    else if transit[|transit| - 1].key == key then Some(transit[|transit| - 1].value)
    else Latest(transit[..|transit| - 1], key)
  }

  lemma {:induction false} LatestOfRest(transit: seq<Move>, key: Key)
    requires transit != []
    ensures Latest(transit, key) ==
              if Latest(transit[1..], key).Some? then Latest(transit[1..], key)
              else if transit[0].key == key then Some(transit[0].value) else None
  {
    if |transit| > 1 {
      var before := transit[..|transit| - 1];
      LatestOfRest(before, key);
      assert transit[1..][..|transit| - 2] == before[1..];
    }
  }

  lemma LatestOfMore(transit: seq<Move>, move: Move, key: Key)
    ensures Latest(transit + [move], key) == if move.key == key then Some(move.value) else Latest(transit, key)
  {
    assert (transit + [move])[..|transit|] == transit;
  }

  /** It is where its slider stands. */
  ghost predicate Ordered(s: State) {
    forall key :: Latest(s.transit, key).Some? ==> key in s.levels && s.levels[key] == Latest(s.transit, key).value
  }

  lemma OrderedKept(s: State, step: Step)
    requires Ordered(s) && Enabled(s, step)
    ensures Ordered(Apply(s, step))
  {
    var t := Apply(s, step);
    forall key | Latest(t.transit, key).Some? ensures key in t.levels && t.levels[key] == Latest(t.transit, key).value {
      if step.Delivers? {
        LatestOfRest(s.transit, key);
      } else if step.Moves? {
        LatestOfMore(s.transit, step.move, key);
      }
    }
  }

  lemma {:induction false} RunKeepsOrdered(steps: seq<Step>)
    requires Run(steps).Some?
    ensures Ordered(Run(steps).value)
  {
    if steps != [] {
      hide Apply, Enabled, Ordered;
      RunKeepsOrdered(steps[..|steps| - 1]);
      OrderedKept(Run(steps[..|steps| - 1]).value, steps[|steps| - 1]);
    }
  }

  // ---------- what a replay leaves behind ----------

  predicate DeliversKey(step: Step, key: Key) { step.Delivers? && step.move.key == key }

  predicate AnyDelivers(steps: seq<Step>, key: Key) { exists step <- steps :: DeliversKey(step, key) }

  predicate Accepted(s: State, key: Key, value: Volume) {
    key in s.throttle.ideal && s.throttle.ideal[key] == value
  }

  predicate UpToDate(s: State, key: Key) { key in s.levels && Accepted(s, key, s.levels[key]) }

  /** Since the replay wrote: what it wrote, until a move is delivered; from then on the slider's own value. */
  predicate Follows(s: State, key: Key, written: Volume, delivered: bool) {
    if delivered then Latest(s.transit, key).Some? || UpToDate(s, key) else Accepted(s, key, written)
  }

  lemma FollowsKept(s: State, step: Step, key: Key, written: Volume, delivered: bool)
    requires Ordered(s) && Enabled(s, step) && !step.ReplayWrites? && Follows(s, key, written, delivered)
    ensures Follows(Apply(s, step), key, written, delivered || DeliversKey(step, key))
  {
    var t := Apply(s, step);
    if step.Moves? {
      LatestOfMore(s.transit, step.move, key);
    } else if step.Delivers? {
      LatestOfRest(s.transit, key);
    }
  }

  lemma {:induction false} StaysFollowing(before: seq<Step>, after: seq<Step>, key: Key, written: Volume)
    requires Run(before).Some? && Run(before + after).Some? && Follows(Run(before).value, key, written, false)
    requires forall step <- after :: !step.ReplayWrites?
    ensures Follows(Run(before + after).value, key, written, AnyDelivers(after, key))
  {
    hide Apply, Enabled, Follows, Ordered;
    if after == [] {
      assert before + after == before;
    } else {
      var shorter, step := after[..|after| - 1], after[|after| - 1];
      assert (before + after)[..|before + after| - 1] == before + shorter;
      StaysFollowing(before, shorter, key, written);
      RunKeepsOrdered(before + shorter);
      FollowsKept(Run(before + shorter).value, step, key, written, AnyDelivers(shorter, key));
      assert AnyDelivers(after, key) <==> AnyDelivers(shorter, key) || DeliversKey(step, key) by {
        assert after == shorter + [step];
      }
    }
  }

  /** What is being replayed does not change until it is written. */
  lemma {:induction false} ReadingStays(before: seq<Step>, between: seq<Step>)
    requires Run(before).Some? && Run(before + between).Some? && Run(before).value.read.Some?
    requires forall step <- between :: !step.ReplayWrites?
    ensures Run(before + between).value.read == Run(before).value.read
  {
    if between == [] {
      assert before + between == before;
    } else {
      var shorter := between[..|between| - 1];
      assert (before + between)[..|before + between| - 1] == before + shorter;
      ReadingStays(before, shorter);
      hide V.Apply, V.Enabled;
    }
  }

  lemma {:induction false} KnownStays(before: seq<Step>, after: seq<Step>)
    requires Run(before + after).Some?
    ensures Run(before).Some?
    ensures var s, t := Run(before).value, Run(before + after).value;
            && s.levels.Keys <= t.levels.Keys && s.throttle.ideal.Keys <= t.throttle.ideal.Keys
  {
    if after == [] {
      assert before + after == before;
    } else {
      var shorter := after[..|after| - 1];
      assert (before + after)[..|before + after| - 1] == before + shorter;
      KnownStays(before, shorter);
      KnownGrows(Run(before + shorter).value, after[|after| - 1]);
      hide Apply, Enabled;
    }
  }

  lemma KnownGrows(s: State, step: Step)
    requires Enabled(s, step)
    ensures s.levels.Keys <= Apply(s, step).levels.Keys && s.throttle.ideal.Keys <= Apply(s, step).throttle.ideal.Keys
  {
  }

  /** Once no move of a key is on its way, the newest value that the throttle accepted after a replay is where
      the slider stands if and only if a move of it was delivered after the replay wrote, or the slider
      stands where it stood when the replay read it. */
  lemma {:induction false} ReplayIsNewestExactly(
      before: seq<Step>, between: seq<Step>, after: seq<Step>, key: Key)
    requires Run(before + [ReplayReads] + between + [ReplayWrites] + after).Some?
    requires forall step <- between + after :: !step.ReplayWrites?
    requires Run(before).Some? && key in Run(before).value.levels
    requires Latest(Run(before + [ReplayReads] + between + [ReplayWrites] + after).value.transit, key).None?
    ensures var s, t := Run(before).value, Run(before + [ReplayReads] + between + [ReplayWrites] + after).value;
            UpToDate(t, key) <==> AnyDelivers(after, key) || (key in t.levels && t.levels[key] == s.levels[key])
  {
    var reading := before + [ReplayReads];
    var prior := reading + between;
    var written := prior + [ReplayWrites];
    KnownStays(written, after);
    assert written[..|written| - 1] == prior;
    KnownStays(reading, between);
    assert reading[..|reading| - 1] == before;
    ReadingStays(reading, between);
    var value := Run(before).value.levels[key];
    assert Follows(Run(written).value, key, value, false);
    StaysFollowing(written, after, key, value);
  }

  lemma ReplayedIsKnown(before: seq<Step>, between: seq<Step>, after: seq<Step>, key: Key)
    requires Run(before + [ReplayReads] + between + [ReplayWrites] + after).Some?
    requires forall step <- between :: !step.ReplayWrites?
    requires Run(before).Some? && key in Run(before).value.levels
    ensures var t := Run(before + [ReplayReads] + between + [ReplayWrites] + after).value;
            key in t.levels && key in t.throttle.ideal
  {
    var reading := before + [ReplayReads];
    var prior := reading + between;
    var written := prior + [ReplayWrites];
    KnownStays(written, after);
    assert written[..|written| - 1] == prior;
    KnownStays(reading, between);
    assert reading[..|reading| - 1] == before;
    ReadingStays(reading, between);
  }

  /** The throttle's own part of a run. */
  function Throttled(steps: seq<Step>): seq<V.Step>
    requires Run(steps).Some?
  {
    if steps == [] then []
    else
      var before, step := steps[..|steps| - 1], steps[|steps| - 1];
      match step
      case Delivers(move) => Throttled(before) + [V.Accepts(map[move.key := move.value])]
      case ReplayWrites => Throttled(before) + [V.Accepts(Run(before).value.read.value)]
      case Inside(inner) => Throttled(before) + [inner]
      case _ => Throttled(before)
  }

  lemma {:induction false} ThrottledRuns(steps: seq<Step>)
    requires Run(steps).Some?
    ensures V.Run(Throttled(steps)) == Some(Run(steps).value.throttle)
  {
    if steps != [] {
      var before, step := steps[..|steps| - 1], steps[|steps| - 1];
      ThrottledRuns(before);
      var inner := Throttled(steps);
      assert inner == Throttled(before) || inner[..|inner| - 1] == Throttled(before);
      hide V.Apply;
    }
  }

  /** From slider to peer: when nothing is on its way, pending or in flight, no request for the key failed and
      none of its values was masked, the peer stands where the slider stands under that same condition. */
  lemma {:induction false} QuietPeerFollowsTheSlider(
      before: seq<Step>, between: seq<Step>, after: seq<Step>, key: Key)
    requires Run(before + [ReplayReads] + between + [ReplayWrites] + after).Some?
    requires forall step <- between + after :: !step.ReplayWrites?
    requires Run(before).Some? && key in Run(before).value.levels
    requires var t := Run(before + [ReplayReads] + between + [ReplayWrites] + after).value;
             && Latest(t.transit, key).None? && V.Quiescent(t.throttle)
             && key !in t.throttle.lost && key !in t.throttle.masked
    ensures var s, t := Run(before).value, Run(before + [ReplayReads] + between + [ReplayWrites] + after).value;
            && key in t.throttle.peer && key in t.levels
            && (t.throttle.peer[key] == t.levels[key] <==>
                  AnyDelivers(after, key) || t.levels[key] == s.levels[key])
  {
    var whole := before + [ReplayReads] + between + [ReplayWrites] + after;
    ReplayIsNewestExactly(before, between, after, key);
    ReplayedIsKnown(before, between, after, key);
    ThrottledRuns(whole);
    V.QuietPeerHoldsTheNewestUnlessMasked(Throttled(whole), key);
  }

  lemma Extends(steps: seq<Step>, step: Step)
    requires Run(steps).Some? && Enabled(Run(steps).value, step)
    ensures Run(steps + [step]) == Some(Apply(Run(steps).value, step))
  {
    assert (steps + [step])[..|steps + [step]| - 1] == steps;
  }

  /** A replay reads the slider, it moves on and that move is delivered, the replay writes. */
  function OvertakenRun(key: Key, first: Volume, second: Volume): seq<Step> {
    [Moves(Move(key, first))] + [Delivers(Move(key, first))] + [ReplayReads]
    + [Moves(Move(key, second))] + [Delivers(Move(key, second))] + [ReplayWrites]
  }

  lemma ReadingRuns(key: Key, first: Volume)
    ensures var steps := [Moves(Move(key, first))] + [Delivers(Move(key, first))] + [ReplayReads];
            && Run(steps).Some?
            && var s := Run(steps).value;
               && s.levels == map[key := first] && s.transit == [] && s.read == Some(map[key := first])
               && s.throttle.ideal == map[key := first] && s.throttle.cache.pending == map[key := first]
  {
    var step1, step2 := Moves(Move(key, first)), Delivers(Move(key, first));
    assert Run([]) == Some(INIT) && [] + [step1] == [step1];
    hide Run;
    Extends([], step1);
    Extends([step1], step2);
    Extends([step1] + [step2], ReplayReads);
  }

  /** So a replay can take the throttle back to a value that its slider has left. */
  lemma {:induction false} AReplayCanGoBack(key: Key, first: Volume, second: Volume)
    ensures Run(OvertakenRun(key, first, second)).Some?
    ensures var s := Run(OvertakenRun(key, first, second)).value;
            && s.transit == [] && s.levels == map[key := second]
            && s.throttle.ideal == map[key := first] && s.throttle.cache.pending == map[key := first]
  {
    hide Run;
    ReadingRuns(key, first);
    var read := [Moves(Move(key, first))] + [Delivers(Move(key, first))] + [ReplayReads];
    var step4, step5, step6 := Moves(Move(key, second)), Delivers(Move(key, second)), ReplayWrites;
    Extends(read, step4);
    Extends(read + [step4], step5);
    var overtaken := Run(read + [step4] + [step5]).value;
    assert overtaken.levels == map[key := second] && overtaken.throttle.ideal == map[key := second];
    Extends(read + [step4] + [step5], step6);
  }
}
