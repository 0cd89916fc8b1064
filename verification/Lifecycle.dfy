/**
 The whole protocol of internal/reconnect/reconnect.go as a step system, and what holds over every
 run of it: Start, Stop and Reconnect come from any goroutine, dials finish whenever they like.
 */
module Lifecycle {
  import opened Prelude
  import opened Reconnect

  // ---------- states ----------

  /** `Stopping`: the stop channel is closed and Stop waits for the manager and the watches. */
  datatype Phase = Stopped | Running | Stopping

  /** Where the manager goroutine is; `Idle` when there is none. */
  datatype Manager =
    | Idle
    | Gate                                      // about to evaluate Enabled
    | Backoff                                   // in waitOrStop
    | Dialing(id: nat)                          // in the select between stop and dialDone
    | Holding(conn: Conn)                       // has a fresh connection, about to evaluate Enabled again
    | Discarding(conn: Conn)                    // closing a connection it will not adopt
    | Announcing(conn: Conn)                    // published, OnUp has not returned
    | Watching(conn: Conn)                      // in the select between stop and errChannel
    | Lost(conn: Conn, report: Report)          // took an error, OnDown has not returned
    | Dropping(conn: Conn, stopping: bool)      // about to enter drop
    | Closing(conn: Conn, stopping: bool)       // cleared, Close has not returned

  /** A dial goroutine whose result nobody has received yet. */
  datatype Dial = Pending | Failed | Succeeded(conn: Conn)

  datatype Event =
    | Publishes(id: nat)
    | Up(id: nat)
    | Down(id: nat, report: Report)
    | Clears(id: nat)
    | Closes(id: nat)
    | Reads(call: nat, gen: nat)                // a Reconnect call read this generation's channel
    | WatchSends(gen: nat)
    | Consumes(gen: nat, report: Report)

  /** `begun` numbers the dials; `calls` are Reconnect calls between their read and their send. */
  datatype State = State(
    sh: Shared,
    phase: Phase,
    mgr: Manager,
    begun: nat,
    flight: map<nat, Dial>,
    watches: set<nat>,
    calls: map<nat, nat>,
    dialed: set<nat>,
    log: seq<Event>,
    past: set<Event>)

  const INIT := State(Shared(None, map[]), Stopped, Idle, 0, map[], {}, map[], {}, [], {})

  // ---------- steps ----------

  datatype Step =
    | Start
    | Stop
    | StopReturns
    | GateShut
    | GateOpen
    | WaitElapses
    | WaitStops
    | DialFails(id: nat)
    | DialSucceeds(conn: Conn)
    | StopWinsDial
    | TakeFailure
    | TakeConn
    | HeldShut
    | Publish
    | DiscardCloses
    | OnUpReturns
    | StopWinsWatch
    | TakeReport
    | OnDownReturns
    | Clear
    | CloseReturns
    | LateClose(id: nat)
    | WatchFails(id: nat)       // sends its error and returns
    | WatchReturns(id: nat)     // returns without a send
    | CallReads(call: nat)
    | CallSends(call: nat)

  predicate Enabled(s: State, step: Step) {
    match step
    case Start => true
    case Stop => s.phase != Stopping
    case StopReturns => s.phase.Stopping? && s.mgr.Idle? && s.watches == {}
    case GateShut => s.mgr.Gate?
    case GateOpen => s.mgr.Gate?
    case WaitElapses => s.mgr.Backoff?
    case WaitStops => s.mgr.Backoff? && s.phase.Stopping?
    case DialFails(id) => id in s.flight && s.flight[id].Pending?
    case DialSucceeds(conn) => conn.id in s.flight && s.flight[conn.id].Pending?
    case StopWinsDial => s.mgr.Dialing? && s.phase.Stopping?
    case TakeFailure => s.mgr.Dialing? && s.mgr.id in s.flight && s.flight[s.mgr.id].Failed?
    case TakeConn => s.mgr.Dialing? && s.mgr.id in s.flight && s.flight[s.mgr.id].Succeeded?
    case HeldShut => s.mgr.Holding?
    case Publish => s.mgr.Holding?
    case DiscardCloses => s.mgr.Discarding?
    case OnUpReturns => s.mgr.Announcing?
    case StopWinsWatch => s.mgr.Watching? && s.phase.Stopping?
    case TakeReport => s.mgr.Watching? && s.mgr.conn.id in s.sh.channels && s.sh.channels[s.mgr.conn.id].Some?
    case OnDownReturns => s.mgr.Lost?
    case Clear => s.mgr.Dropping?
    case CloseReturns => s.mgr.Closing?
    case LateClose(id) => id in s.flight && !s.flight[id].Pending? && s.mgr != Dialing(id)
    case WatchFails(id) => id in s.watches && id in s.sh.channels
    case WatchReturns(id) => id in s.watches
    case CallReads(call) => call !in s.calls
    case CallSends(call) => call in s.calls && s.calls[call] in s.sh.channels
  }

  function Logged(s: State, event: Event): State {
    s.(log := s.log + [event], past := s.past + {event})
  }

  function Apply(s: State, step: Step): State
    requires Enabled(s, step)
  {
    match step
    // Start and Stop hold the lifecycle lock; while Stop waits, a Start waits with it
    case Start => if s.phase.Stopped? then s.(phase := Running, mgr := Gate) else s
    case Stop => if s.phase.Running? then s.(phase := Stopping) else s
    case StopReturns => s.(phase := Stopped)
    case GateShut => s.(mgr := Backoff)
    case GateOpen => s.(mgr := Dialing(s.begun), begun := s.begun + 1, flight := s.flight[s.begun := Pending])
    case WaitElapses => s.(mgr := Gate)
    case WaitStops => s.(mgr := Idle)
    case DialFails(id) => s.(flight := s.flight[id := Failed])
    case DialSucceeds(conn) => s.(flight := s.flight[conn.id := Succeeded(conn)], dialed := s.dialed + {conn.id})
    case StopWinsDial => s.(mgr := Idle)
    case TakeFailure => s.(mgr := Backoff, flight := s.flight - {s.mgr.id})
    case TakeConn => s.(mgr := Holding(s.flight[s.mgr.id].conn), flight := s.flight - {s.mgr.id})
    case HeldShut => s.(mgr := Discarding(s.mgr.conn))
    case Publish =>
      Logged(s.(mgr := Announcing(s.mgr.conn), sh := Published(s.sh, s.mgr.conn)), Publishes(s.mgr.conn.id))
    case DiscardCloses => Logged(s.(mgr := Gate), Closes(s.mgr.conn.id))
    case OnUpReturns =>
      Logged(s.(mgr := Watching(s.mgr.conn), watches := s.watches + {s.mgr.conn.id}), Up(s.mgr.conn.id))
    case StopWinsWatch => s.(mgr := Dropping(s.mgr.conn, true))
    case TakeReport =>
      var id := s.mgr.conn.id;
      var report := s.sh.channels[id].value;
      Logged(s.(mgr := Lost(s.mgr.conn, report), sh := Received(s.sh, id)), Consumes(id, report))
    case OnDownReturns => Logged(s.(mgr := Dropping(s.mgr.conn, false)), Down(s.mgr.conn.id, s.mgr.report))
    case Clear => Logged(s.(mgr := Closing(s.mgr.conn, s.mgr.stopping), sh := Cleared(s.sh)), Clears(s.mgr.conn.id))
    case CloseReturns =>
      Logged(s.(mgr := if s.mgr.stopping then Idle else Backoff), Closes(s.mgr.conn.id))
    case LateClose(id) =>
      var t := s.(flight := s.flight - {id});
      if s.flight[id].Succeeded? then Logged(t, Closes(id)) else t
    case WatchFails(id) =>
      Logged(s.(watches := s.watches - {id}, sh := Sent(s.sh, FromWatch(id))), WatchSends(id))
    case WatchReturns(id) => s.(watches := s.watches - {id})
    case CallReads(call) =>
      if s.sh.current.None? then s
      else Logged(s.(calls := s.calls[call := s.sh.current.value.id]), Reads(call, s.sh.current.value.id))
    case CallSends(call) =>
      s.(calls := s.calls - {call}, sh := Sent(s.sh, FromCall(call, s.calls[call])))
  }

  /** The state after a run, if each of its steps was possible when it was taken. */
  function Run(steps: seq<Step>): Option<State> {
    if steps == [] then Some(INIT)
    else
      match Run(steps[..|steps| - 1])
      case None => None
      case Some(s) => if Enabled(s, steps[|steps| - 1]) then Some(Apply(s, steps[|steps| - 1])) else None
  }

  // ---------- the contract between the manager and its callbacks ----------

  /** Event `e` may follow the events `past`. This states the package contract without the manager. */
  ghost predicate Legal(past: set<Event>, e: Event) {
    match e
    // one connection at a time, each adopted once, each generation closed before the next begins
    case Publishes(id) =>
      e !in past && Closes(id) !in past && forall x: nat :: Publishes(x) in past ==> Closes(x) in past
    // OnUp, then at most one OnDown (with the error that was consumed), then Close
    case Up(id) => e !in past && Publishes(id) in past && Clears(id) !in past
    case Down(id, report) => e !in past && Up(id) in past && Clears(id) !in past && Consumes(id, report) in past
    case Clears(id) => e !in past && Up(id) in past
    case Closes(id) => e !in past && (Publishes(id) in past ==> Clears(id) in past)
    // a Reconnect call reads a channel only while its generation is current
    case Reads(call, gen) => Publishes(gen) in past && Clears(gen) !in past
    case WatchSends(gen) => e !in past && Up(gen) in past
    // an error ends only the generation it was sent to, and only once
    case Consumes(gen, report) =>
      && Up(gen) in past && Clears(gen) !in past
      && (forall r :: Consumes(gen, r) !in past)
      && report.gen == gen
      && (match report
          case FromWatch(g) => WatchSends(g) in past
          case FromCall(call, g) => Reads(call, g) in past)
  }

  function Events(log: seq<Event>): set<Event> {
    if log == [] then {} else Events(log[..|log| - 1]) + {log[|log| - 1]}
  }

  ghost predicate LegalLog(log: seq<Event>) {
    forall i {:trigger log[..i]} :: 0 <= i < |log| ==> Legal(Events(log[..i]), log[i])
  }

  lemma {:induction false} LegalLogGrows(log: seq<Event>, e: Event)
    requires LegalLog(log) && Legal(Events(log), e)
    ensures LegalLog(log + [e]) && Events(log + [e]) == Events(log) + {e}
  {
    var grown := log + [e];
    assert grown[..|log|] == log;
    forall i | 0 <= i < |grown| ensures Legal(Events(grown[..i]), grown[i]) {
      if i < |log| {
        assert grown[..i] == log[..i];
      }
    }
  }

  // ---------- the invariant ----------

  /** The connection the manager has adopted and not yet cleared. */
  function Adopted(m: Manager): Option<Conn> {
    match m
    case Announcing(c) => Some(c)
    case Watching(c) => Some(c)
    case Lost(c, _) => Some(c)
    case Dropping(c, _) => Some(c)
    case _ => None
  }

  /** The connection the manager has in hand without it being current. */
  function Held(m: Manager): Option<Conn> {
    match m
    case Holding(c) => Some(c)
    case Discarding(c) => Some(c)
    case Closing(c, _) => Some(c)
    case _ => None
  }

  predicate InFlight(s: State, id: nat) { id in s.flight && s.flight[id].Succeeded? }

  predicate IsHeld(s: State, id: nat) { Held(s.mgr).Some? && Held(s.mgr).value.id == id }

  predicate IsCurrent(s: State, id: nat) { s.sh.current.Some? && s.sh.current.value.id == id }

  predicate IsClosed(s: State, id: nat) { Closes(id) in s.past }

  ghost predicate Numbered(s: State) {
    && (forall id <- s.flight :: id < s.begun && (s.flight[id].Succeeded? ==> s.flight[id].conn.id == id))
    && (s.mgr.Dialing? ==> s.mgr.id in s.flight)
    && s.sh.current == Adopted(s.mgr)
    && (s.phase.Stopped? ==> s.mgr.Idle? && s.watches == {})
    && (s.mgr.Idle? ==> !s.phase.Running?)
    && ((s.mgr.Dropping? || s.mgr.Closing?) && s.mgr.stopping ==> s.phase.Stopping?)
    && (Adopted(s.mgr).Some? ==> Adopted(s.mgr).value.id in s.sh.channels)
  }

  /** Every successful dial is in one place, everything else in none. */
  ghost predicate Conserved(s: State) {
    forall id: nat :: id in s.dialed || InFlight(s, id) || IsHeld(s, id) || IsCurrent(s, id) || IsClosed(s, id) ==>
      && id < s.begun && id in s.dialed
      && (id in s.flight ==> InFlight(s, id))
      && ExactlyOne(InFlight(s, id), IsHeld(s, id), IsCurrent(s, id), IsClosed(s, id))
  }

  /** What the log says about a dial, read off from where its connection is. */
  ghost predicate Recorded(s: State) {
    && (forall id: nat :: Publishes(id) in s.past ==>
        IsClosed(s, id) || IsCurrent(s, id) || (s.mgr.Closing? && IsHeld(s, id)))
    && (forall id: nat :: Up(id) in s.past || Clears(id) in s.past ==> Publishes(id) in s.past)
    && (forall id: nat :: Clears(id) in s.past ==> IsClosed(s, id) || (s.mgr.Closing? && IsHeld(s, id)))
    && (forall id: nat, r :: Down(id, r) in s.past || Consumes(id, r) in s.past ==> Up(id) in s.past)
    && (match s.mgr
        case Announcing(c) => Publishes(c.id) in s.past && Up(c.id) !in s.past
        case Watching(c) => Up(c.id) in s.past && forall r :: Consumes(c.id, r) !in s.past && Down(c.id, r) !in s.past
        case Lost(c, r) => Up(c.id) in s.past && Consumes(c.id, r) in s.past && forall q :: Down(c.id, q) !in s.past
        case Dropping(c, _) => Up(c.id) in s.past
        case Closing(c, _) => Up(c.id) in s.past && Clears(c.id) in s.past
        case _ => true)
  }

  ghost predicate Sourced(s: State, report: Report) {
    match report
    case FromWatch(g) => WatchSends(g) in s.past
    case FromCall(call, g) => Reads(call, g) in s.past
  }

  ghost predicate Attributed(s: State) {
    && (forall g <- s.sh.channels :: Publishes(g) in s.past)
    && (forall g: nat :: Publishes(g) in s.past ==> g in s.sh.channels)
    && (forall g <- s.sh.channels :: s.sh.channels[g].Some? ==>
        s.sh.channels[g].value.gen == g && Sourced(s, s.sh.channels[g].value))
    && (forall call <- s.calls :: s.calls[call] in s.sh.channels && Reads(call, s.calls[call]) in s.past)
    && (forall id <- s.watches :: Up(id) in s.past && WatchSends(id) !in s.past)
    && (forall id: nat :: WatchSends(id) in s.past ==> Up(id) in s.past)
  }

  ghost predicate Inv(s: State) {
    Numbered(s) && Conserved(s) && Recorded(s) && Attributed(s)
  }

  // ---------- every step keeps it ----------

  predicate Raises(step: Step) { step.Publish? || step.OnUpReturns? }

  predicate Loses(step: Step) { step.TakeReport? || step.OnDownReturns? }

  predicate Releases(step: Step) { step.Clear? || step.CloseReturns? }

  predicate Discards(step: Step) { step.DiscardCloses? || step.LateClose? }

  /** The steps that start a dial, finish it, or receive its result. */
  predicate Dials(step: Step) {
    step.GateOpen? || step.DialFails? || step.DialSucceeds? || step.TakeFailure? || step.TakeConn?
  }

  /** The steps that take a connection from its adoption to its close. */
  predicate Carries(step: Step) {
    step.Publish? || step.OnUpReturns? || step.TakeReport? || step.OnDownReturns? || step.Clear? || step.CloseReturns?
  }

  predicate Silent(step: Step) {
    && !Dials(step) && !Raises(step) && !Loses(step) && !Releases(step) && !Discards(step)
    && !step.CallReads? && !step.CallSends? && !step.WatchFails?
  }

  lemma NumberedWhenDialing(s: State, step: Step)
    requires Numbered(s) && Conserved(s) && Enabled(s, step) && Dials(step)
    ensures Numbered(Apply(s, step))
  {
  }

  lemma NumberedWhenCarried(s: State, step: Step)
    requires Numbered(s) && Conserved(s) && Enabled(s, step) && Carries(step)
    ensures Numbered(Apply(s, step))
  {
  }

  lemma NumberedOtherwise(s: State, step: Step)
    requires Numbered(s) && Conserved(s) && Enabled(s, step) && !Dials(step) && !Carries(step)
    ensures Numbered(Apply(s, step))
  {
  }

  lemma ConservedWhenDialing(s: State, step: Step)
    requires Numbered(s) && Conserved(s) && Enabled(s, step) && Dials(step)
    ensures Conserved(Apply(s, step))
  {
    var id := if step.GateOpen? then s.begun else if step.DialFails? then step.id
              else if step.DialSucceeds? then step.conn.id else s.mgr.id;
    if step.TakeConn? {
      assert InFlight(s, id);
    } else {
      assert !InFlight(s, id) && !IsHeld(s, id) && !IsCurrent(s, id) && !IsClosed(s, id) && id !in s.dialed;
    }
  }

  lemma ConservedWhenDiscarded(s: State, step: Step)
    requires Numbered(s) && Conserved(s) && Enabled(s, step) && Discards(step)
    ensures Conserved(Apply(s, step))
  {
    var t := Apply(s, step);
    var own := if step.DiscardCloses? then s.mgr.conn.id else step.id;
    assert step.DiscardCloses? ==> IsHeld(s, own);
    assert step.LateClose? && s.flight[own].Succeeded? ==> InFlight(s, own);
    assert forall id: nat :: id != own ==> IsClosed(t, id) == IsClosed(s, id) && InFlight(t, id) == InFlight(s, id);
    assert !InFlight(t, own) && !IsHeld(t, own) && !IsCurrent(t, own);
  }

  lemma ConservedWhenCarried(s: State, step: Step)
    requires Numbered(s) && Conserved(s) && Enabled(s, step) && Carries(step)
    ensures Conserved(Apply(s, step))
  {
    var t, own := Apply(s, step), s.mgr.conn.id;
    assert IsHeld(s, own) || IsCurrent(s, own);
    assert t.flight == s.flight && t.dialed == s.dialed;
    assert IsHeld(t, own) || IsCurrent(t, own) || IsClosed(t, own);
    assert forall id: nat :: id != own ==> IsClosed(t, id) == IsClosed(s, id) && !IsHeld(t, id) && !IsCurrent(t, id);
  }

  lemma ConservedOtherwise(s: State, step: Step)
    requires Numbered(s) && Conserved(s) && Enabled(s, step) && !Dials(step) && !Discards(step) && !Carries(step)
    ensures Conserved(Apply(s, step))
  {
    var t := Apply(s, step);
    assert t.flight == s.flight && Held(t.mgr) == Held(s.mgr) && t.sh.current == s.sh.current && t.dialed == s.dialed;
    assert forall id: nat :: IsClosed(t, id) == IsClosed(s, id);
  }

  lemma RecordedWhenDialing(s: State, step: Step)
    requires Numbered(s) && Conserved(s) && Recorded(s) && Enabled(s, step) && Dials(step)
    ensures Recorded(Apply(s, step))
  {
  }

  lemma RecordedWhenSilent(s: State, step: Step)
    requires Numbered(s) && Conserved(s) && Recorded(s) && Enabled(s, step) && Silent(step)
    ensures Recorded(Apply(s, step))
  {
  }

  lemma RecordedWhenRaised(s: State, step: Step)
    requires Numbered(s) && Conserved(s) && Recorded(s) && Enabled(s, step) && Raises(step)
    ensures Recorded(Apply(s, step))
  {
  }

  lemma RecordedWhenLost(s: State, step: Step)
    requires Numbered(s) && Conserved(s) && Recorded(s) && Enabled(s, step) && Loses(step)
    ensures Recorded(Apply(s, step))
  {
  }

  lemma RecordedWhenReleased(s: State, step: Step)
    requires Numbered(s) && Conserved(s) && Recorded(s) && Enabled(s, step) && Releases(step)
    ensures Recorded(Apply(s, step))
  {
  }

  lemma RecordedWhenDiscarded(s: State, step: Step)
    requires Numbered(s) && Conserved(s) && Recorded(s) && Enabled(s, step) && Discards(step)
    ensures Recorded(Apply(s, step))
  {
  }

  lemma RecordedWhenRead(s: State, step: Step)
    requires Numbered(s) && Conserved(s) && Recorded(s) && Enabled(s, step) && step.CallReads?
    ensures Recorded(Apply(s, step))
  {
  }

  lemma RecordedWhenCallSends(s: State, step: Step)
    requires Numbered(s) && Conserved(s) && Recorded(s) && Enabled(s, step) && step.CallSends?
    ensures Recorded(Apply(s, step))
  {
  }

  lemma RecordedWhenWatchFails(s: State, step: Step)
    requires Numbered(s) && Conserved(s) && Recorded(s) && Enabled(s, step) && step.WatchFails?
    ensures Recorded(Apply(s, step))
  {
  }

  lemma AttributedWhenDialing(s: State, step: Step)
    requires Numbered(s) && Conserved(s) && Recorded(s) && Attributed(s) && Enabled(s, step) && Dials(step)
    ensures Attributed(Apply(s, step))
  {
  }

  lemma AttributedWhenSilent(s: State, step: Step)
    requires Numbered(s) && Conserved(s) && Recorded(s) && Attributed(s) && Enabled(s, step) && Silent(step)
    ensures Attributed(Apply(s, step))
  {
  }

  lemma AttributedWhenRaised(s: State, step: Step)
    requires Numbered(s) && Conserved(s) && Recorded(s) && Attributed(s) && Enabled(s, step) && Raises(step)
    ensures Attributed(Apply(s, step))
  {
  }

  lemma AttributedWhenLost(s: State, step: Step)
    requires Numbered(s) && Conserved(s) && Recorded(s) && Attributed(s) && Enabled(s, step) && Loses(step)
    ensures Attributed(Apply(s, step))
  {
  }

  lemma AttributedWhenReleased(s: State, step: Step)
    requires Numbered(s) && Conserved(s) && Recorded(s) && Attributed(s) && Enabled(s, step) && Releases(step)
    ensures Attributed(Apply(s, step))
  {
  }

  lemma AttributedWhenDiscarded(s: State, step: Step)
    requires Numbered(s) && Conserved(s) && Recorded(s) && Attributed(s) && Enabled(s, step) && Discards(step)
    ensures Attributed(Apply(s, step))
  {
  }

  lemma AttributedWhenRead(s: State, step: Step)
    requires Numbered(s) && Conserved(s) && Recorded(s) && Attributed(s) && Enabled(s, step) && step.CallReads?
    ensures Attributed(Apply(s, step))
  {
  }

  lemma AttributedWhenCallSends(s: State, step: Step)
    requires Numbered(s) && Conserved(s) && Recorded(s) && Attributed(s) && Enabled(s, step) && step.CallSends?
    ensures Attributed(Apply(s, step))
  {
  }

  lemma AttributedWhenWatchFails(s: State, step: Step)
    requires Numbered(s) && Conserved(s) && Recorded(s) && Attributed(s) && Enabled(s, step) && step.WatchFails?
    ensures Attributed(Apply(s, step))
  {
  }

  lemma StepKeepsInv(s: State, step: Step)
    requires Inv(s) && Enabled(s, step)
    ensures Inv(Apply(s, step))
  {
    if Dials(step) {
      NumberedWhenDialing(s, step);
      ConservedWhenDialing(s, step);
    } else if Carries(step) {
      NumberedWhenCarried(s, step);
      ConservedWhenCarried(s, step);
    } else {
      NumberedOtherwise(s, step);
      if Discards(step) {
        ConservedWhenDiscarded(s, step);
      } else {
        ConservedOtherwise(s, step);
      }
    }
    hide Apply, Enabled, Numbered, Conserved, Recorded, Attributed;
    if Dials(step) {
      RecordedWhenDialing(s, step);
      AttributedWhenDialing(s, step);
    } else if Raises(step) {
      RecordedWhenRaised(s, step);
      AttributedWhenRaised(s, step);
    } else if Loses(step) {
      RecordedWhenLost(s, step);
      AttributedWhenLost(s, step);
    } else if Releases(step) {
      RecordedWhenReleased(s, step);
      AttributedWhenReleased(s, step);
    } else if Discards(step) {
      RecordedWhenDiscarded(s, step);
      AttributedWhenDiscarded(s, step);
    } else if step.CallReads? {
      RecordedWhenRead(s, step);
      AttributedWhenRead(s, step);
    } else if step.CallSends? {
      RecordedWhenCallSends(s, step);
      AttributedWhenCallSends(s, step);
    } else if step.WatchFails? {
      RecordedWhenWatchFails(s, step);
      AttributedWhenWatchFails(s, step);
    } else {
      RecordedWhenSilent(s, step);
      AttributedWhenSilent(s, step);
    }
  }

  /** What a step writes into the history. */
  function Emitted(s: State, step: Step): Option<Event>
    requires Enabled(s, step)
  {
    match step
    case Publish => Some(Publishes(s.mgr.conn.id))
    case DiscardCloses => Some(Closes(s.mgr.conn.id))
    case OnUpReturns => Some(Up(s.mgr.conn.id))
    case TakeReport => Some(Consumes(s.mgr.conn.id, s.sh.channels[s.mgr.conn.id].value))
    case OnDownReturns => Some(Down(s.mgr.conn.id, s.mgr.report))
    case Clear => Some(Clears(s.mgr.conn.id))
    case CloseReturns => Some(Closes(s.mgr.conn.id))
    case LateClose(id) => if s.flight[id].Succeeded? then Some(Closes(id)) else None
    case WatchFails(id) => Some(WatchSends(id))
    case CallReads(call) => if s.sh.current.Some? then Some(Reads(call, s.sh.current.value.id)) else None
    case _ => None
  }

  lemma EmittedIsLogged(s: State, step: Step)
    requires Enabled(s, step)
    ensures var t := Apply(s, step);
            match Emitted(s, step)
            case None => t.log == s.log && t.past == s.past
            case Some(e) => t.log == s.log + [e] && t.past == s.past + {e}
  {
  }

  lemma EmittedIsLegal(s: State, step: Step)
    requires Inv(s) && Enabled(s, step) && Emitted(s, step).Some?
    ensures Legal(s.past, Emitted(s, step).value)
  {
    if Held(s.mgr).Some? {
      assert IsHeld(s, Held(s.mgr).value.id);
    } else if step.LateClose? {
      assert InFlight(s, step.id);
    }
  }

  /** The invariant, the legality of the history and the agreement of its two forms, over every run. */
  lemma {:induction false} RunKeepsInv(steps: seq<Step>)
    requires Run(steps).Some?
    ensures var s := Run(steps).value; Inv(s) && LegalLog(s.log) && s.past == Events(s.log)
  {
    if steps != [] {
      var s, step := Run(steps[..|steps| - 1]).value, steps[|steps| - 1];
      RunKeepsInv(steps[..|steps| - 1]);
      StepKeepsInv(s, step);
      EmittedIsLogged(s, step);
      if Emitted(s, step).Some? {
        EmittedIsLegal(s, step);
        LegalLogGrows(s.log, Emitted(s, step).value);
      }
    }
  }

  // ---------- results ----------

  /** Every successful dial is in flight, held by the manager, current or closed, and in one of them only. */
  lemma {:induction false} DialsAreConserved(steps: seq<Step>, id: nat)
    requires Run(steps).Some? && id in Run(steps).value.dialed
    ensures var s := Run(steps).value;
            ExactlyOne(InFlight(s, id), IsHeld(s, id), IsCurrent(s, id), Closes(id) in Events(s.log))
  {
    RunKeepsInv(steps);
  }

  /** No connection is closed twice. */
  lemma {:induction false} ClosedAtMostOnce(steps: seq<Step>, id: nat, i: nat, j: nat)
    requires Run(steps).Some?
    requires var log := Run(steps).value.log; i < |log| && j < |log| && log[i] == Closes(id) && log[j] == Closes(id)
    ensures i == j
  {
    RunKeepsInv(steps);
    var log := Run(steps).value.log;
    if i != j {
      var first, last := if i < j then i else j, if i < j then j else i;
      assert log[..last][first] == log[first];
      PastKeeps(log[..last], first);
    }
  }

  lemma {:induction false} PastKeeps(log: seq<Event>, i: nat)
    requires i < |log|
    ensures log[i] in Events(log)
  {
    if i < |log| - 1 {
      PastKeeps(log[..|log| - 1], i);
    }
  }

  /** From the moment Stop returns until the next Start, whatever late dials resolve meanwhile: nothing is
      current, no watch runs, and what is not still in flight is closed; all of it once nothing is. */
  lemma {:induction false} StopLeavesNothing(steps: seq<Step>)
    requires Run(steps).Some? && Run(steps).value.phase.Stopped?
    ensures var s := Run(steps).value;
            && s.sh.current == None && s.mgr.Idle? && s.watches == {}
            && (forall id <- s.dialed :: id in s.flight || Closes(id) in Events(s.log))
            && (s.flight == map[] ==> forall id <- s.dialed :: Closes(id) in Events(s.log))
  {
    RunKeepsInv(steps);
    var s := Run(steps).value;
    forall id <- s.dialed ensures id in s.flight || Closes(id) in Events(s.log) {
      DialsAreConserved(steps, id);
    }
  }

  lemma Extends(steps: seq<Step>, step: Step)
    requires Run(steps).Some? && Enabled(Run(steps).value, step)
    ensures Run(steps + [step]) == Some(Apply(Run(steps).value, step))
  {
    assert (steps + [step])[..|steps + [step]| - 1] == steps;
  }

  /** One dial that outlives Stop: it may succeed as late as it likes, its connection is then closed. */
  lemma {:induction false} LateDialIsClosed(steps: seq<Step>, conn: Conn)
    requires Run(steps).Some? && Run(steps).value.phase.Stopped?
    requires conn.id in Run(steps).value.flight && Run(steps).value.flight[conn.id].Pending?
    ensures var t := Run(steps + [DialSucceeds(conn), LateClose(conn.id)]);
            && t.Some? && t.value.phase.Stopped? && t.value.flight == Run(steps).value.flight - {conn.id}
            && conn.id in t.value.dialed && Closes(conn.id) in Events(t.value.log)
  {
    var both := steps + [DialSucceeds(conn), LateClose(conn.id)];
    assert both == steps + [DialSucceeds(conn)] + [LateClose(conn.id)];
    RunKeepsInv(steps);
    LateDialSteps(Run(steps).value, conn);
    hide Run, Inv, Apply, Enabled, Events;
    Extends(steps, DialSucceeds(conn));
    Extends(steps + [DialSucceeds(conn)], LateClose(conn.id));
    RunKeepsInv(both);
  }

  lemma LateDialSteps(s: State, conn: Conn)
    requires Numbered(s) && s.phase.Stopped? && conn.id in s.flight && s.flight[conn.id].Pending?
    ensures Enabled(s, DialSucceeds(conn)) && Enabled(Apply(s, DialSucceeds(conn)), LateClose(conn.id))
    ensures var t := Apply(Apply(s, DialSucceeds(conn)), LateClose(conn.id));
            && t.phase.Stopped? && t.flight == s.flight - {conn.id} && conn.id in t.dialed && Closes(conn.id) in t.past
  {
    hide Conserved;
  }

  /** An error the manager takes belongs to the connection it ends, and came from its watch or from a
      Reconnect call that read the channel while that connection was current. */
  lemma {:induction false} ConsumedErrorsAreTheirGenerations(steps: seq<Step>, i: nat)
    requires Run(steps).Some? && i < |Run(steps).value.log| && Run(steps).value.log[i].Consumes?
    ensures var log := Run(steps).value.log;
            var past := Events(log[..i]);
            && log[i].report.gen == log[i].gen
            && Up(log[i].gen) in past && Clears(log[i].gen) !in past
            && (log[i].report.FromWatch? ==> WatchSends(log[i].gen) in past)
            && (log[i].report.FromCall? ==>
                  exists k ::
                    && 0 <= k < i && log[k] == Reads(log[i].report.call, log[i].gen)
                    && Publishes(log[i].gen) in Events(log[..k]) && Clears(log[i].gen) !in Events(log[..k]))
  {
    RunKeepsInv(steps);
    var log := Run(steps).value.log;
    assert Legal(Events(log[..i]), log[i]);
    if log[i].report.FromCall? {
      var k := WhenLogged(log[..i], Reads(log[i].report.call, log[i].gen));
      assert log[..i][..k] == log[..k];
      assert Legal(Events(log[..k]), log[k]);
    }
  }

  /** OnUp comes after adoption, OnDown after OnUp, Close after both and after the connection was cleared;
      every adopted connection that is closed had its OnUp. */
  lemma {:induction false} CallbacksAreOrdered(steps: seq<Step>, id: nat, i: nat)
    requires Run(steps).Some? && i < |Run(steps).value.log|
    ensures var log := Run(steps).value.log;
            var past := Events(log[..i]);
            && (log[i] == Up(id) ==> Publishes(id) in past && Clears(id) !in past)
            && (log[i].Down? && log[i].id == id ==>
                Up(id) in past && Clears(id) !in past && Consumes(id, log[i].report) in past)
            && (log[i] == Closes(id) && Publishes(id) in past ==> Up(id) in past && Clears(id) in past)
  {
    RunKeepsInv(steps);
    var log := Run(steps).value.log;
    assert Legal(Events(log[..i]), log[i]);
    if log[i] == Closes(id) && Publishes(id) in Events(log[..i]) {
      var k := WhenLogged(log[..i], Clears(id));
      assert log[..i][..k] == log[..k];
      assert Legal(Events(log[..k]), log[k]);
      PastGrows(log, k, i);
    }
  }

  lemma {:induction false} PastGrows(log: seq<Event>, i: nat, j: nat)
    requires i <= j <= |log|
    ensures Events(log[..i]) <= Events(log[..j])
  {
    if i < j {
      PastGrows(log, i, j - 1);
      assert log[..j][..j - 1] == log[..j - 1];
    }
  }

  /** A connection has at most one OnDown. */
  lemma {:induction false} DownAtMostOnce(steps: seq<Step>, i: nat, j: nat)
    requires Run(steps).Some?
    requires var log := Run(steps).value.log; i < j < |log| && log[i].Down? && log[j].Down?
    ensures var log := Run(steps).value.log; log[i].id != log[j].id
  {
    RunKeepsInv(steps);
    var log := Run(steps).value.log;
    assert Legal(Events(log[..i]), log[i]) && Legal(Events(log[..j]), log[j]);
    if log[i].id == log[j].id {
      var a := WhenLogged(log[..i], Consumes(log[i].id, log[i].report));
      var b := WhenLogged(log[..j], Consumes(log[j].id, log[j].report));
      ConsumedAtMostOnce(log, a, b);
      assert log[..j][i] == log[i];
      PastKeeps(log[..j], i);
    }
  }

  lemma {:induction false} ConsumedAtMostOnce(log: seq<Event>, i: nat, j: nat)
    requires LegalLog(log) && i < |log| && j < |log|
    requires log[i].Consumes? && log[j].Consumes? && log[i].gen == log[j].gen
    ensures i == j
  {
    if i != j {
      var first, last := if i < j then i else j, if i < j then j else i;
      assert Legal(Events(log[..last]), log[last]);
      assert log[..last][first] == log[first];
      PastKeeps(log[..last], first);
    }
  }

  lemma {:induction false} WhenLogged(log: seq<Event>, e: Event) returns (k: nat)
    requires e in Events(log)
    ensures k < |log| && log[k] == e
  {
    if log[|log| - 1] == e {
      k := |log| - 1;
    } else {
      k := WhenLogged(log[..|log| - 1], e);
    }
  }

  // ---------- Stop never waits for a dial ----------

  predicate FinishesDial(step: Step) { step.DialFails? || step.DialSucceeds? }

  /** How far a stopping manager is from its return. */
  function Distance(m: Manager): nat {
    match m
    case Idle => 0
    case Backoff => 1
    case Dialing(_) => 1
    case Gate => 2
    case Discarding(_) => 3
    case Closing(_, stopping) => if stopping then 1 else 2
    case Dropping(_, stopping) => if stopping then 2 else 3
    case Lost(_, _) => 4
    case Watching(_) => 3
    case Announcing(_) => 5
    case Holding(_) => 4
  }

  function Remaining(s: State): nat { Distance(s.mgr) + |s.watches| }

  /** What a manager that has been asked to stop may do next. */
  function WayOut(m: Manager): Step
    requires !m.Idle?
  {
    match m
    case Backoff => WaitStops
    case Dialing(_) => StopWinsDial
    case Gate => GateOpen
    case Discarding(_) => DiscardCloses
    case Closing(_, _) => CloseReturns
    case Dropping(_, _) => Clear
    case Lost(_, _) => OnDownReturns
    case Watching(_) => StopWinsWatch
    case Announcing(_) => OnUpReturns
    case Holding(_) => HeldShut
  }

  lemma ManagerAdvances(s: State)
    requires s.phase.Stopping? && !s.mgr.Idle?
    ensures Enabled(s, WayOut(s.mgr)) && !FinishesDial(WayOut(s.mgr))
    ensures var t := Apply(s, WayOut(s.mgr));
            && t.phase.Stopping?
            && Distance(t.mgr) + (if s.mgr.Announcing? then 1 else 0) < Distance(s.mgr)
            && t.watches == (if s.mgr.Announcing? then s.watches + {s.mgr.conn.id} else s.watches)
  {
  }

  /** The next step of a stopping manager, or of a watch once the manager is gone. */
  lemma StopAdvances(s: State) returns (step: Step)
    requires s.phase.Stopping? && Remaining(s) > 0
    ensures Enabled(s, step) && !FinishesDial(step)
    ensures Apply(s, step).phase.Stopping? && Remaining(Apply(s, step)) < Remaining(s)
  {
    if s.mgr.Idle? {
      var id :| id in s.watches;
      step := WatchReturns(id);
    } else {
      step := WayOut(s.mgr);
      ManagerAdvances(s);
    }
  }

  /** From any point of any run in which Stop waits, Stop can return without one more dial finishing. */
  lemma {:induction false} StopNeverWaitsForADial(steps: seq<Step>) returns (more: seq<Step>)
    requires Run(steps).Some? && Run(steps).value.phase.Stopping?
    ensures Run(steps + more).Some? && Run(steps + more).value.phase.Stopped?
    ensures forall step <- more :: !FinishesDial(step)
    decreases Remaining(Run(steps).value)
  {
    var s := Run(steps).value;
    var step := StopReturns;
    if Remaining(s) > 0 {
      step := StopAdvances(s);
    }
    var next := steps + [step];
    assert next[..|next| - 1] == steps;
    more := [step];
    if Remaining(s) > 0 {
      var rest := StopNeverWaitsForADial(next);
      more := [step] + rest;
      assert steps + more == next + rest;
    }
  }

  // ---------- the first report wins ----------

  /** What a step tries to put into an error channel, if anything. */
  function Reports(s: State, step: Step): Option<Report> {
    match step
    case WatchFails(id) => Some(FromWatch(id))
    case CallSends(call) => if call in s.calls then Some(FromCall(call, s.calls[call])) else None
    case _ => None
  }

  /** The first report that anybody sent to this generation, in the whole run. */
  function FirstReport(steps: seq<Step>, gen: nat): Option<Report> {
    if steps == [] then None
    else
      var before := steps[..|steps| - 1];
      if FirstReport(before, gen).Some? then FirstReport(before, gen)
      else
        match Run(before)
        case None => None
        case Some(s) =>
          match Reports(s, steps[|steps| - 1])
          case None => None
          case Some(report) => if report.gen == gen then Some(report) else None
  }

  /** Until a generation's error is consumed, its channel holds the first report, or nothing if there is none. */
  ghost predicate HoldsFirst(s: State, gen: nat, first: Option<Report>) {
    && (gen !in s.sh.channels ==> first.None?)
    && (gen in s.sh.channels && (forall r :: Consumes(gen, r) !in s.past) ==> s.sh.channels[gen] == first)
  }

  lemma SendHoldsFirst(s: State, step: Step, gen: nat, first: Option<Report>)
    requires Attributed(s) && Enabled(s, step) && HoldsFirst(s, gen, first)
    requires step.WatchFails? || step.CallSends?
    ensures var report := Reports(s, step);
            HoldsFirst(Apply(s, step), gen,
                       if first.None? && report.Some? && report.value.gen == gen then report else first)
  {
  }

  lemma OtherStepHoldsFirst(s: State, step: Step, gen: nat, first: Option<Report>)
    requires Attributed(s) && Recorded(s) && Enabled(s, step) && HoldsFirst(s, gen, first)
    requires !step.WatchFails? && !step.CallSends? && (step.Publish? ==> s.mgr.conn.id !in s.sh.channels)
    ensures HoldsFirst(Apply(s, step), gen, first)
  {
  }

  lemma PublishedIsNew(s: State)
    requires Inv(s) && Enabled(s, Publish)
    ensures s.mgr.conn.id !in s.sh.channels
  {
    EmittedIsLegal(s, Publish);
  }

  lemma {:induction false} RunHoldsFirst(steps: seq<Step>, gen: nat)
    requires Run(steps).Some?
    ensures HoldsFirst(Run(steps).value, gen, FirstReport(steps, gen))
  {
    if steps != [] {
      var s, step := Run(steps[..|steps| - 1]).value, steps[|steps| - 1];
      RunHoldsFirst(steps[..|steps| - 1], gen);
      RunKeepsInv(steps[..|steps| - 1]);
      if step.Publish? {
        PublishedIsNew(s);
      }
      hide Apply, Enabled, HoldsFirst, Attributed, Recorded, Numbered, Conserved;
      if step.WatchFails? || step.CallSends? {
        SendHoldsFirst(s, step, gen, FirstReport(steps[..|steps| - 1], gen));
      } else {
        OtherStepHoldsFirst(s, step, gen, FirstReport(steps[..|steps| - 1], gen));
      }
    }
  }

  /** The error that ends a connection, and that OnDown is told, is the first one anybody reported for it. */
  lemma {:induction false} TakenIsTheFirstReport(steps: seq<Step>)
    requires Run(steps).Some? && Enabled(Run(steps).value, TakeReport)
    ensures var s := Run(steps).value;
            && FirstReport(steps, s.mgr.conn.id).Some?
            && Apply(s, TakeReport).mgr == Lost(s.mgr.conn, FirstReport(steps, s.mgr.conn.id).value)
  {
    RunKeepsInv(steps);
    RunHoldsFirst(steps, Run(steps).value.mgr.conn.id);
  }
}
