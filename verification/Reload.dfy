/**
 How a client keeps its connection in step with the settings: the config store's coalesced signal
 (internal/config/watch.go), the client's reload worker and OnUp re-check
 (internal/serial/client.go, internal/integrations/obs/client.go,
 internal/integrations/discord/client.go) and the connection manager, all interleaved. Also the serial
 client's state events.

 `live` is the client's own part of the store's current settings.
 */
module Reload {
  import opened Prelude
  import opened Signals
  import opened Reconnect
  import L = Lifecycle

  /** Serial and Discord read the settings before the connection, OBS the other way round. */
  datatype Order = SettingsFirst | ConnFirst

  datatype Worker =
    | Asleep                       // in the select between stop and the signal
    | Woken                        // took the signal
    | HasSettings(settings: Settings)
    | HasConn(conn: Conn)
    | Asking(about: Option<Conn>)  // about to enter Reconnect
    | Sending                      // inside Reconnect, holding a channel
    | Gone

  /** How far OnUp is with the connection being announced. */
  datatype Check = Unchecked | Rejecting | RejectSending | Settled

  datatype State = State(
    rc: L.State,
    live: Settings,
    signals: Signals,
    order: Order,
    worker: Worker,
    check: Check,
    stopping: bool,
    adopted: set<nat>, // connections whose `adopted` flag is set
    events: seq<bool>) // state events sent

  function Initial(order: Order, settings: Settings): State {
    State(L.INIT, settings, SILENT, order, Asleep, Settled, false, {}, [])
  }

  datatype Step =
    | Rc(step: L.Step)
    | Publishes(who: Publisher, settings: Settings)
    | Notifies(who: Publisher)
    | Wakes
    | WorkerReadsSettings
    | WorkerReadsConn(credentialsChanged: bool)
    | WorkerCallReads
    | WorkerCallSends
    | WorkerExits
    | OnUpChecks
    | OnUpCallReads
    | OnUpCallSends
    | ClientStops
    | ClientRestarts

  const WORKER_CALL: nat := 0
  const ON_UP_CALL: nat := 1

  /** The manager step a client step contains, if any. */
  function Inner(step: Step): Option<L.Step> {
    match step
    case Rc(inner) => Some(inner)
    case WorkerCallReads => Some(L.CallReads(WORKER_CALL))
    case WorkerCallSends => Some(L.CallSends(WORKER_CALL))
    case OnUpCallReads => Some(L.CallReads(ON_UP_CALL))
    case OnUpCallSends => Some(L.CallSends(ON_UP_CALL))
    case _ => None
  }

  predicate Open(s: State, step: Step) {
    match step
    case Rc(inner) =>
      match inner {
        case Start => !s.stopping
        case Stop => s.stopping
        case OnUpReturns => s.check.Settled?
        case CallReads(call) => call > ON_UP_CALL
        case CallSends(call) => call > ON_UP_CALL
        case _ => true
      }
    case Publishes(who, _) => MayPublish(s.signals, who)
    case Notifies(who) => who in s.signals.busy
    case Wakes => s.worker.Asleep? && s.signals.waiting
    case WorkerReadsSettings => if s.order.SettingsFirst? then s.worker.Woken? else s.worker.HasConn?
    case WorkerReadsConn(_) => if s.order.SettingsFirst? then s.worker.HasSettings? else s.worker.Woken?
    case WorkerCallReads => s.worker.Asking?
    case WorkerCallSends => s.worker.Sending?
    case WorkerExits => s.worker.Asleep? && s.stopping
    case OnUpChecks => s.rc.mgr.Announcing? && s.check.Unchecked?
    case OnUpCallReads => s.rc.mgr.Announcing? && s.check.Rejecting?
    case OnUpCallSends => s.rc.mgr.Announcing? && s.check.RejectSending?
    case ClientStops => !s.stopping
    case ClientRestarts => s.stopping && s.worker.Gone? && s.rc.phase.Stopped?
  }

  predicate Enabled(s: State, step: Step) {
    Open(s, step) && (Inner(step).Some? ==> L.Enabled(s.rc, Inner(step).value))
  }

  /** The connection a manager step closes, if any. */
  function ClosedBy(rc: L.State, inner: L.Step): Option<nat>
    requires L.Enabled(rc, inner)
  {
    match L.Emitted(rc, inner)
    case Some(Closes(id)) => Some(id)
    case _ => None
  }

  /** Closing a connection whose flag is set clears the flag and sends one event. */
  function AfterClose(s: State, closed: Option<nat>): State {
    if closed.Some? && closed.value in s.adopted
    then s.(adopted := s.adopted - {closed.value}, events := s.events + [false])
    else s
  }

  function Apply(s: State, step: Step): State
    requires Enabled(s, step)
  {
    match step
    case Rc(inner) =>
      var t := AfterClose(s.(rc := L.Apply(s.rc, inner)), ClosedBy(s.rc, inner));
      if inner.Publish? then t.(check := Unchecked) else t
    case Publishes(who, settings) => s.(live := settings, signals := PublishedBy(s.signals, who))
    case Notifies(who) => s.(signals := NotifiedBy(s.signals, who))
    case Wakes => s.(signals := Taken(s.signals), worker := Woken)
    case WorkerReadsSettings =>
      if s.order.SettingsFirst? then s.(worker := HasSettings(s.live))
      else s.(worker := if s.worker.conn.snapshot != s.live then Asking(Some(s.worker.conn)) else Asleep)
    case WorkerReadsConn(credentialsChanged) =>
      if s.order.SettingsFirst? then
        match s.rc.sh.current {
          case None => s.(worker := if credentialsChanged then Asking(None) else Asleep)
          case Some(conn) => s.(worker := if conn.snapshot != s.worker.settings then Asking(Some(conn)) else Asleep)
        }
      else
        match s.rc.sh.current {
          case None => s.(worker := Asleep)
          case Some(conn) => s.(worker := HasConn(conn))
        }
    case WorkerCallReads =>
      s.(rc := L.Apply(s.rc, L.CallReads(WORKER_CALL)), worker := if s.rc.sh.current.Some? then Sending else Asleep)
    case WorkerCallSends => s.(rc := L.Apply(s.rc, L.CallSends(WORKER_CALL)), worker := Asleep)
    case WorkerExits => s.(worker := Gone)
    case OnUpChecks =>
      var conn := s.rc.mgr.conn;
      if conn.snapshot != s.live then s.(check := Rejecting)
      else s.(check := Settled, adopted := s.adopted + {conn.id}, events := s.events + [true])
    case OnUpCallReads =>
      s.(rc := L.Apply(s.rc, L.CallReads(ON_UP_CALL)),
         check := if s.rc.sh.current.Some? then RejectSending else Settled)
    case OnUpCallSends => s.(rc := L.Apply(s.rc, L.CallSends(ON_UP_CALL)), check := Settled)
    case ClientStops => s.(stopping := true)
    case ClientRestarts => s.(stopping := false, worker := Asleep, signals := Taken(s.signals))
  }

  function Run(order: Order, settings: Settings, steps: seq<Step>): Option<State> {
    if steps == [] then Some(Initial(order, settings))
    else
      match Run(order, settings, steps[..|steps| - 1])
      case None => None
      case Some(s) => if Enabled(s, steps[|steps| - 1]) then Some(Apply(s, steps[|steps| - 1])) else None
  }

  // ---------- a client run is a manager run ----------

  function Project(steps: seq<Step>): seq<L.Step> {
    if steps == [] then []
    else
      var before := Project(steps[..|steps| - 1]);
      match Inner(steps[|steps| - 1])
      case None => before
      case Some(inner) => before + [inner]
  }

  lemma InnerApplied(s: State, step: Step)
    requires Enabled(s, step)
    ensures Apply(s, step).rc == (match Inner(step) case None => s.rc case Some(inner) => L.Apply(s.rc, inner))
  {
  }

  /** So everything proved about the manager's runs holds of the manager inside a client. */
  lemma {:induction false} ClientRunsAreManagerRuns(order: Order, settings: Settings, steps: seq<Step>)
    requires Run(order, settings, steps).Some?
    ensures L.Run(Project(steps)) == Some(Run(order, settings, steps).value.rc)
  {
    if steps != [] {
      var before, step := steps[..|steps| - 1], steps[|steps| - 1];
      ClientRunsAreManagerRuns(order, settings, before);
      InnerApplied(Run(order, settings, before).value, step);
      if Inner(step).Some? {
        var inner := Project(steps);
        assert inner[..|inner| - 1] == Project(before);
      }
    }
  }

  // ---------- no lost wakeup ----------

  /** The manager is going to give this connection up without anything further. */
  predicate Ending(rc: L.State, conn: Conn) {
    || (conn.id in rc.sh.channels && rc.sh.channels[conn.id].Some?)
    || rc.mgr.Lost? || rc.mgr.Dropping?
  }

  /** OnUp has not let this connection pass, or is turning it away. */
  predicate UnderCheck(s: State) {
    s.rc.mgr.Announcing? && !s.check.Settled?
  }

  /** The worker is handling a signal and will turn this connection away. */
  predicate Noticing(s: State, conn: Conn) {
    match s.worker
    case Woken => true
    case HasSettings(settings) => settings != conn.snapshot
    case HasConn(c) => c == conn
    case Asking(about) => about == Some(conn)
    case Sending => WORKER_CALL in s.rc.calls && s.rc.calls[WORKER_CALL] == conn.id
    case _ => false
  }

  /** Whatever connection is current with parameters that are no longer live, something is about it. */
  predicate NoStaleConnection(s: State) {
    s.rc.sh.current.Some? && s.rc.sh.current.value.snapshot != s.live ==>
      var conn := s.rc.sh.current.value;
      Ending(s.rc, conn) || UnderCheck(s) || Announced(s.signals) || Noticing(s, conn)
  }

  predicate Inv(s: State) {
    && NoStaleConnection(s)
    && (s.worker.HasSettings? && s.worker.settings != s.live ==> Announced(s.signals))
    && (s.order.SettingsFirst? ==> !s.worker.HasConn?)
    && (s.order.ConnFirst? ==> !s.worker.HasSettings?)
    && (s.rc.mgr.Announcing? && s.check.RejectSending? ==>
        ON_UP_CALL in s.rc.calls && s.rc.calls[ON_UP_CALL] == s.rc.mgr.conn.id)
  }

  /** What a manager step can do to the current connection and to its end. */
  lemma CurrentMoves(rc: L.State, inner: L.Step)
    requires L.Numbered(rc) && L.Enabled(rc, inner)
    ensures var t := L.Apply(rc, inner);
            && (t.sh.current != rc.sh.current ==> inner.Publish? || t.sh.current == None)
            && (inner.Publish? ==> t.mgr.Announcing? && t.sh.current == Some(t.mgr.conn))
            && (t.mgr.Announcing? && !inner.Publish? ==> t.mgr == rc.mgr)
            && (rc.mgr.Announcing? && !inner.OnUpReturns? ==> t.mgr == rc.mgr)
            && (t.sh.current.Some? && t.sh.current == rc.sh.current && Ending(rc, rc.sh.current.value) ==>
                Ending(t, t.sh.current.value))
            && (!inner.CallReads? && !inner.CallSends? ==> t.calls == rc.calls)
  {
  }

  lemma CallMoves(rc: L.State, call: nat)
    requires L.Numbered(rc)
    ensures L.Enabled(rc, L.CallReads(call)) ==>
              var t := L.Apply(rc, L.CallReads(call));
              && t.sh == rc.sh && t.mgr == rc.mgr
              && t.calls == (if rc.sh.current.Some? then rc.calls[call := rc.sh.current.value.id] else rc.calls)
    ensures L.Enabled(rc, L.CallSends(call)) ==>
              var t := L.Apply(rc, L.CallSends(call));
              && t.sh.current == rc.sh.current && t.mgr == rc.mgr && t.calls == rc.calls - {call}
              && rc.calls[call] in t.sh.channels && t.sh.channels[rc.calls[call]].Some?
              && (rc.sh.current.Some? && Ending(rc, rc.sh.current.value) ==> Ending(t, rc.sh.current.value))
  {
  }

  lemma ManagerStepKeepsInv(s: State, inner: L.Step)
    requires L.Numbered(s.rc) && Inv(s) && Enabled(s, Rc(inner))
    ensures Inv(Apply(s, Rc(inner)))
  {
    hide L.Apply, L.Enabled, L.Numbered;
    CurrentMoves(s.rc, inner);
    if inner.CallReads? || inner.CallSends? {
      CallMoves(s.rc, inner.call);
    }
  }

  predicate OfWorker(step: Step) {
    step.Wakes? || step.WorkerReadsSettings? || step.WorkerReadsConn? || step.WorkerCallReads? || step.WorkerCallSends?
  }

  lemma WorkerStepKeepsInv(s: State, step: Step)
    requires L.Numbered(s.rc) && Inv(s) && Enabled(s, step) && OfWorker(step)
    ensures Inv(Apply(s, step))
  {
    hide L.Apply, L.Enabled, L.Numbered;
    CallMoves(s.rc, WORKER_CALL);
  }

  predicate OfOnUp(step: Step) { step.OnUpChecks? || step.OnUpCallReads? || step.OnUpCallSends? }

  lemma OnUpStepKeepsInv(s: State, step: Step)
    requires L.Numbered(s.rc) && Inv(s) && Enabled(s, step) && OfOnUp(step)
    ensures Inv(Apply(s, step))
  {
    assert s.rc.sh.current == L.Adopted(s.rc.mgr);
    hide L.Apply, L.Enabled, L.Numbered;
    CallMoves(s.rc, ON_UP_CALL);
  }

  lemma OtherStepKeepsInv(s: State, step: Step)
    requires L.Numbered(s.rc) && Inv(s) && Enabled(s, step) && !step.Rc? && !OfWorker(step) && !OfOnUp(step)
    ensures Inv(Apply(s, step))
  {
  }

  lemma StepKeepsInv(s: State, step: Step)
    requires L.Numbered(s.rc) && Inv(s) && Enabled(s, step)
    ensures Inv(Apply(s, step))
  {
    hide *;
    if step.Rc? {
      ManagerStepKeepsInv(s, step.step);
    } else if OfWorker(step) {
      WorkerStepKeepsInv(s, step);
    } else if OfOnUp(step) {
      OnUpStepKeepsInv(s, step);
    } else {
      OtherStepKeepsInv(s, step);
    }
  }

  lemma {:induction false} RunKeepsInv(order: Order, settings: Settings, steps: seq<Step>)
    requires Run(order, settings, steps).Some?
    ensures Inv(Run(order, settings, steps).value) && L.Inv(Run(order, settings, steps).value.rc)
  {
    hide L.Inv;
    ClientRunsAreManagerRuns(order, settings, steps);
    L.RunKeepsInv(Project(steps));
    if steps != [] {
      var before := Run(order, settings, steps[..|steps| - 1]).value;
      RunKeepsInv(order, settings, steps[..|steps| - 1]);
      NumberedOf(before.rc);
      StepKeepsInv(before, steps[|steps| - 1]);
    }
  }

  lemma NumberedOf(rc: L.State)
    requires L.Inv(rc)
    ensures L.Numbered(rc)
  {
  }

  /** In every state of every run: a current connection dialed with other parameters than the live
      ones is being ended, being checked, about to be signalled, or being handled. */
  lemma {:induction false} StaleConnectionsAreSeenTo(order: Order, settings: Settings, steps: seq<Step>)
    requires Run(order, settings, steps).Some?
    ensures NoStaleConnection(Run(order, settings, steps).value)
  {
    RunKeepsInv(order, settings, steps);
  }

  /** Nothing is on its way: no signal, no publisher, no worker or OnUp at work, no buffered error. */
  predicate Quiet(s: State) {
    && !Announced(s.signals)
    && (s.worker.Asleep? || s.worker.Gone?)
    && s.rc.mgr.Watching?
    && s.rc.mgr.conn.id in s.rc.sh.channels && s.rc.sh.channels[s.rc.mgr.conn.id].None?
  }

  /** So when everything is quiet the connection agrees with the settings. */
  lemma {:induction false} QuietMeansUpToDate(order: Order, settings: Settings, steps: seq<Step>)
    requires Run(order, settings, steps).Some? && Quiet(Run(order, settings, steps).value)
    ensures var s := Run(order, settings, steps).value;
            s.rc.sh.current == Some(s.rc.mgr.conn) && s.rc.mgr.conn.snapshot == s.live
  {
    RunKeepsInv(order, settings, steps);
  }

  // ---------- state events ----------

  /** The connection between its publishing and its Close. */
  function Carried(m: L.Manager): Option<Conn> {
    match m
    case Closing(conn, _) => Some(conn)
    case _ => L.Adopted(m)
  }

  /** The events so far are true, false, true, ... and end in true exactly while a flag is set. */
  ghost predicate Alternating(s: State) {
    && (forall i :: 0 <= i < |s.events| ==> s.events[i] == (i % 2 == 0))
    && (if |s.events| % 2 == 0 then s.adopted == {}
        else Carried(s.rc.mgr).Some? && s.adopted == {Carried(s.rc.mgr).value.id})
    && (UnderCheck(s) ==> s.adopted == {})
  }

  /** The connection closed by a dial that came too late or was not wanted is not the carried one. */
  lemma UnadoptedCloses(rc: L.State, inner: L.Step)
    requires L.Numbered(rc) && L.Conserved(rc) && L.Enabled(rc, inner) && (inner.LateClose? || inner.DiscardCloses?)
    ensures Carried(rc.mgr).Some? && ClosedBy(rc, inner).Some? ==> ClosedBy(rc, inner).value != Carried(rc.mgr).value.id
    ensures inner.DiscardCloses? ==> Carried(rc.mgr).None?
  {
    if inner.LateClose? && rc.flight[inner.id].Succeeded? && Carried(rc.mgr).Some? {
      assert L.InFlight(rc, inner.id);
      assert L.IsHeld(rc, Carried(rc.mgr).value.id) || L.IsCurrent(rc, Carried(rc.mgr).value.id);
    }
  }

  lemma CarriedMoves(rc: L.State, inner: L.Step)
    requires L.Enabled(rc, inner)
    ensures var t := L.Apply(rc, inner);
            && (inner.CloseReturns? ==> Carried(t.mgr).None?)
            && (inner.Publish? ==> Carried(rc.mgr).None?)
            && (Carried(rc.mgr).Some? && !inner.CloseReturns? && !inner.Start? ==> Carried(t.mgr) == Carried(rc.mgr))
            && (inner.Start? ==> rc.phase.Stopped? || t == rc)
            && (t.mgr.Announcing? && !inner.Publish? ==> t.mgr == rc.mgr)
  {
  }

  lemma WhoCloses(rc: L.State, inner: L.Step)
    requires L.Enabled(rc, inner)
    ensures inner.CloseReturns? ==> rc.mgr.Closing? && ClosedBy(rc, inner) == Some(rc.mgr.conn.id)
    ensures !inner.CloseReturns? && !inner.DiscardCloses? && !inner.LateClose? ==> ClosedBy(rc, inner).None?
  {
  }

  lemma CloseKeepsAlternating(s: State)
    requires Alternating(s) && Enabled(s, Rc(L.CloseReturns))
    ensures Alternating(Apply(s, Rc(L.CloseReturns)))
  {
    CarriedMoves(s.rc, L.CloseReturns);
    WhoCloses(s.rc, L.CloseReturns);
    hide L.Apply, L.Enabled, L.Emitted, ClosedBy;
  }

  lemma UnclosingStepKeepsAlternating(s: State, inner: L.Step)
    requires L.Numbered(s.rc) && L.Conserved(s.rc) && Alternating(s) && Enabled(s, Rc(inner)) && !inner.CloseReturns?
    ensures Alternating(Apply(s, Rc(inner)))
  {
    if inner.LateClose? || inner.DiscardCloses? {
      UnadoptedCloses(s.rc, inner);
    }
    assert s.rc.phase.Stopped? ==> s.rc.mgr.Idle?;
    hide L.Apply, L.Numbered, L.Conserved, L.Enabled, L.Emitted, ClosedBy;
    CarriedMoves(s.rc, inner);
    WhoCloses(s.rc, inner);
  }

  lemma ManagerStepKeepsAlternating(s: State, inner: L.Step)
    requires L.Numbered(s.rc) && L.Conserved(s.rc) && Alternating(s) && Enabled(s, Rc(inner))
    ensures Alternating(Apply(s, Rc(inner)))
  {
    hide L.Numbered, L.Conserved, Alternating, Apply, Enabled;
    if inner.CloseReturns? {
      CloseKeepsAlternating(s);
    } else {
      UnclosingStepKeepsAlternating(s, inner);
    }
  }

  lemma ClientStepKeepsManager(s: State, step: Step)
    requires Enabled(s, step) && !step.Rc?
    ensures Apply(s, step).rc.mgr == s.rc.mgr
  {
    CallKeepsManager(s.rc, WORKER_CALL);
    CallKeepsManager(s.rc, ON_UP_CALL);
    hide L.Apply, L.Enabled;
  }

  lemma CallKeepsManager(rc: L.State, call: nat)
    ensures L.Enabled(rc, L.CallReads(call)) ==> L.Apply(rc, L.CallReads(call)).mgr == rc.mgr
    ensures L.Enabled(rc, L.CallSends(call)) ==> L.Apply(rc, L.CallSends(call)).mgr == rc.mgr
  {
  }

  lemma CheckKeepsAlternating(s: State)
    requires Alternating(s) && Enabled(s, OnUpChecks)
    ensures Alternating(Apply(s, OnUpChecks))
  {
    assert s.adopted == {};
  }

  lemma CallStepIsSilent(s: State, step: Step)
    requires Enabled(s, step) && !step.Rc? && Inner(step).Some?
    ensures var t := Apply(s, step); t.events == s.events && t.adopted == s.adopted && (UnderCheck(t) ==> UnderCheck(s))
  {
    ClientStepKeepsManager(s, step);
    hide L.Apply, L.Enabled;
  }

  /** No other step of the client sends an event or sets a flag. */
  lemma ClientStepIsSilent(s: State, step: Step)
    requires Enabled(s, step) && !step.Rc? && !step.OnUpChecks?
    ensures var t := Apply(s, step);
            t.events == s.events && t.adopted == s.adopted && t.rc.mgr == s.rc.mgr && (UnderCheck(t) ==> UnderCheck(s))
  {
    ClientStepKeepsManager(s, step);
    if Inner(step).Some? {
      hide Apply, Enabled, UnderCheck;
      CallStepIsSilent(s, step);
    } else {
      hide L.Apply, L.Enabled;
    }
  }

  lemma ClientStepKeepsAlternating(s: State, step: Step)
    requires Alternating(s) && Enabled(s, step) && !step.Rc?
    ensures Alternating(Apply(s, step))
  {
    if step.OnUpChecks? {
      CheckKeepsAlternating(s);
    } else {
      ClientStepIsSilent(s, step);
      hide Apply, Enabled, UnderCheck;
    }
  }

  lemma {:induction false} RunKeepsAlternating(order: Order, settings: Settings, steps: seq<Step>)
    requires Run(order, settings, steps).Some?
    ensures Alternating(Run(order, settings, steps).value)
  {
    if steps != [] {
      var before, step := Run(order, settings, steps[..|steps| - 1]).value, steps[|steps| - 1];
      RunKeepsAlternating(order, settings, steps[..|steps| - 1]);
      assert L.Numbered(before.rc) && L.Conserved(before.rc) by {
        RunKeepsInv(order, settings, steps[..|steps| - 1]);
      }
      hide L.Numbered, L.Conserved, Alternating, Apply, Enabled;
      if step.Rc? {
        ManagerStepKeepsAlternating(before, step.step);
      } else {
        ClientStepKeepsAlternating(before, step);
      }
    }
  }

  /** The state events of any run are a prefix of true, false, true, ... and balanced once Stop has returned. */
  lemma {:induction false} StateEventsAlternate(order: Order, settings: Settings, steps: seq<Step>)
    requires Run(order, settings, steps).Some?
    ensures var s := Run(order, settings, steps).value;
            && (forall i :: 0 <= i < |s.events| ==> s.events[i] == (i % 2 == 0))
            && (s.rc.phase.Stopped? ==> |s.events| % 2 == 0)
  {
    RunKeepsAlternating(order, settings, steps);
    RunKeepsInv(order, settings, steps);
  }

  lemma ManagerStepSpeaks(s: State, inner: L.Step)
    requires L.Numbered(s.rc) && L.Conserved(s.rc) && Alternating(s) && Enabled(s, Rc(inner))
    ensures var t := Apply(s, Rc(inner));
            || t.events == s.events
            || (t.events == s.events + [false] && inner.CloseReturns? && s.rc.mgr.conn.id in s.adopted)
  {
    if inner.LateClose? || inner.DiscardCloses? {
      UnadoptedCloses(s.rc, inner);
    }
    hide L.Apply, L.Numbered, L.Conserved, L.Enabled, L.Emitted, ClosedBy;
    WhoCloses(s.rc, inner);
  }

  lemma StepSpeaks(s: State, step: Step)
    requires L.Numbered(s.rc) && L.Conserved(s.rc) && Alternating(s) && Enabled(s, step)
    ensures var t := Apply(s, step);
            && (t.events == s.events || t.events == s.events + [true] || t.events == s.events + [false])
            && (t.events == s.events + [true] ==> step.OnUpChecks? && s.rc.mgr.conn.snapshot == s.live)
            && (t.events == s.events + [false] ==> step == Rc(L.CloseReturns) && s.rc.mgr.conn.id in s.adopted)
  {
    var t := Apply(s, step);
    assert |t.events| > |s.events| ==> t.events[|s.events|] == step.OnUpChecks?;
    if step.Rc? {
      hide Apply, Enabled, L.Numbered, L.Conserved, Alternating;
      ManagerStepSpeaks(s, step.step);
    } else if !step.OnUpChecks? {
      hide Apply, Enabled;
      ClientStepIsSilent(s, step);
    }
  }

  /** Dials that come too late, and connections that OnUp turned away, are closed without an event. */
  lemma {:induction false} OnlyAdoptedConnectionsSpeak(order: Order, settings: Settings, steps: seq<Step>, step: Step)
    requires Run(order, settings, steps).Some? && Enabled(Run(order, settings, steps).value, step)
    ensures var s := Run(order, settings, steps).value;
            var t := Apply(s, step);
            && (t.events == s.events || t.events == s.events + [true] || t.events == s.events + [false])
            && (t.events == s.events + [true] ==> step.OnUpChecks? && s.rc.mgr.conn.snapshot == s.live)
            && (t.events == s.events + [false] ==> step == Rc(L.CloseReturns) && s.rc.mgr.conn.id in s.adopted)
  {
    RunKeepsAlternating(order, settings, steps);
    RunKeepsInv(order, settings, steps);
    hide Apply, Enabled, Alternating, L.Numbered, L.Conserved, Run;
    StepSpeaks(Run(order, settings, steps).value, step);
  }
}
