/**
 The other half of no lost wakeup: whatever has happened to a client that is not stopping, it can still
 come to rest with a connection that was dialed with the live settings, without anything more being
 published. Every step towards that is named, and each brings it strictly closer.
 */
module Settling {
  import opened Prelude
  import opened Reconnect
  import opened Signals
  import opened Reload
  import L = Lifecycle

  // ---------- who is inside Reconnect ----------

  ghost predicate Ready(s: State) {
    && (WORKER_CALL in s.rc.calls <==> s.worker.Sending?)
    && (ON_UP_CALL in s.rc.calls ==> s.rc.mgr.Announcing? && s.check.RejectSending?)
    && (s.rc.phase.Stopping? || s.worker.Gone? ==> s.stopping)
  }

  lemma ManagerStepKeepsReady(s: State, inner: L.Step)
    requires L.Numbered(s.rc) && Ready(s) && Enabled(s, Rc(inner))
    ensures Ready(Apply(s, Rc(inner)))
  {
    CallsOfOthersStay(s.rc, inner);
    PhaseMoves(s.rc, inner);
    CurrentMoves(s.rc, inner);
    hide L.Apply, L.Enabled, L.Numbered, ClosedBy;
  }

  lemma CallsOfOthersStay(rc: L.State, inner: L.Step)
    requires L.Enabled(rc, inner)
    ensures forall call :: !(inner.CallReads? && inner.call == call) && !(inner.CallSends? && inner.call == call) ==>
                             (call in L.Apply(rc, inner).calls <==> call in rc.calls)
  {
  }

  lemma PhaseMoves(rc: L.State, inner: L.Step)
    requires L.Enabled(rc, inner)
    ensures L.Apply(rc, inner).phase.Stopping? ==> rc.phase.Stopping? || inner.Stop?
  {
  }

  lemma ClientStepKeepsReady(s: State, step: Step)
    requires L.Numbered(s.rc) && Ready(s) && Enabled(s, step) && !step.Rc?
    ensures Ready(Apply(s, step))
  {
    CallMoves(s.rc, WORKER_CALL);
    CallMoves(s.rc, ON_UP_CALL);
    CallKeepsPhase(s.rc, WORKER_CALL);
    CallKeepsPhase(s.rc, ON_UP_CALL);
    assert s.rc.mgr.Announcing? ==> s.rc.sh.current.Some?;
    hide L.Apply, L.Enabled, L.Numbered;
  }

  lemma CallKeepsPhase(rc: L.State, call: nat)
    ensures L.Enabled(rc, L.CallReads(call)) ==> L.Apply(rc, L.CallReads(call)).phase == rc.phase
    ensures L.Enabled(rc, L.CallSends(call)) ==> L.Apply(rc, L.CallSends(call)).phase == rc.phase
  {
  }

  lemma {:induction false} RunKeepsReady(order: Order, settings: Settings, steps: seq<Step>)
    requires Run(order, settings, steps).Some?
    ensures Ready(Run(order, settings, steps).value)
  {
    if steps != [] {
      var before, step := Run(order, settings, steps[..|steps| - 1]).value, steps[|steps| - 1];
      RunKeepsReady(order, settings, steps[..|steps| - 1]);
      RunKeepsInv(order, settings, steps[..|steps| - 1]);
      assert L.Numbered(before.rc);
      hide L.Inv, L.Numbered, Inv, Ready, Apply, Enabled;
      if step.Rc? {
        ManagerStepKeepsReady(before, step.step);
      } else {
        ClientStepKeepsReady(before, step);
      }
    }
  }

  // ---------- how far from rest ----------

  predicate Disturbs(step: Step) { step.Publishes? || step.ClientStops? }

  function WorkerRank(s: State): nat {
    (if s.signals.waiting then 8 else 0) +
    match s.worker
    case Asleep => 0
    case Gone => 0
    case Sending => 1
    case Asking(_) => 2
    case HasConn(_) => 3
    case HasSettings(_) => 3
    case Woken => 4
  }

  predicate Full(rc: L.State, conn: Conn) { conn.id in rc.sh.channels && rc.sh.channels[conn.id].Some? }

  /** How many steps the manager and OnUp are from watching a connection of the live settings, at most. */
  function ManagerRank(s: State): nat {
    match s.rc.mgr
    case Watching(conn) => if Full(s.rc, conn) then 11 else 0
    case Announcing(conn) =>
      var passes := conn.snapshot == s.live && !Full(s.rc, conn);
      match s.check {
        case Settled => if passes then 1 else 12
        case Unchecked => if passes then 2 else 15
        case Rejecting => 14
        case RejectSending => 13
      }
    case Holding(conn) => if conn.snapshot == s.live then 3 else 8
    case Dialing(id) =>
      if id !in s.rc.flight then 0
      else
        match s.rc.flight[id] {
          case Succeeded(conn) => if conn.snapshot == s.live then 4 else 9
          case Pending => 5
          case Failed => 8
        }
    case Gate => 6
    case Idle => 7
    case Backoff => 7
    case Discarding(_) => 7
    case Closing(_, _) => 8
    case Dropping(_, _) => 9
    case Lost(_, _) => 10
  }

  /** The manager's or OnUp's next step on the way; dials succeed. */
  function Drive(s: State): Step {
    match s.rc.mgr
    case Watching(_) => Rc(L.TakeReport)
    case Announcing(_) =>
      match s.check {
        case Settled => Rc(L.OnUpReturns)
        case Unchecked => OnUpChecks
        case Rejecting => OnUpCallReads
        case RejectSending => OnUpCallSends
      }
    case Holding(conn) => if conn.snapshot == s.live then Rc(L.Publish) else Rc(L.HeldShut)
    case Dialing(id) =>
      if id !in s.rc.flight || s.rc.flight[id].Pending? then Rc(L.DialSucceeds(Conn(id, s.live)))
      else if s.rc.flight[id].Failed? then Rc(L.TakeFailure)
      else Rc(L.TakeConn)
    case Gate => Rc(L.GateOpen)
    case Idle => Rc(L.Start)
    case Backoff => Rc(L.WaitElapses)
    case Discarding(_) => Rc(L.DiscardCloses)
    case Closing(_, _) => Rc(L.CloseReturns)
    case Dropping(_, _) => Rc(L.Clear)
    case Lost(_, _) => Rc(L.OnDownReturns)
  }

  /** The worker's next step. */
  function Handle(s: State): Step {
    match s.worker
    case Asleep => Wakes
    case Gone => Wakes
    case Woken => if s.order.SettingsFirst? then WorkerReadsSettings else WorkerReadsConn(false)
    case HasSettings(_) => WorkerReadsConn(false)
    case HasConn(_) => WorkerReadsSettings
    case Asking(_) => WorkerCallReads
    case Sending => WorkerCallSends
  }

  /** What no step on the way changes. */
  predicate Alike(s: State, t: State) { t.live == s.live && t.order == s.order && t.stopping == s.stopping }

  lemma NotifyAdvances(s: State, who: Publisher)
    requires who in s.signals.busy
    ensures Enabled(s, Notifies(who)) && Alike(s, Apply(s, Notifies(who)))
    ensures |Apply(s, Notifies(who)).signals.busy| < |s.signals.busy|
  {
  }

  lemma WorkerAdvances(s: State)
    requires L.Numbered(s.rc) && L.Attributed(s.rc) && Inv(s) && Ready(s) && !s.stopping && WorkerRank(s) > 0
    ensures Enabled(s, Handle(s)) && !Disturbs(Handle(s)) && Alike(s, Apply(s, Handle(s)))
    ensures Apply(s, Handle(s)).signals.busy == s.signals.busy && WorkerRank(Apply(s, Handle(s))) < WorkerRank(s)
  {
    assert WORKER_CALL in s.rc.calls ==> s.rc.calls[WORKER_CALL] in s.rc.sh.channels;
    CallsAreOpen(s.rc, WORKER_CALL);
    hide L.Apply, L.Enabled, L.Numbered, L.Attributed, NoStaleConnection;
  }

  lemma CallsAreOpen(rc: L.State, call: nat)
    ensures call !in rc.calls ==> L.Enabled(rc, L.CallReads(call))
    ensures call in rc.calls && rc.calls[call] in rc.sh.channels ==> L.Enabled(rc, L.CallSends(call))
  {
  }

  predicate OfOnUpCall(step: Step) { step.OnUpCallReads? || step.OnUpCallSends? }

  lemma OnUpCallAdvances(s: State)
    requires L.Numbered(s.rc) && L.Attributed(s.rc) && Inv(s) && Ready(s) && OfOnUpCall(Drive(s))
    ensures Enabled(s, Drive(s)) && Alike(s, Apply(s, Drive(s)))
    ensures Apply(s, Drive(s)).signals == s.signals && Apply(s, Drive(s)).worker == s.worker
    ensures ManagerRank(Apply(s, Drive(s))) < ManagerRank(s)
  {
    assert s.rc.sh.current == Some(s.rc.mgr.conn);
    assert ON_UP_CALL in s.rc.calls ==> s.rc.calls[ON_UP_CALL] in s.rc.sh.channels;
    CallsAreOpen(s.rc, ON_UP_CALL);
    CallMoves(s.rc, ON_UP_CALL);
    hide L.Apply, L.Enabled, L.Numbered, L.Attributed, NoStaleConnection;
  }

  /** A connection is being dialed, was dialed, or is given up before it was adopted. */
  predicate Approaching(m: L.Manager) {
    m.Idle? || m.Gate? || m.Backoff? || m.Dialing? || m.Holding? || m.Discarding?
  }

  lemma ApproachAdvances(s: State)
    requires L.Numbered(s.rc) && Ready(s) && !s.stopping && !OfOnUpCall(Drive(s))
    requires Approaching(s.rc.mgr)
    ensures Enabled(s, Drive(s)) && !Disturbs(Drive(s)) && Alike(s, Apply(s, Drive(s)))
    ensures Apply(s, Drive(s)).signals == s.signals && Apply(s, Drive(s)).worker == s.worker
    ensures ManagerRank(Apply(s, Drive(s))) < ManagerRank(s)
  {
  }

  lemma LeavingAdvances(s: State)
    requires L.Numbered(s.rc) && Ready(s) && !s.stopping && !OfOnUpCall(Drive(s))
    requires s.rc.mgr.Watching? ==> Full(s.rc, s.rc.mgr.conn)
    requires !Approaching(s.rc.mgr)
    ensures Enabled(s, Drive(s)) && !Disturbs(Drive(s)) && Alike(s, Apply(s, Drive(s)))
    ensures Apply(s, Drive(s)).signals == s.signals && Apply(s, Drive(s)).worker == s.worker
    ensures ManagerRank(Apply(s, Drive(s))) < ManagerRank(s)
  {
  }

  lemma ManagerAdvances(s: State)
    requires L.Numbered(s.rc) && Ready(s) && !s.stopping && !OfOnUpCall(Drive(s))
    requires s.rc.mgr.Watching? ==> Full(s.rc, s.rc.mgr.conn)
    ensures Enabled(s, Drive(s)) && !Disturbs(Drive(s)) && Alike(s, Apply(s, Drive(s)))
    ensures Apply(s, Drive(s)).signals == s.signals && Apply(s, Drive(s)).worker == s.worker
    ensures ManagerRank(Apply(s, Drive(s))) < ManagerRank(s)
  {
    hide L.Numbered, Ready, Apply, Enabled, ManagerRank, Drive, OfOnUpCall;
    if Approaching(s.rc.mgr) {
      ApproachAdvances(s);
    } else {
      LeavingAdvances(s);
    }
  }

  /** A client that is not at rest has a step towards it. */
  lemma Advances(s: State) returns (step: Step)
    requires L.Inv(s.rc) && Inv(s) && Ready(s) && !s.stopping && !Quiet(s)
    ensures Enabled(s, step) && !Disturbs(step) && Alike(s, Apply(s, step))
    ensures var t := Apply(s, step);
            || |t.signals.busy| < |s.signals.busy|
            || (t.signals.busy == s.signals.busy && WorkerRank(t) < WorkerRank(s))
            || (t.signals == s.signals && WorkerRank(t) == WorkerRank(s) && ManagerRank(t) < ManagerRank(s))
  {
    assert L.Numbered(s.rc) && L.Attributed(s.rc);
    hide Apply, Enabled, L.Inv, L.Numbered, L.Attributed, ManagerRank, Drive, Handle;
    if s.signals.busy != {} {
      var who :| who in s.signals.busy;
      step := Notifies(who);
      NotifyAdvances(s, who);
    } else if WorkerRank(s) > 0 {
      step := Handle(s);
      WorkerAdvances(s);
    } else {
      step := Drive(s);
      if OfOnUpCall(step) {
        OnUpCallAdvances(s);
      } else {
        ManagerAdvances(s);
      }
    }
  }

  lemma Extends(order: Order, settings: Settings, steps: seq<Step>, step: Step)
    requires Run(order, settings, steps).Some? && Enabled(Run(order, settings, steps).value, step)
    ensures Run(order, settings, steps + [step]) == Some(Apply(Run(order, settings, steps).value, step))
  {
    assert (steps + [step])[..|steps + [step]| - 1] == steps;
  }

  /** Whatever happened to a client that is not stopping, there is a continuation without any publishing that
      leaves it at rest, with a connection of the live settings. */
  lemma {:induction false} EveryClientCanSettle(
      order: Order, settings: Settings, steps: seq<Step>) returns (more: seq<Step>)
    requires Run(order, settings, steps).Some? && !Run(order, settings, steps).value.stopping
    ensures Run(order, settings, steps + more).Some? && forall step <- more :: !Disturbs(step)
    ensures var s, t := Run(order, settings, steps).value, Run(order, settings, steps + more).value;
            && Quiet(t) && t.live == s.live && !t.stopping
            && t.rc.sh.current == Some(t.rc.mgr.conn) && t.rc.mgr.conn.snapshot == s.live
    decreases |Run(order, settings, steps).value.signals.busy|, WorkerRank(Run(order, settings, steps).value),
              ManagerRank(Run(order, settings, steps).value)
  {
    hide Run, L.Inv, Inv, Ready, Quiet, Apply, Enabled, WorkerRank, ManagerRank;
    var s := Run(order, settings, steps).value;
    if Quiet(s) {
      more := [];
      assert steps + more == steps;
      QuietMeansUpToDate(order, settings, steps);
    } else {
      RunKeepsInv(order, settings, steps);
      RunKeepsReady(order, settings, steps);
      var step := Advances(s);
      var next := steps + [step];
      Extends(order, settings, steps, step);
      var rest := EveryClientCanSettle(order, settings, next);
      more := [step] + rest;
      assert steps + more == next + rest;
    }
  }

  // ---------- a good connection is left alone ----------

  /** Publishing what is live already, signals, and the worker handling them. */
  predicate Harmless(step: Step, live: Settings) {
    || (step.Publishes? && step.settings == live)
    || step.Notifies? || OfWorker(step)
  }

  /** The connection is up to date, and the worker has read nothing else. */
  predicate Contented(s: State) {
    && s.rc.sh.current.Some? && s.rc.sh.current.value.snapshot == s.live
    && !s.worker.Asking? && !s.worker.Sending?
    && (s.worker.HasSettings? ==> s.worker.settings == s.live)
    && (s.worker.HasConn? ==> s.worker.conn == s.rc.sh.current.value)
  }

  lemma ContentedKept(s: State, step: Step)
    requires Contented(s) && Enabled(s, step) && Harmless(step, s.live)
    ensures var t := Apply(s, step); Contented(t) && t.rc == s.rc && t.live == s.live && t.events == s.events
  {
    hide L.Apply, L.Enabled;
  }

  lemma {:induction false} StaysContented(order: Order, settings: Settings, before: seq<Step>, after: seq<Step>)
    requires Run(order, settings, before + after).Some? && Run(order, settings, before).Some?
    requires Contented(Run(order, settings, before).value)
    requires forall step <- after :: Harmless(step, Run(order, settings, before).value.live)
    ensures var s, t := Run(order, settings, before).value, Run(order, settings, before + after).value;
            Contented(t) && t.rc == s.rc && t.live == s.live && t.events == s.events
  {
    hide Apply, Enabled, Contented, Harmless;
    if after == [] {
      assert before + after == before;
    } else {
      var shorter := after[..|after| - 1];
      assert (before + after)[..|before + after| - 1] == before + shorter;
      StaysContented(order, settings, before, shorter);
      ContentedKept(Run(order, settings, before + shorter).value, after[|after| - 1]);
    }
  }

  /** Saves that do not concern this client, however many and however its worker handles their signals, leave
      a client at rest exactly as it is: nothing is asked of the reconnector, no event is sent. */
  lemma {:induction false} QuietClientsAreLeftAlone(
      order: Order, settings: Settings, before: seq<Step>, after: seq<Step>)
    requires Run(order, settings, before + after).Some? && Run(order, settings, before).Some?
    requires Quiet(Run(order, settings, before).value)
    requires forall step <- after :: Harmless(step, Run(order, settings, before).value.live)
    ensures var s, t := Run(order, settings, before).value, Run(order, settings, before + after).value;
            t.rc == s.rc && t.events == s.events && !t.worker.Asking? && !t.worker.Sending?
  {
    QuietMeansUpToDate(order, settings, before);
    StaysContented(order, settings, before, after);
  }

  /** Where the worker last woke up. */
  function LastWake(steps: seq<Step>): nat {
    if steps == [] then 0
    else if steps[|steps| - 1].Wakes? then |steps|
    else LastWake(steps[..|steps| - 1])
  }

  /** Some time since the worker woke up, these were the live settings. */
  ghost predicate WereLive(order: Order, settings: Settings, steps: seq<Step>, were: Settings) {
    exists n :: LastWake(steps) <= n <= |steps|
             && Run(order, settings, steps[..n]).Some? && Run(order, settings, steps[..n]).value.live == were
  }

  /** Some time since the worker woke up, the live settings were not the ones this connection was dialed with. */
  ghost predicate WasStale(order: Order, settings: Settings, steps: seq<Step>, conn: Conn) {
    exists were :: were != conn.snapshot && WereLive(order, settings, steps, were)
  }

  lemma {:induction false} WakesEarlier(steps: seq<Step>)
    ensures LastWake(steps) <= |steps|
  {
    if steps != [] {
      WakesEarlier(steps[..|steps| - 1]);
    }
  }

  lemma WereLiveStays(order: Order, settings: Settings, steps: seq<Step>, were: Settings)
    requires steps != [] && !steps[|steps| - 1].Wakes?
    requires WereLive(order, settings, steps[..|steps| - 1], were)
    ensures WereLive(order, settings, steps, were)
  {
    var before := steps[..|steps| - 1];
    var n :| LastWake(before) <= n <= |before|
          && Run(order, settings, before[..n]).Some? && Run(order, settings, before[..n]).value.live == were;
    assert before[..n] == steps[..n];
  }

  lemma LiveNow(order: Order, settings: Settings, steps: seq<Step>)
    requires Run(order, settings, steps).Some?
    ensures WereLive(order, settings, steps, Run(order, settings, steps).value.live)
  {
    WakesEarlier(steps);
    assert steps[..|steps|] == steps;
  }

  ghost predicate Caused(order: Order, settings: Settings, steps: seq<Step>, worker: Worker) {
    match worker
    case HasSettings(were) => WereLive(order, settings, steps, were)
    case Asking(Some(conn)) => WasStale(order, settings, steps, conn)
    case _ => true
  }

  lemma WorkerMoves(s: State, step: Step)
    requires Enabled(s, step)
    ensures var t := Apply(s, step);
            && (t.worker.HasSettings? ==> t.worker == s.worker || t.worker.settings == t.live)
            && (t.worker.Asking? && t.worker.about.Some? && t.worker != s.worker ==>
                  || (s.worker.HasSettings? && s.worker.settings != t.worker.about.value.snapshot)
                  || t.live != t.worker.about.value.snapshot)
            && (step.Wakes? ==> t.worker.Woken?)
  {
    hide L.Apply, L.Enabled;
  }

  /** The worker asks to give a connection up only if, since it woke up, the live settings were not the ones
      the connection was dialed with. */
  lemma {:induction false} RequestsHaveACause(order: Order, settings: Settings, steps: seq<Step>)
    requires Run(order, settings, steps).Some?
    ensures Caused(order, settings, steps, Run(order, settings, steps).value.worker)
  {
    if steps != [] {
      var before, step := steps[..|steps| - 1], steps[|steps| - 1];
      var s, t := Run(order, settings, before).value, Run(order, settings, steps).value;
      RequestsHaveACause(order, settings, before);
      WorkerMoves(s, step);
      LiveNow(order, settings, steps);
      hide Run, Apply, Enabled, WereLive;
      if !step.Wakes? {
        forall were | WereLive(order, settings, before, were) ensures WereLive(order, settings, steps, were) {
          WereLiveStays(order, settings, steps, were);
        }
      }
    }
  }
}
