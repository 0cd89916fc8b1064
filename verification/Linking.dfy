/**
 Whose token is in memory. The Discord client's reload worker (internal/integrations/discord/client.go)
 forgets the token when the credentials differ from the ones it saw last; links, refreshes and unlinks
 (internal/integrations/discord/auth.go) and the config store's coalesced signal run beside it.

 The client is started once: it loads the token, subscribes to the store, and only then reads the
 credentials it will compare with.
 */
module Linking {
  import opened Prelude
  import opened Signals
  import A = Authorization

  datatype Worker =
    | Unstarted
    | Loaded                             // Start has loaded the token
    | Subscribed                         // and subscribed to the store
    | Asleep                             // the worker is in its select
    | Woken                              // took the signal
    | Changed(current: A.Credentials)    // read other credentials than before, about to clear the token

  /** `previous` are the credentials the worker saw last. */
  datatype State = State(auth: A.State, signals: Signals, worker: Worker, previous: A.Credentials)

  function Initial(file: A.File, live: A.Credentials): State {
    State(A.Initial(file, live), SILENT, Unstarted, live)
  }

  datatype Step =
    | Publishes(who: Publisher, live: A.Credentials)
    | Notifies(who: Publisher)
    | StartLoads(readable: bool)
    | StartSubscribes
    | StartReads
    | Wakes
    | WorkerReads
    | WorkerClears(removed: bool)
    | Inside(step: A.Step)   // links, refreshes and unlinks

  /** The authorization step that a step contains, if any. */
  function Inner(step: Step): Option<A.Step> {
    match step
    case Publishes(_, live) => Some(A.SettingsChange(live))
    case StartLoads(readable) => Some(A.Loads(readable))
    case WorkerClears(removed) => Some(A.Clears(removed))
    case Inside(inner) => Some(inner)
    case _ => None
  }

  predicate Open(s: State, step: Step) {
    match step
    case Publishes(who, _) => MayPublish(s.signals, who)
    case Notifies(who) => who in s.signals.busy
    case StartLoads(_) => s.worker.Unstarted?
    case StartSubscribes => s.worker.Loaded?
    case StartReads => s.worker.Subscribed?
    case Wakes => s.worker.Asleep? && s.signals.waiting
    case WorkerReads => s.worker.Woken?
    case WorkerClears(_) => s.worker.Changed?
    case Inside(inner) =>
      match inner {
        case SettingsChange(_) => false
        case Loads(_) => false
        // the endpoint's answer becomes a token of the client that asked
        case StoreTests(attempt, token) =>
          attempt in s.auth.attempts && token.clientId == s.auth.attempts[attempt].cfg.clientId
        case _ => true
      }
  }

  predicate Enabled(s: State, step: Step) {
    Open(s, step) && (Inner(step).Some? ==> A.Enabled(s.auth, Inner(step).value))
  }

  function Apply(s: State, step: Step): State
    requires Enabled(s, step)
  {
    var t := if Inner(step).Some? then s.(auth := A.Apply(s.auth, Inner(step).value)) else s;
    match step
    case Publishes(who, _) => t.(signals := PublishedBy(s.signals, who))
    case Notifies(who) => t.(signals := NotifiedBy(s.signals, who))
    case StartLoads(_) => t.(worker := Loaded)
    case StartSubscribes => t.(worker := Subscribed, signals := Taken(s.signals))
    case StartReads => t.(worker := Asleep, previous := s.auth.live)
    case Wakes => t.(worker := Woken, signals := Taken(s.signals))
    case WorkerReads => t.(worker := if s.auth.live == s.previous then Asleep else Changed(s.auth.live))
    case WorkerClears(_) => t.(worker := Asleep, previous := s.worker.current)
    case Inside(_) => t
  }

  function Run(file: A.File, live: A.Credentials, steps: seq<Step>): Option<State> {
    if steps == [] then Some(Initial(file, live))
    else
      match Run(file, live, steps[..|steps| - 1])
      case None => None
      case Some(s) => if Enabled(s, steps[|steps| - 1]) then Some(Apply(s, steps[|steps| - 1])) else None
  }

  lemma Extends(file: A.File, live: A.Credentials, steps: seq<Step>, step: Step)
    requires Run(file, live, steps).Some? && Enabled(Run(file, live, steps).value, step)
    ensures Run(file, live, steps + [step]) == Some(Apply(Run(file, live, steps).value, step))
  {
    assert (steps + [step])[..|steps + [step]| - 1] == steps;
  }

  // ---------- an authorization run inside ----------

  function Project(steps: seq<Step>): seq<A.Step> {
    if steps == [] then []
    else
      var before := Project(steps[..|steps| - 1]);
      match Inner(steps[|steps| - 1])
      case None => before
      case Some(inner) => before + [inner]
  }

  lemma InnerApplied(s: State, step: Step)
    requires Enabled(s, step)
    ensures Inner(step).Some? ==> A.Enabled(s.auth, Inner(step).value)
    ensures Apply(s, step).auth ==
              if Inner(step).Some? then A.Apply(s.auth, Inner(step).value) else s.auth
  {
  }

  /** So everything proved about token commits holds here. */
  lemma {:induction false} LinkingRunsAreAuthorizationRuns(file: A.File, live: A.Credentials, steps: seq<Step>)
    requires Run(file, live, steps).Some?
    ensures A.Run(file, live, Project(steps)) == Some(Run(file, live, steps).value.auth)
  {
    if steps != [] {
      var before, step := steps[..|steps| - 1], steps[|steps| - 1];
      LinkingRunsAreAuthorizationRuns(file, live, before);
      InnerApplied(Run(file, live, before).value, step);
      hide Apply, Enabled, Inner, A.Apply, A.Enabled;
      if Inner(step).Some? {
        var inner := Project(steps);
        assert inner[..|inner| - 1] == Project(before);
      }
    }
  }

  // ---------- what the worker has seen ----------

  predicate Started(s: State) { s.worker.Asleep? || s.worker.Woken? || s.worker.Changed? }

  /** Nothing is on its way to the worker, and it is not at work. */
  predicate Quiet(s: State) { s.worker.Asleep? && !Announced(s.signals) }

  predicate UpToDate(s: State) {
    && (Quiet(s) ==> s.previous == s.auth.live)
    && (s.worker.Changed? && s.worker.current != s.auth.live ==> Announced(s.signals))
  }

  lemma UpToDateKept(s: State, step: Step)
    requires UpToDate(s) && Enabled(s, step)
    ensures UpToDate(Apply(s, step))
  {
    LiveMoves(s, step);
    hide A.Apply, A.Enabled;
  }

  lemma LiveMoves(s: State, step: Step)
    requires Enabled(s, step)
    ensures !step.Publishes? ==> Apply(s, step).auth.live == s.auth.live
  {
  }

  lemma {:induction false} RunKeepsUpToDate(file: A.File, live: A.Credentials, steps: seq<Step>)
    requires Run(file, live, steps).Some?
    ensures UpToDate(Run(file, live, steps).value)
  {
    if steps != [] {
      var before := steps[..|steps| - 1];
      RunKeepsUpToDate(file, live, before);
      hide UpToDate, Apply, Enabled;
      UpToDateKept(Run(file, live, before).value, steps[|steps| - 1]);
    }
  }

  // ---------- a token stays only while the worker sees no change ----------

  predicate HasToken(s: State, ref: A.Ref) { s.auth.auth.token == Some(ref) }

  lemma TokenMoves(s: State, step: Step, ref: A.Ref)
    requires Enabled(s, step) && ref.ref < s.auth.refs
    ensures s.auth.refs <= Apply(s, step).auth.refs
    ensures HasToken(Apply(s, step), ref) ==> HasToken(s, ref) && !step.WorkerClears?
  {
  }

  lemma PreviousMoves(s: State, step: Step)
    requires Enabled(s, step) && Started(s) && !step.WorkerClears?
    ensures Started(Apply(s, step)) && Apply(s, step).previous == s.previous
  {
    hide A.Apply, A.Enabled;
  }

  lemma {:induction false} PreviousStays(
      file: A.File, live: A.Credentials, before: seq<Step>, after: seq<Step>, ref: A.Ref)
    requires Run(file, live, before + after).Some? && Run(file, live, before).Some?
    requires Started(Run(file, live, before).value) && ref.ref < Run(file, live, before).value.auth.refs
    ensures var s, t := Run(file, live, before).value, Run(file, live, before + after).value;
            && ref.ref < t.auth.refs
            && (HasToken(t, ref) ==> HasToken(s, ref) && Started(t) && t.previous == s.previous)
  {
    hide Apply, Enabled, HasToken, Started;
    if after == [] {
      assert before + after == before;
    } else {
      var shorter, step := after[..|after| - 1], after[|after| - 1];
      assert (before + after)[..|before + after| - 1] == before + shorter;
      PreviousStays(file, live, before, shorter, ref);
      var s := Run(file, live, before + shorter).value;
      TokenMoves(s, step, ref);
      if HasToken(Run(file, live, before + after).value, ref) {
        PreviousMoves(s, step);
      }
    }
  }

  /** A token in memory belongs to the live client, once everything is quiet, if and only if it belongs to
      the client the worker had seen when the token came; or, if it came before the worker was started,
      when it was. `before` may be any part of the run in which the worker is started and the token is
      there, its shortest is the one meant. */
  lemma {:induction false} QuietTokenIsTheLiveClientsExactly(
      file: A.File, live: A.Credentials, before: seq<Step>, after: seq<Step>)
    requires Run(file, live, before + after).Some? && Run(file, live, before).Some?
    requires Started(Run(file, live, before).value) && Run(file, live, before).value.auth.auth.token.Some?
    requires HasToken(Run(file, live, before + after).value, Run(file, live, before).value.auth.auth.token.value)
    requires Quiet(Run(file, live, before + after).value)
    ensures var s, t := Run(file, live, before).value, Run(file, live, before + after).value;
            var clientId := t.auth.auth.token.value.token.clientId;
            clientId == t.auth.live.clientId <==> clientId == s.previous.clientId
  {
    LinkingRunsAreAuthorizationRuns(file, live, before);
    A.RunKeepsInv(file, live, Project(before));
    PreviousStays(file, live, before, after, Run(file, live, before).value.auth.auth.token.value);
    RunKeepsUpToDate(file, live, before + after);
  }

  // ---------- two ways to keep another client's token ----------

  /** The settings change between loading the token and reading the credentials to compare with: the
      signal comes before the subscription. */
  function StartRun(later: A.Credentials): seq<Step> {
    [StartLoads(true)] + [Publishes(Saver, later)] + [Notifies(Saver)] + [StartSubscribes] + [StartReads]
  }

  lemma LoadingRuns(token: A.Token, live: A.Credentials)
    requires A.Loadable(A.Holds(token), live.clientId)
    ensures var file := A.Holds(token);
            var auth := A.State(A.Auth(Some(A.Ref(0, token)), file, 1), live, A.Free, map[], 1, [A.Load(0)]);
            Run(file, live, [StartLoads(true)]) == Some(State(auth, SILENT, Loaded, live))
  {
    var file := A.Holds(token);
    assert Run(file, live, []) == Some(Initial(file, live)) && [] + [StartLoads(true)] == [StartLoads(true)];
    hide Run;
    Extends(file, live, [], StartLoads(true));
    assert [] + [A.Load(0)] == [A.Load(0)];
  }

  lemma {:induction false} AChangeDuringStartKeepsTheToken(
      token: A.Token, live: A.Credentials, later: A.Credentials)
    requires A.Loadable(A.Holds(token), live.clientId)
    ensures var end := Run(A.Holds(token), live, StartRun(later));
            && end.Some? && Quiet(end.value) && end.value.auth.live == later
            && HasToken(end.value, A.Ref(0, token)) && token.clientId == live.clientId
  {
    hide Run;
    LoadingRuns(token, live);
    var loaded := [StartLoads(true)];
    Extends(A.Holds(token), live, loaded, Publishes(Saver, later));
    Extends(A.Holds(token), live, loaded + [Publishes(Saver, later)], Notifies(Saver));
    var published := loaded + [Publishes(Saver, later)] + [Notifies(Saver)];
    Extends(A.Holds(token), live, published, StartSubscribes);
    Extends(A.Holds(token), live, published + [StartSubscribes], StartReads);
  }

  /** A save to other credentials, a link under them, and a save back, before the worker wakes once. */
  function DetourRun(first: A.Credentials, second: A.Credentials, token: A.Token): seq<Step> {
    LinkedRun(second, token) + [Publishes(Saver, first)] + [Notifies(Saver)] + [Wakes] + [WorkerReads]
  }

  function LinkedRun(second: A.Credentials, token: A.Token): seq<Step> {
    BegunRun(second) + [Inside(A.LinkBegins(0))] + [Inside(A.StoreTests(0, token))] + [Inside(A.StoreWrites(true))]
  }

  function BegunRun(second: A.Credentials): seq<Step> {
    [StartLoads(false)] + [StartSubscribes] + [StartReads] + [Publishes(Saver, second)] + [Notifies(Saver)]
  }

  lemma BegunRunRuns(first: A.Credentials, second: A.Credentials)
    ensures Run(A.Missing, first, BegunRun(second)) ==
              Some(State(A.Initial(A.Missing, first).(live := second), Signals({}, true), Asleep, first))
  {
    var file := A.Missing;
    assert Run(file, first, []) == Some(Initial(file, first)) && [] + [StartLoads(false)] == [StartLoads(false)];
    hide Run;
    Extends(file, first, [], StartLoads(false));
    Extends(file, first, [StartLoads(false)], StartSubscribes);
    Extends(file, first, [StartLoads(false)] + [StartSubscribes], StartReads);
    Extends(file, first, [StartLoads(false)] + [StartSubscribes] + [StartReads], Publishes(Saver, second));
    var started := [StartLoads(false)] + [StartSubscribes] + [StartReads];
    Extends(file, first, started + [Publishes(Saver, second)], Notifies(Saver));
  }

  lemma LinkedRunRuns(first: A.Credentials, second: A.Credentials, token: A.Token)
    requires token.clientId == second.clientId
    ensures var end := Run(A.Missing, first, LinkedRun(second, token));
            && end.Some? && end.value.auth.auth.token == Some(A.Ref(0, token)) && end.value.auth.lock.Free?
            && end.value.signals == Signals({}, true) && end.value.worker == Asleep && end.value.previous == first
  {
    BegunRunRuns(first, second);
    hide Run, BegunRun;
    var begun := BegunRun(second);
    Extends(A.Missing, first, begun, Inside(A.LinkBegins(0)));
    Extends(A.Missing, first, begun + [Inside(A.LinkBegins(0))], Inside(A.StoreTests(0, token)));
    var tested := begun + [Inside(A.LinkBegins(0))] + [Inside(A.StoreTests(0, token))];
    Extends(A.Missing, first, tested, Inside(A.StoreWrites(true)));
  }

  lemma {:induction false} ADetourKeepsTheToken(first: A.Credentials, second: A.Credentials, token: A.Token)
    requires token.clientId == second.clientId
    ensures var end := Run(A.Missing, first, DetourRun(first, second, token));
            end.Some? && Quiet(end.value) && end.value.auth.live == first && HasToken(end.value, A.Ref(0, token))
  {
    LinkedRunRuns(first, second, token);
    hide Run, LinkedRun;
    var linked := LinkedRun(second, token);
    Extends(A.Missing, first, linked, Publishes(Saver, first));
    Extends(A.Missing, first, linked + [Publishes(Saver, first)], Notifies(Saver));
    Extends(A.Missing, first, linked + [Publishes(Saver, first)] + [Notifies(Saver)], Wakes);
    Extends(A.Missing, first, linked + [Publishes(Saver, first)] + [Notifies(Saver)] + [Wakes], WorkerReads);
  }
}
