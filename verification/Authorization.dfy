/**
 Token commits of internal/integrations/discord/auth.go: link, refresh, unlink and load share a
 generation under authLock, so that a slow request cannot undo what happened meanwhile.

 The token file is one cell; writing it is atomic (internal/atomicfile/write.go). The request to the
 OAuth endpoint is whatever happens between an attempt's snapshot and its commit.
 */
module Authorization {
  import opened Prelude

  datatype Credentials = Credentials(clientId: string, clientSecret: string)

  datatype Token = Token(clientId: string, accessToken: string, refreshToken: string)

  /** A token in memory; `ref` tells two tokens with the same content apart. */
  datatype Ref = Ref(ref: nat, token: Token)

  datatype File = Missing | Malformed | Holds(token: Token)

  // ---------- what authLock guards ----------

  datatype Auth = Auth(token: Option<Ref>, file: File, generation: nat)

  function Cleared(a: Auth, removed: bool): Auth {
    Auth(None, if removed then Missing else a.file, a.generation + 1)
  }

  /** The file is readable, well formed, and belongs to the configured client. */
  predicate Loadable(file: File, clientId: string) {
    file.Holds? && file.token.accessToken != "" && file.token.clientId == clientId
  }

  function Loaded(a: Auth, ref: nat): Auth
    requires a.file.Holds?
  {
    a.(token := Some(Ref(ref, a.file.token)), generation := a.generation + 1)
  }

  function Stored(a: Auth, ref: Ref): Auth {
    Auth(Some(ref), Holds(ref.token), a.generation + 1)
  }

  /** The test that decides a commit. */
  predicate MayStore(a: Auth, generation: nat, cfg: Credentials, live: Credentials) {
    generation == a.generation && cfg == live
  }

  class Authorizer {
    var token: Option<Ref>
    var file: File
    var authGeneration: nat

    function View(): Auth
      reads this
    {
      Auth(token, file, authGeneration)
    }

    constructor (file: File)
      ensures View() == Auth(None, file, 0)
    {
      token, this.file, authGeneration := None, file, 0;
    }

    /** `removed` is false when the file could not be removed. */
    method ClearToken(removed: bool) returns (ok: bool)
      modifies this
      ensures View() == Cleared(old(View()), removed) && ok == removed
    {
      authGeneration := authGeneration + 1;
      token := None;
      if !removed {
        return false;
      }
      file := Missing;
      ok := true;
    }

    method LoadToken(readable: bool, clientId: string, ref: nat)
      modifies this
      ensures View() == if readable && Loadable(old(file), clientId) then Loaded(old(View()), ref) else old(View())
    {
      if !readable || !file.Holds? {
        return;
      }
      if file.token.accessToken == "" || file.token.clientId != clientId {
        return;
      }
      token := Some(Ref(ref, file.token));
      authGeneration := authGeneration + 1;
    }

    /** `written` is false when the file could not be replaced. */
    method StoreToken(cfg: Credentials, generation: nat, live: Credentials, ref: Ref, written: bool) returns (ok: bool)
      modifies this
      ensures ok == (MayStore(old(View()), generation, cfg, live) && written)
      ensures View() == if ok then Stored(old(View()), ref) else old(View())
    {
      if generation != authGeneration || cfg.clientId != live.clientId || cfg.clientSecret != live.clientSecret {
        return false;
      }
      if !written {
        return false;
      }
      file := Holds(ref.token);
      token := Some(ref);
      authGeneration := authGeneration + 1;
      ok := true;
    }
  }

  // ---------- everybody at once ----------

  /** A link (no source) or a refresh (of the token `source`) between its snapshot and its commit; `seen`
      is how long the history was at the snapshot. */
  datatype Attempt = Attempt(cfg: Credentials, generation: nat, source: Option<nat>, seen: nat)

  /** storeToken passed its test and has not written yet; it holds the lock. */
  datatype Lock = Free | Writing(attempt: nat, token: Token)

  datatype Entry =
    | Commit(attempt: Attempt, ref: nat)
    | Clear
    | Load(ref: nat)

  datatype State = State(
    auth: Auth,
    live: Credentials,
    lock: Lock,
    attempts: map<nat, Attempt>,
    refs: nat,
    log: seq<Entry>)

  function Initial(file: File, live: Credentials): State {
    State(Auth(None, file, 0), live, Free, map[], 0, [])
  }

  datatype Step =
    | SettingsChange(live: Credentials)
    | LinkBegins(attempt: nat)
    | RefreshBegins(attempt: nat, cfg: Credentials, current: Ref)
    | StoreTests(attempt: nat, token: Token)
    | StoreWrites(written: bool)
    | Clears(removed: bool)
    | Loads(readable: bool)

  predicate Enabled(s: State, step: Step) {
    match step
    case SettingsChange(_) => true
    case LinkBegins(attempt) => s.lock.Free? && attempt !in s.attempts
    case RefreshBegins(attempt, _, _) => s.lock.Free? && attempt !in s.attempts
    case StoreTests(attempt, _) => s.lock.Free? && attempt in s.attempts
    case StoreWrites(_) => s.lock.Writing? && s.lock.attempt in s.attempts
    case Clears(_) => s.lock.Free?
    case Loads(_) => s.lock.Free?
  }

  function Apply(s: State, step: Step): State
    requires Enabled(s, step)
  {
    match step
    case SettingsChange(live) => s.(live := live)
    case LinkBegins(attempt) => s.(attempts := s.attempts[attempt := Attempt(s.live, s.auth.generation, None, |s.log|)])
    case RefreshBegins(attempt, cfg, current) =>
      if s.auth.token == Some(current) && cfg == s.live
      then s.(attempts := s.attempts[attempt := Attempt(cfg, s.auth.generation, Some(current.ref), |s.log|)])
      else s
    case StoreTests(attempt, token) =>
      var a := s.attempts[attempt];
      if MayStore(s.auth, a.generation, a.cfg, s.live) then s.(lock := Writing(attempt, token))
      else s.(attempts := s.attempts - {attempt})
    case StoreWrites(written) =>
      var t := s.(lock := Free, attempts := s.attempts - {s.lock.attempt});
      if !written then t
      else t.(auth := Stored(s.auth, Ref(s.refs, s.lock.token)), refs := s.refs + 1,
              log := s.log + [Commit(s.attempts[s.lock.attempt], s.refs)])
    case Clears(removed) => s.(auth := Cleared(s.auth, removed), log := s.log + [Clear])
    case Loads(readable) =>
      if readable && Loadable(s.auth.file, s.live.clientId)
      then s.(auth := Loaded(s.auth, s.refs), refs := s.refs + 1, log := s.log + [Load(s.refs)])
      else s
  }

  function Run(file: File, live: Credentials, steps: seq<Step>): Option<State> {
    if steps == [] then Some(Initial(file, live))
    else
      match Run(file, live, steps[..|steps| - 1])
      case None => None
      case Some(s) => if Enabled(s, steps[|steps| - 1]) then Some(Apply(s, steps[|steps| - 1])) else None
  }

  // ---------- invariant ----------

  predicate IsToken(s: State, ref: nat) { s.auth.token.Some? && s.auth.token.value.ref == ref }

  /** The generation counts the commits, clears and loads, and every commit names the one it replaced. */
  ghost predicate Counted(s: State) {
    && s.auth.generation == |s.log|
    && (forall a <- s.attempts :: s.attempts[a].seen == s.attempts[a].generation <= |s.log|)
    && (s.lock.Writing? ==> s.lock.attempt in s.attempts && s.attempts[s.lock.attempt].generation == |s.log|)
    && (forall i :: 0 <= i < |s.log| && s.log[i].Commit? ==> s.log[i].attempt.seen == i)
  }

  /** What was refreshed once is no longer the token, and an attempt that may still commit refreshes the token. */
  ghost predicate Spent(s: State) {
    && (s.auth.token.Some? ==> s.auth.token.value.ref < s.refs)
    && (forall a <- s.attempts :: s.attempts[a].source.Some? ==>
          && s.attempts[a].source.value < s.refs
          && (s.attempts[a].generation == s.auth.generation ==> IsToken(s, s.attempts[a].source.value)))
    && (forall i :: 0 <= i < |s.log| && s.log[i].Commit? && s.log[i].attempt.source.Some? ==>
          s.log[i].attempt.source.value < s.refs && !IsToken(s, s.log[i].attempt.source.value))
    && (forall i, j :: 0 <= i < j < |s.log| && s.log[i].Commit? && s.log[j].Commit? && s.log[i].attempt.source.Some? ==>
          s.log[j].attempt.source != s.log[i].attempt.source)
  }

  ghost predicate Persisted(s: State) {
    s.auth.token.Some? ==> s.auth.file == Holds(s.auth.token.value.token)
  }

  lemma CountedKept(s: State, step: Step)
    requires Counted(s) && Enabled(s, step)
    ensures Counted(Apply(s, step))
  {
  }

  lemma SpentKept(s: State, step: Step)
    requires Counted(s) && Spent(s) && Enabled(s, step)
    ensures Spent(Apply(s, step))
  {
  }

  lemma PersistedKept(s: State, step: Step)
    requires Persisted(s) && Enabled(s, step)
    ensures Persisted(Apply(s, step))
  {
  }

  lemma {:induction false} RunKeepsInv(file: File, live: Credentials, steps: seq<Step>)
    requires Run(file, live, steps).Some?
    ensures var s := Run(file, live, steps).value; Counted(s) && Spent(s) && Persisted(s)
  {
    if steps != [] {
      RunKeepsInv(file, live, steps[..|steps| - 1]);
      var s, step := Run(file, live, steps[..|steps| - 1]).value, steps[|steps| - 1];
      CountedKept(s, step);
      SpentKept(s, step);
      PersistedKept(s, step);
    }
  }

  // ---------- results ----------

  /** A commit directly follows its own snapshot: no commit, clear or load lies between. In particular no
      attempt from before an unlink commits after it. */
  lemma {:induction false} CommitsAreCompareAndSwap(file: File, live: Credentials, steps: seq<Step>, i: nat)
    requires Run(file, live, steps).Some?
    requires var log := Run(file, live, steps).value.log; i < |log| && log[i].Commit?
    ensures var log := Run(file, live, steps).value.log;
            log[i].attempt.seen == i
  {
    RunKeepsInv(file, live, steps);
  }

  predicate Begins(step: Step, attempt: nat) {
    (step.LinkBegins? || step.RefreshBegins?) && step.attempt == attempt
  }

  /** Where an attempt took its snapshot. */
  lemma {:induction false} AttemptBegan(file: File, live: Credentials, steps: seq<Step>, attempt: nat) returns (m: nat)
    requires Run(file, live, steps).Some? && attempt in Run(file, live, steps).value.attempts
    ensures m < |steps| && Begins(steps[m], attempt) && Run(file, live, steps[..m]).Some?
    ensures var s, began := Run(file, live, steps).value.attempts[attempt], Run(file, live, steps[..m]).value;
            s.generation == began.auth.generation && s.cfg == began.live
  {
    var before, step := steps[..|steps| - 1], steps[|steps| - 1];
    if attempt in Run(file, live, before).value.attempts {
      m := AttemptBegan(file, live, before, attempt);
      assert steps[..m] == before[..m];
    } else {
      m := |before|;
    }
  }

  lemma GenerationGrows(s: State, step: Step)
    requires Enabled(s, step)
    ensures s.auth.generation <= Apply(s, step).auth.generation
    ensures s.auth.generation == Apply(s, step).auth.generation ==> s.auth == Apply(s, step).auth
  {
  }

  lemma {:induction false} GenerationsFixAuth(file: File, live: Credentials, steps: seq<Step>, m: nat)
    requires m <= |steps| && Run(file, live, steps).Some? && Run(file, live, steps[..m]).Some?
    ensures var s, t := Run(file, live, steps[..m]).value, Run(file, live, steps).value;
            && s.auth.generation <= t.auth.generation
            && (s.auth.generation == t.auth.generation ==> s.auth == t.auth)
  {
    if m == |steps| {
      assert steps[..m] == steps;
    } else {
      var before := steps[..|steps| - 1];
      assert steps[..m] == before[..m];
      GenerationsFixAuth(file, live, before, m);
      GenerationGrows(Run(file, live, before).value, steps[|steps| - 1]);
    }
  }

  /** The token, file and generation that a commit replaces are the very ones its snapshot saw. */
  lemma {:induction false} CommitsReplaceWhatTheySaw(file: File, live: Credentials, before: seq<Step>)
    requires Run(file, live, before + [StoreWrites(true)]).Some?
    ensures Run(file, live, before).Some? && Run(file, live, before).value.lock.Writing?
    ensures exists m: nat ::
              && m < |before| && Begins(before[m], Run(file, live, before).value.lock.attempt)
              && Run(file, live, before[..m]).Some?
              && Run(file, live, before[..m]).value.auth == Run(file, live, before).value.auth
  {
    assert (before + [StoreWrites(true)])[..|before|] == before;
    var s := Run(file, live, before).value;
    RunKeepsInv(file, live, before);
    var m := AttemptBegan(file, live, before, s.lock.attempt);
    GenerationsFixAuth(file, live, before, m);
  }

  // ---------- the time between test and write ----------

  /** The settings that the last of these changes sets. */
  function LastSet(steps: seq<Step>, otherwise: Credentials): Credentials {
    if steps == [] then otherwise
    else if steps[|steps| - 1].SettingsChange? then steps[|steps| - 1].live
    else LastSet(steps[..|steps| - 1], otherwise)
  }

  lemma {:induction false} WritingWaits(file: File, live: Credentials, tested: seq<Step>, between: seq<Step>)
    requires Run(file, live, tested + between).Some? && Run(file, live, tested).Some?
    requires Run(file, live, tested).value.lock.Writing? && forall step <- between :: !step.StoreWrites?
    ensures var s, t := Run(file, live, tested).value, Run(file, live, tested + between).value;
            t == s.(live := LastSet(between, s.live))
  {
    if between == [] {
      assert tested + between == tested;
    } else {
      var shorter := between[..|between| - 1];
      assert (tested + between)[..|tested + between| - 1] == tested + shorter;
      WritingWaits(file, live, tested, shorter);
    }
  }

  /** A commit is made under credentials that are live when it is written if and only if the last settings
      change between test and write, if there is one, leaves them so. */
  lemma {:induction false} CommittedCredentialsAreLiveExactly(
      file: File, live: Credentials, before: seq<Step>, attempt: nat, token: Token, between: seq<Step>)
    requires Run(file, live, before + [StoreTests(attempt, token)]).Some?
    requires Run(file, live, before + [StoreTests(attempt, token)]).value.lock.Writing?
    requires Run(file, live, before + [StoreTests(attempt, token)] + between + [StoreWrites(true)]).Some?
    requires forall step <- between :: !step.StoreWrites?
    ensures var t := Run(file, live, before + [StoreTests(attempt, token)] + between + [StoreWrites(true)]).value;
            && |t.log| > 0 && t.log[|t.log| - 1].Commit?
            && var cfg := t.log[|t.log| - 1].attempt.cfg;
               cfg == t.live <==> LastSet(between, cfg) == cfg
  {
    var tested := before + [StoreTests(attempt, token)];
    var whole := tested + between + [StoreWrites(true)];
    assert tested[..|tested| - 1] == before && whole[..|whole| - 1] == tested + between;
    RunKeepsInv(file, live, before);
    WritingWaits(file, live, tested, between);
  }

  lemma Extends(file: File, live: Credentials, steps: seq<Step>, step: Step)
    requires Run(file, live, steps).Some? && Enabled(Run(file, live, steps).value, step)
    ensures Run(file, live, steps + [step]) == Some(Apply(Run(file, live, steps).value, step))
  {
    assert (steps + [step])[..|steps + [step]| - 1] == steps;
  }

  /** A link whose settings change after its test commits all the same. */
  lemma {:induction false} ALinkCanCommitUnderOldCredentials(cfg: Credentials, later: Credentials, token: Token)
    requires cfg != later
    ensures var steps := [LinkBegins(0)] + [StoreTests(0, token)] + [SettingsChange(later)] + [StoreWrites(true)];
            var end := Run(Missing, cfg, steps);
            && end.Some? && end.value.live == later && end.value.auth.token == Some(Ref(0, token))
            && |end.value.log| == 1 && end.value.log[0].Commit? && end.value.log[0].attempt.cfg == cfg
  {
    assert Run(Missing, cfg, []) == Some(Initial(Missing, cfg)) && [] + [LinkBegins(0)] == [LinkBegins(0)];
    hide Run;
    Extends(Missing, cfg, [], LinkBegins(0));
    Extends(Missing, cfg, [LinkBegins(0)], StoreTests(0, token));
    Extends(Missing, cfg, [LinkBegins(0)] + [StoreTests(0, token)], SettingsChange(later));
    Extends(Missing, cfg, [LinkBegins(0)] + [StoreTests(0, token)] + [SettingsChange(later)], StoreWrites(true));
  }

  /** One token is refreshed at most once. */
  lemma {:induction false} RefreshesCommitAtMostOnce(file: File, live: Credentials, steps: seq<Step>, i: nat, j: nat)
    requires Run(file, live, steps).Some?
    requires var log := Run(file, live, steps).value.log;
             && i < |log| && j < |log| && log[i].Commit? && log[j].Commit?
             && log[i].attempt.source.Some? && log[i].attempt.source == log[j].attempt.source
    ensures i == j
  {
    RunKeepsInv(file, live, steps);
  }

  /** The token in memory is the one in the file. */
  lemma {:induction false} TokenInMemoryIsOnDisk(file: File, live: Credentials, steps: seq<Step>)
    requires Run(file, live, steps).Some?
    ensures Persisted(Run(file, live, steps).value)
  {
    RunKeepsInv(file, live, steps);
  }

  /** The test passes exactly when nothing happened since the snapshot and the credentials still match. */
  lemma {:induction false} StoreTestIsExact(file: File, live: Credentials, steps: seq<Step>, attempt: nat, token: Token)
    requires Run(file, live, steps).Some? && Enabled(Run(file, live, steps).value, StoreTests(attempt, token))
    ensures var s := Run(file, live, steps).value;
            Apply(s, StoreTests(attempt, token)).lock.Writing? <==>
              s.attempts[attempt].seen == |s.log| && s.attempts[attempt].cfg == s.live
  {
    RunKeepsInv(file, live, steps);
  }

  // ---------- what an unlink undoes ----------

  /** Some readable load of `steps` found the file at the unlink to hold a token of the client then configured. */
  ghost predicate LoadsBack(file: File, live: Credentials, before: seq<Step>, unlink: Step, steps: seq<Step>)
    requires Run(file, live, before).Some?
  {
    exists n ::
      && 0 <= n < |steps| && steps[n] == Loads(true)
      && var loading := Run(file, live, before + [unlink] + steps[..n]);
         loading.Some? && Loadable(Run(file, live, before).value.auth.file, loading.value.live.clientId)
  }

  /** Since the unlink nothing has brought a token back: nobody who could still commit is under way. */
  ghost predicate Unlinked(s: State, file: File) {
    && s.auth.token.None? && s.auth.file == file && s.lock.Free?
    && (forall a <- s.attempts :: s.attempts[a].generation < s.auth.generation)
  }

  lemma UnlinkedAfterClear(s: State, removed: bool)
    requires Counted(s) && Enabled(s, Clears(removed))
    ensures Unlinked(Apply(s, Clears(removed)), if removed then Missing else s.auth.file)
  {
  }

  lemma UnlinkedKept(s: State, file: File, step: Step)
    requires Unlinked(s, file) && Enabled(s, step) && !step.LinkBegins? && !step.Clears?
    ensures var t := Apply(s, step);
            if step == Loads(true) && Loadable(file, s.live.clientId)
            then t.auth.token.Some? else Unlinked(t, file)
  {
  }

  lemma TokenKept(s: State, step: Step)
    requires Enabled(s, step) && s.auth.token.Some? && !step.Clears?
    ensures Apply(s, step).auth.token.Some?
  {
  }

  lemma LoadsBackGrows(file: File, live: Credentials, before: seq<Step>, unlink: Step, steps: seq<Step>)
    requires Run(file, live, before).Some? && steps != []
    requires Run(file, live, before + [unlink] + steps[..|steps| - 1]).Some?
    ensures var shorter := steps[..|steps| - 1];
            LoadsBack(file, live, before, unlink, steps) <==>
              || LoadsBack(file, live, before, unlink, shorter)
              || (steps[|steps| - 1] == Loads(true)
                  && Loadable(Run(file, live, before).value.auth.file,
                              Run(file, live, before + [unlink] + shorter).value.live.clientId))
  {
    hide Run;
    var shorter := steps[..|steps| - 1];
    assert forall n :: 0 <= n < |shorter| ==> steps[..n] == shorter[..n] && steps[n] == shorter[n];
  }

  lemma {:induction false} AfterUnlink(
      file: File, live: Credentials, before: seq<Step>, removed: bool, steps: seq<Step>)
    requires Run(file, live, before + [Clears(removed)] + steps).Some?
    requires forall step <- steps :: !step.LinkBegins? && !step.Clears?
    ensures Run(file, live, before).Some?
    ensures var s := Run(file, live, before + [Clears(removed)] + steps).value;
            var kept := if removed then Missing else Run(file, live, before).value.auth.file;
            if !removed && LoadsBack(file, live, before, Clears(removed), steps)
            then s.auth.token.Some?
            else Unlinked(s, kept)
  {
    var unlinked := before + [Clears(removed)];
    assert unlinked[..|unlinked| - 1] == before;
    if steps == [] {
      assert unlinked + steps == unlinked;
      RunKeepsInv(file, live, before);
      UnlinkedAfterClear(Run(file, live, before).value, removed);
    } else {
      var shorter, step := steps[..|steps| - 1], steps[|steps| - 1];
      assert (unlinked + steps)[..|unlinked + steps| - 1] == unlinked + shorter;
      AfterUnlink(file, live, before, removed, shorter);
      hide Run, Apply, Enabled, Unlinked, LoadsBack;
      var s := Run(file, live, unlinked + shorter).value;
      var kept := if removed then Missing else Run(file, live, before).value.auth.file;
      LoadsBackGrows(file, live, before, Clears(removed), steps);
      if s.auth.token.Some? {
        TokenKept(s, step);
      } else {
        UnlinkedKept(s, kept, step);
      }
    }
  }

  /** As long as no new link begins and nobody unlinks again, a token is back after an unlink if and only if
      the file could not be removed and a load since then found it to hold a token of the client configured
      at that moment. Links and refreshes from before the unlink bring nothing back, whatever they do. */
  lemma {:induction false} UnlinkOutlivesALoadUnlessRemovalFailed(
      file: File, live: Credentials, before: seq<Step>, removed: bool, steps: seq<Step>)
    requires Run(file, live, before + [Clears(removed)] + steps).Some?
    requires forall step <- steps :: !step.LinkBegins? && !step.Clears?
    ensures Run(file, live, before).Some?
    ensures Run(file, live, before + [Clears(removed)] + steps).value.auth.token.Some? <==>
              !removed && LoadsBack(file, live, before, Clears(removed), steps)
    ensures removed ==> Run(file, live, before + [Clears(removed)] + steps).value.auth.file == Missing
  {
    AfterUnlink(file, live, before, removed, steps);
  }

  /** Such an unlink: the file cannot be removed, and the next load takes the token from it again. */
  lemma {:induction false} AnUnlinkCanBeUndone(token: Token, live: Credentials)
    requires Loadable(Holds(token), live.clientId)
    ensures var end := Run(Holds(token), live, [Loads(true)] + [Clears(false)] + [Loads(true)]);
            end.Some? && end.value.auth.token == Some(Ref(1, token))
    ensures var unlinked := Run(Holds(token), live, [Loads(true)] + [Clears(false)]);
            unlinked.Some? && unlinked.value.auth.token == None
  {
    assert Run(Holds(token), live, []) == Some(Initial(Holds(token), live)) && [] + [Loads(true)] == [Loads(true)];
    hide Run;
    Extends(Holds(token), live, [], Loads(true));
    Extends(Holds(token), live, [Loads(true)], Clears(false));
    Extends(Holds(token), live, [Loads(true)] + [Clears(false)], Loads(true));
  }

  // ---------- tokens across a restart ----------

  /** What a committed token's file gives back to a client that starts with the same credentials. */
  lemma {:induction false} CommitsSurviveARestart(file: File, live: Credentials, before: seq<Step>)
    requires Run(file, live, before + [StoreWrites(true)]).Some?
    ensures Run(file, live, before).Some? && Run(file, live, before).value.lock.Writing?
    ensures var token := Run(file, live, before).value.lock.token;
            var s := Run(file, live, before + [StoreWrites(true)]).value;
            forall cfg: Credentials | token.accessToken != "" && cfg.clientId == token.clientId ::
              var t := Run(s.auth.file, cfg, [Loads(true)]);
              t.Some? && t.value.auth.token.Some? && t.value.auth.token.value.token == token
  {
    var steps := before + [StoreWrites(true)];
    assert steps[..|steps| - 1] == before;
    var token := Run(file, live, before).value.lock.token;
    var stored := Run(file, live, steps).value.auth.file;
    assert stored == Holds(token);
    forall cfg: Credentials | token.accessToken != "" && cfg.clientId == token.clientId
      ensures var t := Run(stored, cfg, [Loads(true)]);
              t.Some? && t.value.auth.token.Some? && t.value.auth.token.value.token == token
    {
      FirstLoad(stored, cfg);
    }
  }

  lemma FirstLoad(file: File, live: Credentials)
    ensures Run(file, live, [Loads(true)]) == Some(Apply(Initial(file, live), Loads(true)))
  {
    assert Run(file, live, []) == Some(Initial(file, live));
    assert [] + [Loads(true)] == [Loads(true)];
    Extends(file, live, [], Loads(true));
  }

  /** A client that starts has a token in memory exactly if the file is readable and holds one that has an access
      token and belongs to the configured client; it is that one. */
  lemma StartLoadsExactly(file: File, live: Credentials, readable: bool)
    ensures var t := Apply(Initial(file, live), Loads(readable));
            && (t.auth.token.Some? <==>
                  readable && file.Holds? && file.token.accessToken != "" && file.token.clientId == live.clientId)
            && (t.auth.token.Some? ==> file == Holds(t.auth.token.value.token))
  {
  }

  /** Every token that was ever loaded has an access token and belonged to the client configured then. */
  lemma {:induction false} LoadedTokensAreUsable(file: File, live: Credentials, steps: seq<Step>, readable: bool)
    requires Run(file, live, steps).Some? && Enabled(Run(file, live, steps).value, Loads(readable))
    ensures var s := Run(file, live, steps).value;
            var t := Apply(s, Loads(readable));
            t.auth.token != s.auth.token ==>
              && t.auth.token.Some? && t.auth.token.value.token.accessToken != ""
              && t.auth.token.value.token.clientId == s.live.clientId && s.auth.file == Holds(t.auth.token.value.token)
  {
  }
}
