/**
 The configuration store of internal/config/store.go and internal/config/watch.go: the live
 settings, the file behind them, and the coalesced signals to subscribers.

 The file is a cell: absent, a directory, not YAML, or the settings its text stands for. Whether a
 write or a read of it succeeds is up to the environment (`written` and `read`).
 */
module ConfigStore {
  import opened Prelude
  import opened Text
  import opened Normalize
  import opened Signals
  import C = CanonicalSettings
  import opened Acceptance

  datatype File = Absent | Directory | Invalid | Text(values: Values)

  datatype Outcome = Done | Rejected(problems: seq<Problem>) | UnknownProfile | NotWritten | NotLoaded

  /** defaultSettings, before normalization. */
  const DEFAULT_VALUES := Values(
    "", [Profile(DEFAULT_PROFILE_NAME, "", [])], false, DEFAULT_COM, DEFAULT_NOISE, DEFAULT_LANGUAGE,
    OBS(false, DEFAULT_HOST, DEFAULT_OBS_PORT, "", true), Discord(false, "", "", true))

  class Store {
    var current: Option<Values>
    var file: File
    var signals: seq<bool>  // each subscriber's one-slot channel

    /** What is live has been normalized. */
    ghost predicate Valid()
      reads this
    {
      current.Some? ==> C.IsCanonical(current.value)
    }

    /** What one subscriber sees. */
    ghost function Slot(subscriber: nat): Signals
      reads this
      requires subscriber < |signals|
    {
      Signals({}, signals[subscriber])
    }

    /** Every subscriber has a signal waiting. */
    predicate AllSignalled()
      reads this
    {
      forall i :: 0 <= i < |signals| ==> signals[i]
    }

    constructor (file: File)
      ensures Valid() && this.file == file && current == None && signals == []
    {
      this.file, current, signals := file, None, [];
    }

    method SubscribeToChanges() returns (subscriber: nat)
      requires Valid()
      modifies this`signals
      ensures Valid() && subscriber == old(|signals|) && signals == old(signals) + [false] && Slot(subscriber) == SILENT
    {
      subscriber := |signals|;
      signals := signals + [false];
    }

    method OnConfigReloaded()
      requires Valid()
      modifies this`signals
      ensures Valid() && |signals| == old(|signals|) && AllSignalled()
      ensures forall i, who :: 0 <= i < |signals| ==> Slot(i) == NotifiedBy(old(Slot(i)), who)
    {
      var i := 0;
      while i < |signals|
        invariant 0 <= i <= |signals| == old(|signals|)
        invariant forall k :: 0 <= k < i ==> signals[k]
      {
        if !signals[i] {
          signals := signals[i := true];
        }
        i := i + 1;
      }
    }

    /** A first load creates a missing file; a later one keeps what is live when the file cannot be used. */
    method LoadLocked(written: bool, read: bool) returns (ok: bool)
      requires Valid()
      modifies this`current, this`file
      ensures Valid()
      ensures file == if old(file).Absent? && old(current).None? && written
                      then Text(Canonical(DEFAULT_VALUES))
                      else old(file)
      ensures ok <==> read && file.Text?
      ensures current == if ok then Some(Canonical(file.values)) else old(current)
    {
      if file.Absent? {
        if current.Some? || !written {
          return false;
        }
        var ignored, defaults := Normalized(DEFAULT_VALUES);
        file := Text(defaults);
      }
      if !read || !file.Text? {
        return false;
      }
      var problems, values := Normalized(file.values);
      current := Some(values);
      C.CanonicalIsCanonical(file.values);
      ok := true;
    }

    method SaveAndReload(settings: Values, written: bool, read: bool) returns (outcome: Outcome)
      requires Valid()
      modifies this`current, this`file
      ensures Valid()
      ensures outcome == if !written then NotWritten else if !read then NotLoaded else Done
      ensures file == if written then Text(settings) else old(file)
      ensures current == if outcome.Done? then Some(Canonical(settings)) else old(current)
    {
      if !written {
        return NotWritten;
      }
      file := Text(settings);
      var ok := LoadLocked(true, read);
      outcome := if ok then Done else NotLoaded;
    }

    /** A save is rejected, and changes nothing, exactly when normalization has something to report.
        Otherwise, if the file can be written and read back, file and live settings are the normalized
        ones and every subscriber is signalled. */
    method SaveUserSettings(settings: Values, written: bool, read: bool) returns (outcome: Outcome)
      requires Valid()
      modifies this
      ensures Valid() && |signals| == old(|signals|)
      ensures outcome.Rejected? <==> !Acceptable(settings)
      ensures outcome.Rejected? ==> outcome.problems == Problems(settings) != []
      ensures outcome.Done? <==> Acceptable(settings) && written && read
      ensures file == if outcome.Rejected? || !written then old(file) else Text(Canonical(settings))
      ensures !outcome.Done? ==> current == old(current) && signals == old(signals)
      ensures outcome.Done? ==>
            current == Some(Canonical(settings)) && Becomes(settings, current.value) && AllSignalled()
    {
      ProblemsExactly(settings);
      CanonicalExactly(settings);
      hide Canonical, Problems, C.IsCanonical, Acceptable, Becomes;
      var problems, values := Normalized(settings);
      if |problems| > 0 {
        return Rejected(problems);
      }
      C.NormalizeIsIdempotent(settings);
      outcome := SaveAndReload(values, written, read);
      if outcome.Done? {
        OnConfigReloaded();
      }
    }

    /** Switching profiles changes that one field, to the profile's own spelling, and signals only if so. */
    method SetActiveProfile(name: string, written: bool, read: bool) returns (outcome: Outcome)
      requires Valid() && current.Some?
      modifies this
      ensures Valid() && |signals| == old(|signals|) && current.Some?
      ensures var live := old(current).value;
              var found := FindProfileName(live.profiles, name);
              var switches := found.Some? && found.value != live.activeProfile;
              && outcome == (if found.None? then UnknownProfile else if !switches then Done
                             else if !written then NotWritten else if !read then NotLoaded else Done)
              && (switches && written ==> file == Text(live.(activeProfile := found.value)))
              && (!switches || !written ==> file == old(file))
              && (outcome.Done? ==> current == Some(live.(activeProfile := found.value)))
              && (!outcome.Done? ==> current == old(current))
      ensures current == old(current) ==> signals == old(signals)
      ensures current != old(current) ==> outcome.Done? && file == Text(current.value) && AllSignalled()
    {
      var live := current.value;
      var resolved := FindProfileName(live.profiles, name);
      if resolved.None? {
        return UnknownProfile;
      }
      if live.activeProfile == resolved.value {
        return Done;
      }
      var settings := live.(activeProfile := resolved.value);
      assert C.IsCanonical(settings) by {
        C.FindsProfiles(live.profiles, name);
      }
      C.CanonicalIsStable(settings);
      outcome := SaveAndReload(settings, written, read);
      if outcome.Done? {
        OnConfigReloaded();
      }
    }

    /** The watcher's reload signals exactly when the live settings changed. */
    method HandleConfigFileChange(written: bool, read: bool)
      requires Valid()
      modifies this
      ensures Valid() && |signals| == old(|signals|)
      ensures old(file).Text? ==> file == old(file)
      ensures current == if read && file.Text? then Some(Canonical(file.values)) else old(current)
      ensures current == old(current) ==> signals == old(signals)
      ensures current != old(current) ==> AllSignalled()
    {
      hide Canonical, C.IsCanonical;
      var previous := current;
      var loaded := LoadLocked(written, read);
      if !loaded || (previous.Some? && previous == current) {
        return;
      }
      OnConfigReloaded();
    }
  }

  /** A copy of the settings is normalized; the caller's own stay as they are. */
  method Normalized(settings: Values) returns (problems: seq<Problem>, normalized: Values)
    ensures problems == Problems(settings) && normalized == Canonical(settings)
  {
    var copy := new Settings(settings);
    problems := copy.Normalize();
    normalized := copy.View();
  }

  /** What a new installation's file holds. */
  lemma DefaultsExactly()
    ensures Canonical(DEFAULT_VALUES) ==
              Values("default", [Profile("default", "", [])], false, COM("auto", 9600, "1A86", "7523"), "", "auto",
                     OBS(false, "localhost", 4455, "", true), Discord(false, "", "", true))
  {
    var v := DEFAULT_VALUES.(activeProfile := "default");
    assert C.IsCanonical(v) by {
      C.DefaultsAreCanonical();
      C.DefaultProfileIsWellFormed();
      assert v.profiles[0] in v.profiles;
    }
    C.CanonicalIsStable(v);
    DefaultIsActive();
    hide CanonicalProfiles, ActiveOf, CanonicalCOM, CanonicalDiscord, CanonicalOBS, Chosen, C.IsCanonical;
    assert Canonical(DEFAULT_VALUES).activeProfile == ActiveOf(CanonicalProfiles(v.profiles), "");
    assert Canonical(DEFAULT_VALUES) == Canonical(v).(activeProfile := Canonical(DEFAULT_VALUES).activeProfile);
  }

  lemma DefaultIsActive()
    ensures ActiveOf([Profile("default", "", [])], "") == "default"
  {
  }

  /** Settings that a load published are never rejected by a save. */
  method SaveWhatWasLoaded(store: Store, written: bool, read: bool) returns (outcome: Outcome)
    requires store.Valid() && store.current.Some?
    modifies store
    ensures !outcome.Rejected? && store.Valid() && store.current == old(store.current)
    ensures written && read ==> outcome.Done? && store.file == Text(store.current.value)
  {
    C.CanonicalIsStable(store.current.value);
    outcome := store.SaveUserSettings(store.current.value, written, read);
  }
}
