/**
 What normalization promises (internal/config/normalize.go): its result is canonical, canonical
 settings pass unchanged and unreported.
 */
module CanonicalSettings {
  import opened Prelude
  import opened Text
  import opened Decimal
  import Hex
  import M = Mapping
  import opened Normalize

  // ---------- the canonical form ----------

  predicate CanonicalHotkey(hotkey: string) {
    hotkey == "" || (Trimmed(hotkey) && ValidHotkey(hotkey))
  }

  /** Profiles have names of their own, working hotkeys of their own, and canonical mappings. */
  ghost predicate WellFormedProfiles(profiles: seq<Profile>) {
    && (forall i :: 0 <= i < |profiles| ==>
          && profiles[i].name != "" && Trimmed(profiles[i].name)
          && CanonicalHotkey(profiles[i].hotkey)
          && M.IsCanonical(profiles[i].mapping))
    && (forall i, j :: 0 <= i < j < |profiles| ==> Lower(profiles[i].name) != Lower(profiles[j].name))
    && (forall i, j :: 0 <= i < j < |profiles| && profiles[i].hotkey != "" && profiles[j].hotkey != "" ==>
          Lower(profiles[i].hotkey) != Lower(profiles[j].hotkey))
  }

  predicate UsableDiscord(d: Discord) {
    && Trimmed(d.clientId) && Trimmed(d.clientSecret)
    && (d.enabled ==> AllDigits(d.clientId) && d.clientSecret != "")
  }

  predicate UsableCOM(c: COM) {
    c.port != "" && c.baudRate > 0 && Hex.IsCanonicalWord(c.vid) && Hex.IsCanonicalWord(c.pid)
  }

  predicate UsableOBS(o: OBS) { 1 <= o.port <= 65535 && o.host != "" }

  ghost predicate IsCanonical(v: Values) {
    && UsableCOM(v.com) && UsableOBS(v.obs) && UsableDiscord(v.discord)
    && KnownNoiseLevel(v.noiseReduction) && KnownLanguage(v.language)
    && v.profiles != [] && WellFormedProfiles(v.profiles)
    && (exists p <- v.profiles :: p.name == v.activeProfile)
  }

  // ---------- scalars ----------

  lemma DefaultsAreCanonical()
    ensures UsableCOM(DEFAULT_COM) && KnownNoiseLevel(DEFAULT_NOISE) && KnownLanguage(DEFAULT_LANGUAGE)
  {
    assert Hex.Format(0x1A86) == "1A86";
    assert Hex.Format(0x7523) == "7523";
    Hex.FormatRoundTrip(0x1A86);
    Hex.FormatRoundTrip(0x7523);
  }

  lemma COMIsStable(c: COM)
    ensures UsableCOM(CanonicalCOM(c))
    ensures UsableCOM(c) ==> CanonicalCOM(c) == c && COMProblems(c) == []
  {
    DefaultsAreCanonical();
    hide Hex.CanonicalWord, Hex.IsCanonicalWord;
    Hex.CanonicalWordIsStable(c.vid, DEFAULT_COM.vid);
    Hex.CanonicalWordIsStable(c.pid, DEFAULT_COM.pid);
  }

  lemma DiscordIsStable(d: Discord)
    ensures UsableDiscord(CanonicalDiscord(d))
    ensures UsableDiscord(d) ==> CanonicalDiscord(d) == d && DiscordProblems(d) == []
  {
    TrimTrims(d.clientId);
    TrimTrims(d.clientSecret);
  }

  // ---------- profiles ----------

  /** What is true of the loop's variables after any number of rounds. */
  ghost predicate BuiltWell(b: Built) {
    && WellFormedProfiles(b.profiles)
    && (forall p <- b.profiles :: Lower(p.name) in b.names && (p.hotkey != "" ==> Lower(p.hotkey) in b.hotkeys))
  }

  lemma {:induction false} DigitsAreNoSpace(n: nat)
    ensures Trimmed("profile " + Itoa(n))
  {
    DigitsRoundTrip(n);
    var s := "profile " + Itoa(n);
    assert IsDigit(Itoa(n)[|Itoa(n)| - 1]);
    assert s[|s| - 1] == Itoa(n)[|Itoa(n)| - 1];
  }

  lemma AddedProfileIsCanonical(b: Built, i: nat, p: Profile)
    ensures var name := NameOf(i, p);
            && name != "" && Trimmed(name) && CanonicalHotkey(HotkeyOf(b, name, p).0)
            && M.IsCanonical(M.Canonical(p.mapping))
  {
    hide ValidHotkey, Itoa, Trim, M.Canonical, M.IsCanonical;
    TrimTrims(p.name);
    TrimTrims(p.hotkey);
    DigitsAreNoSpace(i + 1);
    M.CanonicalIsCanonical(p.mapping);
  }

  lemma AddBuildsWell(b: Built, i: nat, p: Profile)
    requires BuiltWell(b)
    ensures BuiltWell(Add(b, i, p))
  {
    hide ValidHotkey, Itoa, Trim, Lower, M.Canonical, M.IsCanonical, CanonicalHotkey, Trimmed, NameOf;
    AddedProfileIsCanonical(b, i, p);
    var next := Add(b, i, p);
    if Lower(NameOf(i, p)) !in b.names {
      assert forall k :: 0 <= k < |b.profiles| ==> next.profiles[k] == b.profiles[k] && b.profiles[k] in b.profiles;
    }
  }

  lemma {:induction false} BuildsWell(profiles: seq<Profile>)
    ensures BuiltWell(Build(profiles))
  {
    if profiles != [] {
      BuildsWell(profiles[..|profiles| - 1]);
      AddBuildsWell(Build(profiles[..|profiles| - 1]), |profiles| - 1, profiles[|profiles| - 1]);
    }
  }

  /** Well-formed profiles go through the loop as they are; the seen-maps hold exactly their names and hotkeys. */
  ghost predicate PassedThrough(b: Built, profiles: seq<Profile>) {
    && b.profiles == profiles && b.problems == []
    && (forall s <- b.names :: exists p <- profiles :: Lower(p.name) == s)
    && (forall s <- b.hotkeys :: exists p <- profiles :: p.hotkey != "" && Lower(p.hotkey) == s)
  }

  lemma {:induction false} WellFormedPassThrough(profiles: seq<Profile>)
    requires WellFormedProfiles(profiles)
    ensures PassedThrough(Build(profiles), profiles)
  {
    if profiles != [] {
      var before, p := profiles[..|profiles| - 1], profiles[|profiles| - 1];
      assert profiles == before + [p];
      WellFormedPassThrough(before);
      LastPassesThrough(Build(before), before, p);
    }
  }

  lemma LastIsDistinct(before: seq<Profile>, p: Profile)
    requires WellFormedProfiles(before + [p])
    ensures forall q <- before :: q in before + [p]
                               && Lower(q.name) != Lower(p.name)
                               && (q.hotkey != "" && p.hotkey != "" ==> Lower(q.hotkey) != Lower(p.hotkey))
  {
    hide ValidHotkey, Itoa, Trim, Lower, Trimmed, M.IsCanonical;
    var all := before + [p];
    forall q <- before ensures && Lower(q.name) != Lower(p.name)
                               && (q.hotkey != "" && p.hotkey != "" ==> Lower(q.hotkey) != Lower(p.hotkey)) {
      var k :| 0 <= k < |before| && before[k] == q;
      assert all[k] == q && all[|before|] == p;
    }
  }

  lemma LastIsAdded(b: Built, before: seq<Profile>, p: Profile)
    requires PassedThrough(b, before) && WellFormedProfiles(before + [p])
    ensures Add(b, |before|, p) == Built(before + [p], b.names + {Lower(p.name)},
                                         if p.hotkey == "" then b.hotkeys else b.hotkeys + {Lower(p.hotkey)}, [])
  {
    var all := before + [p];
    assert all[|before|] == p;
    assert Trimmed(p.name) && Trimmed(p.hotkey) && CanonicalHotkey(p.hotkey);
    TrimTrims(p.name);
    TrimTrims(p.hotkey);
    LastIsDistinct(before, p);
    hide ValidHotkey, Itoa, Trim, Lower, Trimmed, M.Canonical, M.Problems, M.IsCanonical, WellFormedProfiles;
    M.CanonicalIsStable(p.mapping);
    assert NameOf(|before|, p) == p.name && HotkeyOf(b, p.name, p) == (p.hotkey, []);
  }

  lemma LastPassesThrough(b: Built, before: seq<Profile>, p: Profile)
    requires PassedThrough(b, before) && WellFormedProfiles(before + [p])
    ensures PassedThrough(Add(b, |before|, p), before + [p])
  {
    LastIsAdded(b, before, p);
    hide Add, Lower, WellFormedProfiles;
    assert p in before + [p];
  }

  lemma DefaultProfileIsWellFormed()
    ensures WellFormedProfiles([Profile(DEFAULT_PROFILE_NAME, "", [])])
  {
  }

  lemma {:induction false} FindsProfiles(profiles: seq<Profile>, name: string)
    ensures FindProfileName(profiles, name).Some? <==> exists p <- profiles :: Lower(p.name) == Lower(name)
    ensures FindProfileName(profiles, name).Some? ==>
              exists p <- profiles :: p.name == FindProfileName(profiles, name).value && Lower(p.name) == Lower(name)
  {
    if profiles != [] {
      hide Lower;
      var first, more := profiles[0], profiles[1..];
      assert profiles == [first] + more;
      FindsProfiles(more, name);
      assert first in profiles;
    }
  }

  /** Looking a name up gives that very name when a profile has it. */
  lemma {:induction false} FindsOwnName(profiles: seq<Profile>, k: nat)
    requires WellFormedProfiles(profiles) && k < |profiles|
    ensures FindProfileName(profiles, profiles[k].name) == Some(profiles[k].name)
  {
    if k > 0 {
      assert Lower(profiles[0].name) != Lower(profiles[k].name);
      var more := profiles[1..];
      assert forall j :: 0 <= j < |more| ==> more[j] == profiles[j + 1];
      FindsOwnName(more, k - 1);
    }
  }

  // ---------- results ----------

  /** Whatever the settings were, normalization makes them canonical. */
  lemma CanonicalIsCanonical(v: Values)
    ensures IsCanonical(Canonical(v))
  {
    DefaultsAreCanonical();
    COMIsStable(v.com);
    DiscordIsStable(v.discord);
    BuildsWell(v.profiles);
    DefaultProfileIsWellFormed();
    var profiles := CanonicalProfiles(v.profiles);
    FindsProfiles(profiles, Trim(v.activeProfile));
    hide WellFormedProfiles, UsableCOM, UsableDiscord, CanonicalCOM, CanonicalDiscord, KnownNoiseLevel, KnownLanguage,
         Build, FindProfileName;
    assert profiles[0] in profiles;
  }

  lemma ProfilesAreStable(v: Values)
    requires IsCanonical(v)
    ensures CanonicalProfiles(v.profiles) == v.profiles && ActiveOf(v.profiles, v.activeProfile) == v.activeProfile
    ensures Build(v.profiles).problems == [] && ActiveProblems(v.profiles, v.activeProfile) == []
  {
    var p :| p in v.profiles && p.name == v.activeProfile;
    TrimTrims(v.activeProfile);
    WellFormedPassThrough(v.profiles);
    var k :| 0 <= k < |v.profiles| && v.profiles[k] == p;
    FindsOwnName(v.profiles, k);
    hide WellFormedProfiles, Build, FindProfileName, Lower;
  }

  /** Canonical settings pass unchanged, and nothing is reported about them. */
  lemma CanonicalIsStable(v: Values)
    requires IsCanonical(v)
    ensures Canonical(v) == v && Problems(v) == []
  {
    ProfilesAreStable(v);
    COMIsStable(v.com);
    DiscordIsStable(v.discord);
    hide WellFormedProfiles, CanonicalProfiles, Build, ActiveOf, ActiveProblems, UsableCOM, UsableDiscord,
         CanonicalCOM, CanonicalDiscord, COMProblems, DiscordProblems, KnownNoiseLevel, KnownLanguage;
  }

  /** normalize is idempotent, and its second run reports nothing. */
  lemma NormalizeIsIdempotent(v: Values)
    ensures Canonical(Canonical(v)) == Canonical(v) && Problems(Canonical(v)) == []
  {
    CanonicalIsCanonical(v);
    CanonicalIsStable(Canonical(v));
  }

  /** The mapping in force, as consumers look it up. */
  function ActiveMapping(profiles: seq<Profile>, active: string): M.SliderMappings {
    if profiles == [] then []
    else
      match FindExact(profiles, active)
      case Some(mapping) => mapping
      case None => profiles[0].mapping
  }

  function FindExact(profiles: seq<Profile>, name: string): Option<M.SliderMappings> {
    if profiles == [] then None
    else if profiles[0].name == name then Some(profiles[0].mapping)
    else FindExact(profiles[1..], name)
  }

  /** In canonical settings the active profile resolves, and to the one profile of that name. */
  lemma {:induction false} ActiveProfileResolves(v: Values, i: nat)
    requires IsCanonical(v) && i < |v.profiles|
    ensures FindExact(v.profiles, v.activeProfile).Some?
    ensures v.profiles[i].name == v.activeProfile ==>
              ActiveMapping(v.profiles, v.activeProfile) == v.profiles[i].mapping
  {
    var p :| p in v.profiles && p.name == v.activeProfile;
    var k :| 0 <= k < |v.profiles| && v.profiles[k] == p;
    FindsExactly(v.profiles, k);
    assert i != k ==> Lower(v.profiles[i].name) != Lower(v.profiles[k].name);
  }

  lemma {:induction false} FindsExactly(profiles: seq<Profile>, k: nat)
    requires WellFormedProfiles(profiles) && k < |profiles|
    ensures FindExact(profiles, profiles[k].name) == Some(profiles[k].mapping)
  {
    if k > 0 {
      assert Lower(profiles[0].name) != Lower(profiles[k].name);
      var more := profiles[1..];
      assert forall j :: 0 <= j < |more| ==> more[j] == profiles[j + 1];
      FindsExactly(more, k - 1);
    }
  }
}
