/**
 Settings and their canonical form: internal/config/model.go, internal/config/defaults.go and
 internal/config/normalize.go. Case folding and trimming are ASCII.
 */
module Normalize {
  import opened Prelude
  import opened Text
  import opened Decimal
  import Hex
  import M = Mapping

  datatype COM = COM(port: string, baudRate: int, vid: string, pid: string)

  datatype OBS = OBS(enabled: bool, host: string, port: int, password: string, volumeConversion: bool)

  datatype Discord = Discord(enabled: bool, clientId: string, clientSecret: string, volumeConversion: bool)

  datatype Profile = Profile(name: string, hotkey: string, mapping: M.SliderMappings)

  datatype Values = Values(
    activeProfile: string,
    profiles: seq<Profile>,
    invertSliders: bool,
    com: COM,
    noiseReduction: string,
    language: string,
    obs: OBS,
    discord: Discord)

  const DEFAULT_PROFILE_NAME := "default"
  const DEFAULT_COM := COM("auto", 9600, "1A86", "7523")
  const DEFAULT_HOST := "localhost"
  const DEFAULT_OBS_PORT := 4455
  const DEFAULT_NOISE := ""
  const DEFAULT_LANGUAGE := "auto"

  const NOISE_LEVELS := ["", "low", "default", "high", "none"]
  const LANGUAGES := ["auto", "en", "ru"]
  const MODIFIERS := ["cmdorctrl", "cmd", "command", "ctrl", "optionoralt", "alt", "option", "shift", "super"]

  datatype Problem =
    | EmptyPort
    | BadBaudRate(rate: int)
    | BadVid(text: string)
    | BadPid(text: string)
    | BadNoiseLevel(text: string)
    | BadLanguage(text: string)
    | BadObsPort(port: int)
    | NoClientId
    | BadClientId(text: string)
    | NoClientSecret
    | UnnamedProfile(index: int, generated: string)
    | DuplicateProfile(name: string)
    | BadHotkey(name: string, hotkey: string)
    | DuplicateHotkey(name: string, hotkey: string)
    | InMapping(name: string, problem: M.Problem)
    | UnknownActiveProfile(name: string)

  predicate KnownNoiseLevel(s: string) { s in NOISE_LEVELS }

  predicate KnownLanguage(s: string) { s in LANGUAGES }

  function Unless(ok: bool, p: Problem): seq<Problem> { if ok then [] else [p] }

  // ---------- the scalar settings ----------

  function CanonicalCOM(c: COM): COM {
    COM(if c.port == "" then DEFAULT_COM.port else c.port,
        if c.baudRate <= 0 then DEFAULT_COM.baudRate else c.baudRate,
        Hex.CanonicalWord(c.vid, DEFAULT_COM.vid).0,
        Hex.CanonicalWord(c.pid, DEFAULT_COM.pid).0)
  }

  function COMProblems(c: COM): seq<Problem> {
    Unless(c.port != "", EmptyPort)
    + Unless(c.baudRate > 0, BadBaudRate(c.baudRate))
    + Unless(Hex.CanonicalWord(c.vid, DEFAULT_COM.vid).1, BadVid(c.vid))
    + Unless(Hex.CanonicalWord(c.pid, DEFAULT_COM.pid).1, BadPid(c.pid))
  }

  function Chosen(noise: string, language: string): (string, string) {
    (if KnownNoiseLevel(noise) then noise else DEFAULT_NOISE,
     if KnownLanguage(language) then language else DEFAULT_LANGUAGE)
  }

  function ChoiceProblems(noise: string, language: string): seq<Problem> {
    Unless(KnownNoiseLevel(noise), BadNoiseLevel(noise)) + Unless(KnownLanguage(language), BadLanguage(language))
  }

  function CanonicalOBS(o: OBS): OBS {
    o.(port := if o.port < 1 || o.port > 65535 then DEFAULT_OBS_PORT else o.port,
       host := if o.host == "" then DEFAULT_HOST else o.host)
  }

  function DiscordProblems(d: Discord): seq<Problem> {
    var id, secret := Trim(d.clientId), Trim(d.clientSecret);
    if !d.enabled then []
    else
      (if id == "" then [NoClientId] else Unless(AllDigits(id), BadClientId(id)))
      + Unless(secret != "", NoClientSecret)
  }

  function CanonicalDiscord(d: Discord): Discord {
    var id, secret := Trim(d.clientId), Trim(d.clientSecret);
    if !d.enabled then d.(clientId := id, clientSecret := secret)
    else Discord(DiscordProblems(d) == [], if id != "" && !AllDigits(id) then "" else id, secret, d.volumeConversion)
  }

  // ---------- profiles ----------

  /** A wails accelerator with at least one modifier. */
  predicate ValidHotkey(hotkey: string) {
    var components := Split(hotkey, '+');
    && |components| >= 2
    && (forall i :: 0 <= i < |components| - 1 ==> Lower(Trim(components[i])) in MODIFIERS)
    && Trim(components[|components| - 1]) != ""
  }

  /** What the profile loop has built: the profiles kept, the names and hotkeys seen, the problems. */
  datatype Built = Built(profiles: seq<Profile>, names: set<string>, hotkeys: set<string>, problems: seq<Problem>)

  function NameOf(i: nat, p: Profile): string { if Trim(p.name) == "" then "profile " + Itoa(i + 1) else Trim(p.name) }

  function NameProblems(i: nat, p: Profile): seq<Problem> {
    Unless(Trim(p.name) != "", UnnamedProfile(i + 1, NameOf(i, p)))
  }

  /** The hotkey that stays, and the problem with one that does not. */
  function HotkeyOf(b: Built, name: string, p: Profile): (string, seq<Problem>) {
    var hotkey := Trim(p.hotkey);
    if hotkey == "" then ("", [])
    else if !ValidHotkey(hotkey) then ("", [BadHotkey(name, hotkey)])
    else if Lower(hotkey) in b.hotkeys then ("", [DuplicateHotkey(name, hotkey)])
    else (hotkey, [])
  }

  function MappingProblems(name: string, problems: seq<M.Problem>): seq<Problem> {
    seq(|problems|, i requires 0 <= i < |problems| => InMapping(name, problems[i]))
  }

  /** One round of the profile loop. */
  function Add(b: Built, i: nat, p: Profile): Built {
    var name := NameOf(i, p);
    var named := NameProblems(i, p);
    if Lower(name) in b.names then b.(problems := b.problems + named + [DuplicateProfile(name)])
    else
      var (hotkey, hotkeyProblems) := HotkeyOf(b, name, p);
      Built(b.profiles + [Profile(name, hotkey, M.Canonical(p.mapping))],
            b.names + {Lower(name)},
            if hotkey == "" then b.hotkeys else b.hotkeys + {Lower(hotkey)},
            b.problems + named + hotkeyProblems + MappingProblems(name, M.Problems(p.mapping)))
  }

  function Build(profiles: seq<Profile>): Built {
    if profiles == [] then Built([], {}, {}, [])
    else Add(Build(profiles[..|profiles| - 1]), |profiles| - 1, profiles[|profiles| - 1])
  }

  /** The first profile of that name, whatever its case, in its own spelling. */
  function FindProfileName(profiles: seq<Profile>, name: string): Option<string> {
    if profiles == [] then None
    else if Lower(profiles[0].name) == Lower(name) then Some(profiles[0].name)
    else FindProfileName(profiles[1..], name)
  }

  function CanonicalProfiles(profiles: seq<Profile>): (r: seq<Profile>)
    ensures r != []
  {
    var kept := Build(profiles).profiles;
    if kept == [] then [Profile(DEFAULT_PROFILE_NAME, "", [])] else kept
  }

  function ActiveOf(profiles: seq<Profile>, active: string): string
    requires profiles != []
  {
    match FindProfileName(profiles, Trim(active))
    case Some(name) => name
    case None => profiles[0].name
  }

  function ActiveProblems(profiles: seq<Profile>, active: string): seq<Problem> {
    Unless(FindProfileName(profiles, Trim(active)).Some? || Trim(active) == "", UnknownActiveProfile(Trim(active)))
  }

  // ---------- all of it ----------

  function Canonical(v: Values): Values {
    var profiles := CanonicalProfiles(v.profiles);
    Values(ActiveOf(profiles, v.activeProfile), profiles, v.invertSliders, CanonicalCOM(v.com),
           Chosen(v.noiseReduction, v.language).0, Chosen(v.noiseReduction, v.language).1,
           CanonicalOBS(v.obs), CanonicalDiscord(v.discord))
  }

  function Problems(v: Values): seq<Problem> {
    COMProblems(v.com)
    + ChoiceProblems(v.noiseReduction, v.language)
    + Unless(1 <= v.obs.port <= 65535, BadObsPort(v.obs.port))
    + DiscordProblems(v.discord)
    + (Build(v.profiles).problems + ActiveProblems(CanonicalProfiles(v.profiles), v.activeProfile))
  }

  class Settings {
    var activeProfile: string
    var profiles: seq<Profile>
    var invertSliders: bool
    var com: COM
    var noiseReduction: string
    var language: string
    var obs: OBS
    var discord: Discord

    function View(): Values
      reads this
    {
      Values(activeProfile, profiles, invertSliders, com, noiseReduction, language, obs, discord)
    }

    constructor (v: Values)
      ensures View() == v
    {
      activeProfile, profiles, invertSliders, com := v.activeProfile, v.profiles, v.invertSliders, v.com;
      noiseReduction, language, obs, discord := v.noiseReduction, v.language, v.obs, v.discord;
    }

    /** normalize, its sections as methods of their own. */
    method Normalize() returns (problems: seq<Problem>)
      modifies this
      ensures View() == Canonical(old(View())) && problems == Problems(old(View()))
    {
      hide Build, CanonicalProfiles, ActiveOf, ActiveProblems, CanonicalCOM, COMProblems, CanonicalDiscord,
           DiscordProblems, CanonicalOBS, ChoiceProblems, Chosen;
      var comProblems := NormalizeCOM();
      var choiceProblems := NormalizeChoices();
      var obsProblems := NormalizeOBS();
      var discordProblems := NormalizeDiscord();
      var profileProblems := NormalizeProfiles();
      problems := comProblems + choiceProblems + obsProblems + discordProblems + profileProblems;
    }

    /** The noise reduction level and the language. */
    method NormalizeChoices() returns (problems: seq<Problem>)
      modifies this`noiseReduction, this`language
      ensures (noiseReduction, language) == Chosen(old(noiseReduction), old(language))
      ensures problems == ChoiceProblems(old(noiseReduction), old(language))
    {
      hide KnownNoiseLevel, KnownLanguage;
      problems := [];
      if !KnownNoiseLevel(noiseReduction) {
        problems := problems + [BadNoiseLevel(noiseReduction)];
        noiseReduction := DEFAULT_NOISE;
      }
      if !KnownLanguage(language) {
        problems := problems + [BadLanguage(language)];
        language := DEFAULT_LANGUAGE;
      }
    }

    method NormalizeOBS() returns (problems: seq<Problem>)
      modifies this`obs
      ensures obs == CanonicalOBS(old(obs))
      ensures problems == Unless(1 <= old(obs).port <= 65535, BadObsPort(old(obs).port))
    {
      problems := [];
      var server := obs;
      if server.port < 1 || server.port > 65535 {
        problems := problems + [BadObsPort(server.port)];
        server := server.(port := DEFAULT_OBS_PORT);
      }
      if server.host == "" {
        server := server.(host := DEFAULT_HOST);
      }
      obs := server;
    }

    /** The connection settings of normalize. */
    method NormalizeCOM() returns (problems: seq<Problem>)
      modifies this`com
      ensures com == CanonicalCOM(old(com)) && problems == COMProblems(old(com))
    {
      hide Hex.CanonicalWord;
      problems := [];
      var c := com;
      if c.port == "" {
        problems := problems + [EmptyPort];
        c := c.(port := DEFAULT_COM.port);
      }
      if c.baudRate <= 0 {
        problems := problems + [BadBaudRate(c.baudRate)];
        c := c.(baudRate := DEFAULT_COM.baudRate);
      }
      var (vid, vidOk) := Hex.CanonicalWord(c.vid, DEFAULT_COM.vid);
      if !vidOk {
        problems := problems + [BadVid(c.vid)];
      }
      c := c.(vid := vid);
      var (pid, pidOk) := Hex.CanonicalWord(c.pid, DEFAULT_COM.pid);
      if !pidOk {
        problems := problems + [BadPid(c.pid)];
      }
      com := c.(pid := pid);
    }

    method NormalizeDiscord() returns (problems: seq<Problem>)
      modifies this`discord
      ensures discord == CanonicalDiscord(old(discord)) && problems == DiscordProblems(old(discord))
    {
      problems := [];
      discord := discord.(clientId := Trim(discord.clientId), clientSecret := Trim(discord.clientSecret));
      if !discord.enabled {
        return;
      }
      if discord.clientId == "" {
        problems := problems + [NoClientId];
      } else if !AllDigits(discord.clientId) {
        problems := problems + [BadClientId(discord.clientId)];
        discord := discord.(clientId := "");
      }
      if discord.clientSecret == "" {
        problems := problems + [NoClientSecret];
      }
      if |problems| > 0 {
        discord := discord.(enabled := false);
      }
    }

    /** One round of the profile loop; b stands for the loop's variables. */
    static method AddProfile(b: Built, i: nat, p: Profile) returns (next: Built)
      ensures next == Add(b, i, p)
    {
      hide Trim, Lower, ValidHotkey, Itoa, M.Canonical, M.Problems;
      var problems := b.problems;
      var name := Trim(p.name);
      if name == "" {
        name := "profile " + Itoa(i + 1);
        problems := problems + [UnnamedProfile(i + 1, name)];
      }
      if Lower(name) in b.names {
        return b.(problems := problems + [DuplicateProfile(name)]);
      }
      var hotkey, hotkeys := Trim(p.hotkey), b.hotkeys;
      if hotkey != "" {
        if !ValidHotkey(hotkey) {
          problems := problems + [BadHotkey(name, hotkey)];
          hotkey := "";
        } else if Lower(hotkey) in hotkeys {
          problems := problems + [DuplicateHotkey(name, hotkey)];
          hotkey := "";
        } else {
          hotkeys := hotkeys + {Lower(hotkey)};
        }
      }
      var mapping, mappingProblems := M.Normalized(p.mapping);
      problems := problems + MappingProblems(name, mappingProblems);
      next := Built(b.profiles + [Profile(name, hotkey, mapping)], b.names + {Lower(name)}, hotkeys, problems);
    }

    method NormalizeProfiles() returns (problems: seq<Problem>)
      modifies this`profiles, this`activeProfile
      ensures profiles == CanonicalProfiles(old(profiles))
      ensures activeProfile == ActiveOf(profiles, old(activeProfile))
      ensures problems == Build(old(profiles)).problems + ActiveProblems(profiles, old(activeProfile))
    {
      hide Add, FindProfileName, Trim;
      var built := Built([], {}, {}, []);
      var i := 0;
      assert profiles[..0] == [];
      while i < |profiles|
        invariant 0 <= i <= |profiles| && unchanged(this)
        invariant built == Build(profiles[..i])
      {
        assert profiles[..i + 1][..i] == profiles[..i];
        built := AddProfile(built, i, profiles[i]);
        i := i + 1;
      }
      assert profiles[..i] == profiles;
      var kept := built.profiles;
      problems := built.problems;
      if |kept| == 0 {
        kept := [Profile(DEFAULT_PROFILE_NAME, "", [])];
      }
      profiles := kept;
      activeProfile := Trim(activeProfile);
      var resolved := FindProfileName(kept, activeProfile);
      if resolved.Some? {
        activeProfile := resolved.value;
      } else {
        if activeProfile != "" {
          problems := problems + [UnknownActiveProfile(activeProfile)];
        }
        activeProfile := kept[0].name;
      }
    }
  }
}
