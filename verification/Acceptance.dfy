/**
 Which settings a save accepts, and what normalization makes of any settings: stated about the raw
 values, beside the functions that normalize and report (internal/config/normalize.go,
 internal/config/mapping.go, internal/config/model.go).
 */
module Acceptance {
  import opened Prelude
  import opened Text
  import opened Decimal
  import opened Normalize
  import Hex
  import M = Mapping
  import C = CanonicalSettings

  // ---------- what is acceptable ----------

  /** Left blank, or a 16-bit number in hex. */
  ghost predicate WordText(h: string) { Blank(h) || exists w: Hex.Word16 :: Hex.Writes(h, w) }

  predicate IsModifier(s: string) {
    s in ["cmdorctrl", "cmd", "command", "ctrl", "optionoralt", "alt", "option", "shift", "super"]
  }

  /** Modifiers in any case, at least one, and a key; blanks around each do not matter. */
  predicate HotkeyParts(parts: seq<string>) {
    && |parts| >= 2
    && (forall i :: 0 <= i < |parts| - 1 ==> IsModifier(Lower(Trim(parts[i]))))
    && !Blank(parts[|parts| - 1])
  }

  /** Such parts, joined by plus signs. */
  ghost predicate HotkeyText(h: string) {
    exists parts: seq<string> ::
      parts != [] && HotkeyParts(parts) && JoinWith(parts, '+') == h && forall p <- parts :: Without(p, '+')
  }

  function NameKey(p: Profile): string { Lower(Trim(p.name)) }

  function HotkeyKey(p: Profile): string { Lower(Trim(p.hotkey)) }

  /** Indexes that are distinct and not negative. */
  ghost predicate CleanMapping(m: M.SliderMappings) { M.DistinctSliders(m) && forall e <- m :: e.slider >= 0 }

  ghost predicate AcceptableProfile(p: Profile) {
    && !Blank(p.name)
    && (Blank(p.hotkey) || HotkeyText(Trim(p.hotkey)))
    && CleanMapping(p.mapping)
  }

  predicate Differ(p: Profile, q: Profile) {
    && NameKey(p) != NameKey(q)
    && (Blank(p.hotkey) || Blank(q.hotkey) || HotkeyKey(p) != HotkeyKey(q))
  }

  ghost predicate AcceptableProfiles(ps: seq<Profile>) {
    && (forall i :: 0 <= i < |ps| ==> AcceptableProfile(ps[i]))
    && (forall i, j :: 0 <= i < j < |ps| ==> Differ(ps[i], ps[j]))
  }

  ghost predicate AcceptableCOM(c: COM) { c.port != "" && c.baudRate > 0 && WordText(c.vid) && WordText(c.pid) }

  predicate AcceptableDiscord(d: Discord) { d.enabled ==> AllDigits(Trim(d.clientId)) && !Blank(d.clientSecret) }

  /** No active name, or one that some profile has in some case; without profiles there is the default one. */
  predicate ActiveResolves(ps: seq<Profile>, active: string) {
    || Blank(active)
    || (exists p <- ps :: NameKey(p) == Lower(Trim(active)))
    || (ps == [] && Lower(Trim(active)) == "default")
  }

  ghost predicate Acceptable(v: Values) {
    && AcceptableCOM(v.com)
    && v.noiseReduction in ["", "low", "default", "high", "none"] && v.language in ["auto", "en", "ru"]
    && 1 <= v.obs.port <= 65535
    && AcceptableDiscord(v.discord)
    && AcceptableProfiles(v.profiles) && ActiveResolves(v.profiles, v.activeProfile)
  }

  // ---------- the scalar settings ----------

  lemma BlankTrims(s: string)
    ensures Blank(s) <==> Trim(s) == ""
  {
    TrimExactly(s, "");
    if Blank(s) {
      assert s == "" + "" + s;
    }
    if Trim(s) == "" {
      var left, right :| Blank(left) && Blank(right) && s == left + "" + right;
    }
  }

  lemma WordsExactly(h: string, default: string)
    ensures Hex.CanonicalWord(h, default).1 <==> WordText(h)
  {
    BlankTrims(h);
    hide Trim, Hex.Writes, Hex.Value;
    if Hex.Value(h).Some? {
      Hex.ValueExactly(h, Hex.Value(h).value);
    }
    if w: Hex.Word16 :| Hex.Writes(h, w) {
      Hex.ValueExactly(h, w);
    }
  }

  lemma COMExactly(c: COM)
    ensures COMProblems(c) == [] <==> AcceptableCOM(c)
  {
    WordsExactly(c.vid, DEFAULT_COM.vid);
    WordsExactly(c.pid, DEFAULT_COM.pid);
    hide Hex.CanonicalWord, WordText;
  }

  lemma DiscordExactly(d: Discord)
    ensures DiscordProblems(d) == [] <==> AcceptableDiscord(d)
  {
    BlankTrims(d.clientSecret);
    hide Trim;
  }

  lemma HotkeysExactly(h: string)
    ensures ValidHotkey(h) <==> HotkeyText(h)
  {
    var parts := Split(h, '+');
    SplitExactly(h, '+', parts);
    PartsExactly(h);
    hide ValidHotkey, HotkeyParts, Split, JoinWith, Without;
    if HotkeyText(h) {
      var those: seq<string> :|
        those != [] && HotkeyParts(those) && JoinWith(those, '+') == h && forall p <- those :: Without(p, '+');
      SplitExactly(h, '+', those);
    }
  }

  lemma PartsExactly(h: string)
    ensures ValidHotkey(h) <==> HotkeyParts(Split(h, '+'))
  {
    var parts := Split(h, '+');
    BlankTrims(parts[|parts| - 1]);
    hide Split, Trim, Lower, Blank;
  }

  // ---------- profiles ----------

  /** A profile with the blanks around its texts cut off and its mapping in canonical form. */
  function Tidied(p: Profile): Profile { Profile(Trim(p.name), Trim(p.hotkey), M.Canonical(p.mapping)) }

  /** The loop has passed all these profiles on, and has seen exactly their names and hotkeys. */
  ghost predicate PassedOn(b: Built, ps: seq<Profile>) {
    && b.problems == [] && |b.profiles| == |ps|
    && (forall i :: 0 <= i < |ps| ==> b.profiles[i] == Tidied(ps[i]))
    && NamesOf(b.names, ps) && HotkeysOf(b.hotkeys, ps)
  }

  ghost predicate LastAcceptable(before: seq<Profile>, p: Profile) {
    AcceptableProfile(p) && forall q <- before :: Differ(q, p)
  }

  lemma AcceptableLast(before: seq<Profile>, p: Profile)
    ensures AcceptableProfiles(before + [p]) <==> AcceptableProfiles(before) && LastAcceptable(before, p)
  {
    hide AcceptableProfile, Differ;
    var all := before + [p];
    if AcceptableProfiles(all) {
      assert forall i :: 0 <= i < |before| ==> all[i] == before[i];
      assert all[|before|] == p;
      forall q <- before ensures Differ(q, p) {
        var i :| 0 <= i < |before| && before[i] == q;
        assert Differ(all[i], all[|before|]);
      }
    }
  }

  /** What one round of the loop reports, if the earlier ones reported nothing. */
  lemma AddReports(b: Built, before: seq<Profile>, p: Profile)
    requires PassedOn(b, before)
    ensures Add(b, |before|, p).problems == [] <==> LastAcceptable(before, p)
  {
    BlankTrims(p.name);
    BlankTrims(p.hotkey);
    HotkeysExactly(Trim(p.hotkey));
    M.NoProblemsExactly(p.mapping);
    hide Trim, Lower, Blank, ValidHotkey, HotkeyText, M.Problems, M.Canonical, Itoa;
    assert |MappingProblems(NameOf(|before|, p), M.Problems(p.mapping))| == |M.Problems(p.mapping)|;
  }

  lemma AddGives(b: Built, before: seq<Profile>, p: Profile)
    requires PassedOn(b, before) && LastAcceptable(before, p)
    ensures Add(b, |before|, p) ==
              Built(b.profiles + [Tidied(p)], b.names + {NameKey(p)},
                    if Blank(p.hotkey) then b.hotkeys else b.hotkeys + {HotkeyKey(p)}, [])
  {
    AddReports(b, before, p);
    BlankTrims(p.name);
    BlankTrims(p.hotkey);
    HotkeysExactly(Trim(p.hotkey));
    hide Trim, Lower, Blank, ValidHotkey, HotkeyText, M.Problems, M.Canonical, Itoa;
  }

  ghost predicate NamesOf(names: set<string>, ps: seq<Profile>) {
    forall s :: s in names <==> exists p <- ps :: NameKey(p) == s
  }

  ghost predicate HotkeysOf(hotkeys: set<string>, ps: seq<Profile>) {
    forall s :: s in hotkeys <==> exists p <- ps :: !Blank(p.hotkey) && HotkeyKey(p) == s
  }

  lemma NamesOfMore(names: set<string>, before: seq<Profile>, p: Profile)
    requires NamesOf(names, before)
    ensures NamesOf(names + {NameKey(p)}, before + [p])
  {
    hide NameKey;
    forall s ensures s in names + {NameKey(p)} <==> exists q <- before + [p] :: NameKey(q) == s {
      assert p in before + [p] && forall q <- before :: q in before + [p];
    }
  }

  lemma HotkeysOfMore(hotkeys: set<string>, before: seq<Profile>, p: Profile)
    requires HotkeysOf(hotkeys, before)
    ensures HotkeysOf(if Blank(p.hotkey) then hotkeys else hotkeys + {HotkeyKey(p)}, before + [p])
  {
    hide HotkeyKey, Blank;
    var more := if Blank(p.hotkey) then hotkeys else hotkeys + {HotkeyKey(p)};
    forall s ensures s in more <==> exists q <- before + [p] :: !Blank(q.hotkey) && HotkeyKey(q) == s {
      assert p in before + [p] && forall q <- before :: q in before + [p];
    }
  }

  lemma AddPassesOn(b: Built, before: seq<Profile>, p: Profile)
    requires PassedOn(b, before) && LastAcceptable(before, p)
    ensures PassedOn(Add(b, |before|, p), before + [p])
  {
    AddGives(b, before, p);
    NamesOfMore(b.names, before, p);
    HotkeysOfMore(b.hotkeys, before, p);
    hide Add, NameKey, HotkeyKey, Blank, Tidied, LastAcceptable, NamesOf, HotkeysOf;
  }

  lemma ProblemsStay(b: Built, i: nat, p: Profile)
    ensures b.problems <= Add(b, i, p).problems
  {
  }

  lemma RoundExactly(before: seq<Profile>, p: Profile)
    requires Build(before).problems == [] <==> AcceptableProfiles(before)
    requires AcceptableProfiles(before) ==> PassedOn(Build(before), before)
    ensures Build(before + [p]).problems == [] <==> AcceptableProfiles(before + [p])
    ensures AcceptableProfiles(before + [p]) ==> PassedOn(Build(before + [p]), before + [p])
  {
    BuildLast(before, p);
    AcceptableLast(before, p);
    ProblemsStay(Build(before), |before|, p);
    hide Build, Add, AcceptableProfiles, LastAcceptable, PassedOn;
    if AcceptableProfiles(before) {
      assert PassedOn(Build(before), before);
      AddReports(Build(before), before, p);
      if LastAcceptable(before, p) {
        AddPassesOn(Build(before), before, p);
      }
    }
  }

  lemma {:induction false} BuildExactly(ps: seq<Profile>)
    ensures Build(ps).problems == [] <==> AcceptableProfiles(ps)
    ensures AcceptableProfiles(ps) ==> PassedOn(Build(ps), ps)
  {
    hide *;
    if ps != [] {
      BuildExactly(ps[..|ps| - 1]);
      RoundExactly(ps[..|ps| - 1], ps[|ps| - 1]);
      assert ps[..|ps| - 1] + [ps[|ps| - 1]] == ps;
    } else {
      NothingIsReported();
    }
  }

  lemma NothingIsReported()
    ensures Build([]).problems == [] && AcceptableProfiles([]) && PassedOn(Build([]), [])
  {
  }

  /** The names the active one is looked up among. */
  lemma KeptNames(ps: seq<Profile>)
    requires AcceptableProfiles(ps) && ps != []
    ensures var kept := CanonicalProfiles(ps);
            |kept| == |ps| && forall i :: 0 <= i < |ps| ==> Lower(kept[i].name) == NameKey(ps[i])
  {
    BuildExactly(ps);
    hide Build, Trim, Lower, AcceptableProfiles;
  }

  lemma SameNames(ps: seq<Profile>, kept: seq<Profile>, key: string)
    requires |kept| == |ps| && forall i :: 0 <= i < |ps| ==> Lower(kept[i].name) == NameKey(ps[i])
    ensures (exists p <- kept :: Lower(p.name) == key) <==> exists p <- ps :: NameKey(p) == key
  {
    hide Lower, NameKey;
    if p :| p in ps && NameKey(p) == key {
      var i :| 0 <= i < |ps| && ps[i] == p;
      assert kept[i] in kept;
    }
    if p :| p in kept && Lower(p.name) == key {
      var i :| 0 <= i < |kept| && kept[i] == p;
      assert ps[i] in ps;
    }
  }

  /** The active name is fine exactly if it resolves among the raw profiles. */
  lemma ActiveExactly(ps: seq<Profile>, active: string)
    requires AcceptableProfiles(ps)
    ensures ActiveProblems(CanonicalProfiles(ps), active) == [] <==> ActiveResolves(ps, active)
  {
    BlankTrims(active);
    var kept := CanonicalProfiles(ps);
    C.FindsProfiles(kept, Trim(active));
    if ps == [] {
      assert kept == [Profile("default", "", [])] && Lower("default") == "default";
    } else {
      KeptNames(ps);
      SameNames(ps, kept, Lower(Trim(active)));
    }
    hide Trim, Lower, Blank, AcceptableProfiles, FindProfileName, CanonicalProfiles, NameKey;
  }

  /** Normalization has nothing to report, and so a save is accepted, exactly if the raw settings are acceptable. */
  lemma ProblemsExactly(v: Values)
    ensures Problems(v) == [] <==> Acceptable(v)
  {
    COMExactly(v.com);
    DiscordExactly(v.discord);
    BuildExactly(v.profiles);
    hide COMProblems, AcceptableCOM, DiscordProblems, AcceptableDiscord, Build, ActiveProblems, CanonicalProfiles,
         AcceptableProfiles, ActiveResolves;
    if AcceptableProfiles(v.profiles) {
      ActiveExactly(v.profiles, v.activeProfile);
    }
  }

  // ---------- what normalization makes of any settings ----------

  /** A word that is written in hex becomes its four digits, anything else the default. */
  ghost predicate WordBecomes(h: string, fixed: string, default: string) {
    && (forall w: Hex.Word16 :: Hex.Writes(h, w) ==> Hex.Format(w) == fixed)
    && ((forall w: Hex.Word16 :: !Hex.Writes(h, w)) ==> fixed == default)
  }

  ghost predicate COMBecomes(c: COM, fixed: COM) {
    && fixed.port == (if c.port == "" then "auto" else c.port)
    && fixed.baudRate == (if c.baudRate <= 0 then 9600 else c.baudRate)
    && WordBecomes(c.vid, fixed.vid, "1A86") && WordBecomes(c.pid, fixed.pid, "7523")
  }

  predicate OBSBecomes(o: OBS, fixed: OBS) {
    && fixed.host == (if o.host == "" then "localhost" else o.host)
    && fixed.port == (if 1 <= o.port <= 65535 then o.port else 4455)
    && fixed.enabled == o.enabled && fixed.password == o.password && fixed.volumeConversion == o.volumeConversion
  }

  predicate DiscordBecomes(d: Discord, fixed: Discord) {
    && fixed.clientId == (if d.enabled && !AllDigits(Trim(d.clientId)) then "" else Trim(d.clientId))
    && fixed.clientSecret == Trim(d.clientSecret)
    && (fixed.enabled <==> d.enabled && AcceptableDiscord(d))
    && fixed.volumeConversion == d.volumeConversion
  }

  /** The name a profile goes by: its own, or one that tells its place. */
  function GivenName(ps: seq<Profile>, i: nat): string
    requires i < |ps|
  {
    if Blank(ps[i].name) then "profile " + Itoa(i + 1) else Trim(ps[i].name)
  }

  /** No earlier profile goes by this name, in any case. */
  predicate IsFirst(ps: seq<Profile>, i: nat) {
    i < |ps| && forall j :: 0 <= j < i ==> Lower(GivenName(ps, j)) != Lower(GivenName(ps, i))
  }

  /** The places of the profiles that stay. */
  function Firsts(ps: seq<Profile>): seq<nat> {
    if ps == [] then []
    else Firsts(ps[..|ps| - 1]) + if IsFirst(ps, |ps| - 1) then [|ps| - 1] else []
  }

  /** A profile that stays has its name, its mapping in canonical form, and its hotkey if that is a hotkey and no
      earlier profile that stays has it. */
  ghost predicate ProfileBecomes(ps: seq<Profile>, i: nat, fixed: seq<Profile>, k: nat) {
    && i < |ps| && k < |fixed|
    && fixed[k].name == GivenName(ps, i)
    && fixed[k].mapping == M.Canonical(ps[i].mapping)
    && fixed[k].hotkey == (if HotkeyText(Trim(ps[i].hotkey)) && !TakenBefore(fixed, k, HotkeyKey(ps[i]))
                           then Trim(ps[i].hotkey) else "")
  }

  predicate TakenBefore(fixed: seq<Profile>, k: nat, key: string) {
    exists j :: 0 <= j < k && j < |fixed| && fixed[j].hotkey != "" && Lower(fixed[j].hotkey) == key
  }

  ghost predicate ProfilesBecome(ps: seq<Profile>, fixed: seq<Profile>) {
    if ps == [] then fixed == [Profile("default", "", [])]
    else
      AllBecome(ps, Firsts(ps), fixed)
  }

  /** The active name becomes the first profile's that has it in some case, or the first profile's of all. */
  predicate ActiveBecomes(active: string, fixed: seq<Profile>, resolved: string) {
    if exists k :: 0 <= k < |fixed| && Lower(fixed[k].name) == Lower(Trim(active)) then
      exists k ::
        && 0 <= k < |fixed| && fixed[k].name == resolved && Lower(resolved) == Lower(Trim(active))
        && forall j :: 0 <= j < k ==> Lower(fixed[j].name) != Lower(Trim(active))
    else fixed != [] && resolved == fixed[0].name
  }

  predicate ChoicesBecome(v: Values, fixed: Values) {
    && fixed.noiseReduction ==
         (if v.noiseReduction in ["", "low", "default", "high", "none"] then v.noiseReduction else "")
    && fixed.language == (if v.language in ["auto", "en", "ru"] then v.language else "auto")
  }

  ghost predicate Becomes(v: Values, fixed: Values) {
    && COMBecomes(v.com, fixed.com) && OBSBecomes(v.obs, fixed.obs) && DiscordBecomes(v.discord, fixed.discord)
    && ChoicesBecome(v, fixed)
    && fixed.invertSliders == v.invertSliders
    && ProfilesBecome(v.profiles, fixed.profiles)
    && ActiveBecomes(v.activeProfile, fixed.profiles, fixed.activeProfile)
  }

  lemma WordsBecome(h: string, default: string)
    ensures WordBecomes(h, Hex.CanonicalWord(h, default).0, default)
  {
    BlankTrims(h);
    if Hex.Value(h).Some? {
      Hex.ValueExactly(h, Hex.Value(h).value);
      assert Hex.Value("").None?;
    }
    forall w: Hex.Word16 | Hex.Writes(h, w) ensures Hex.Value(h) == Some(w) {
      Hex.ValueExactly(h, w);
    }
  }

  lemma DiscordFixed(d: Discord)
    ensures DiscordBecomes(d, CanonicalDiscord(d))
  {
    DiscordExactly(d);
    hide Trim, Blank;
  }

  lemma FirstsLast(before: seq<Profile>, p: Profile)
    ensures Firsts(before + [p]) == Firsts(before) + if IsFirst(before + [p], |before|) then [|before|] else []
  {
    assert (before + [p])[..|before|] == before;
  }

  lemma FirstInMore(before: seq<Profile>, p: Profile, i: nat)
    requires i < |before|
    ensures IsFirst(before + [p], i) == IsFirst(before, i)
  {
    forall j | 0 <= j <= i ensures GivenName(before + [p], j) == GivenName(before, j) {
      GivenInMore(before, p, j);
    }
    hide GivenName, Lower;
  }

  lemma NoFirstBeyond(ps: seq<Profile>, i: nat)
    requires i >= |ps|
    ensures !IsFirst(ps, i)
  {
  }

  ghost predicate FirstsAre(ps: seq<Profile>, firsts: seq<nat>) {
    && (forall i: nat :: i in firsts <==> IsFirst(ps, i))
    && (forall j, k :: 0 <= j < k < |firsts| ==> firsts[j] < firsts[k])
  }

  lemma FirstsWithLast(before: seq<Profile>, p: Profile, firsts: seq<nat>)
    requires FirstsAre(before, firsts)
    ensures FirstsAre(before + [p], firsts + if IsFirst(before + [p], |before|) then [|before|] else [])
  {
    var ps := before + [p];
    forall i: nat
      ensures IsFirst(ps, i) <==> (i < |before| && IsFirst(before, i)) || (i == |before| && IsFirst(ps, i))
    {
      if i < |before| {
        FirstInMore(before, p, i);
      } else if i > |before| {
        NoFirstBeyond(ps, i);
      }
    }
    forall k | 0 <= k < |firsts| ensures firsts[k] < |before| {
      assert firsts[k] in firsts && IsFirst(before, firsts[k]);
    }
    hide IsFirst;
  }

  /** Firsts are the places of the profiles whose name no earlier one has, all of them and in order. */
  lemma {:induction false} FirstsExactly(ps: seq<Profile>)
    ensures forall i: nat :: i in Firsts(ps) <==> IsFirst(ps, i)
    ensures forall j, k :: 0 <= j < k < |Firsts(ps)| ==> Firsts(ps)[j] < Firsts(ps)[k]
  {
    FirstsAreFirsts(ps);
  }

  lemma {:induction false} FirstsAreFirsts(ps: seq<Profile>)
    ensures FirstsAre(ps, Firsts(ps))
  {
    hide *;
    if ps != [] {
      FirstsAreFirsts(ps[..|ps| - 1]);
      FirstsWithLast(ps[..|ps| - 1], ps[|ps| - 1], Firsts(ps[..|ps| - 1]));
      FirstsLast(ps[..|ps| - 1], ps[|ps| - 1]);
      assert ps[..|ps| - 1] + [ps[|ps| - 1]] == ps;
    } else {
      NobodyIsFirst();
    }
  }

  lemma NobodyIsFirst()
    ensures FirstsAre([], Firsts([]))
  {
  }

  ghost predicate NamesSeen(names: set<string>, ps: seq<Profile>) { forall s :: s in names <==> Given(ps, s) }

  ghost predicate HotkeysSeen(hotkeys: set<string>, fixed: seq<Profile>) {
    forall s :: s in hotkeys <==> TakenBefore(fixed, |fixed|, s)
  }

  ghost predicate AllBecome(ps: seq<Profile>, firsts: seq<nat>, fixed: seq<Profile>) {
    |fixed| == |firsts| && forall k :: 0 <= k < |fixed| ==> ProfileBecomes(ps, firsts[k], fixed, k)
  }

  ghost predicate BuiltFrom(b: Built, ps: seq<Profile>) {
    AllBecome(ps, Firsts(ps), b.profiles) && NamesSeen(b.names, ps) && HotkeysSeen(b.hotkeys, b.profiles)
  }

  lemma NamesAreGiven(ps: seq<Profile>, i: nat)
    requires i < |ps|
    ensures NameOf(i, ps[i]) == GivenName(ps, i)
  {
    BlankTrims(ps[i].name);
  }

  lemma HotkeyIsFixed(b: Built, i: nat, p: Profile, name: string)
    requires HotkeysSeen(b.hotkeys, b.profiles)
    ensures HotkeyOf(b, name, p).0 ==
              if HotkeyText(Trim(p.hotkey)) && !TakenBefore(b.profiles, |b.profiles|, HotkeyKey(p))
              then Trim(p.hotkey) else ""
  {
    HotkeysExactly(Trim(p.hotkey));
    assert !ValidHotkey("");
    hide ValidHotkey, HotkeyText, Trim, TakenBefore;
  }

  lemma TakenByMore(fixed: seq<Profile>, more: Profile, k: nat, key: string)
    ensures k <= |fixed| ==> TakenBefore(fixed + [more], k, key) == TakenBefore(fixed, k, key)
    ensures TakenBefore(fixed + [more], |fixed| + 1, key) <==>
              TakenBefore(fixed, |fixed|, key) || (more.hotkey != "" && Lower(more.hotkey) == key)
  {
    var all := fixed + [more];
    assert all[|fixed|] == more && forall j :: 0 <= j < |fixed| ==> all[j] == fixed[j];
    hide Lower;
    if k <= |fixed| && TakenBefore(fixed, k, key) {
      var j :| 0 <= j < k && fixed[j].hotkey != "" && Lower(fixed[j].hotkey) == key;
      assert all[j].hotkey != "" && Lower(all[j].hotkey) == key;
    }
    if TakenBefore(fixed, |fixed|, key) {
      var j :| 0 <= j < |fixed| && fixed[j].hotkey != "" && Lower(fixed[j].hotkey) == key;
      assert all[j].hotkey != "" && Lower(all[j].hotkey) == key;
    }
  }

  lemma BecomesInMore(ps: seq<Profile>, last: Profile, i: nat, fixed: seq<Profile>, more: Profile, k: nat)
    requires ProfileBecomes(ps, i, fixed, k)
    ensures ProfileBecomes(ps + [last], i, fixed, k) && ProfileBecomes(ps + [last], i, fixed + [more], k)
  {
    TakenByMore(fixed, more, k, HotkeyKey(ps[i]));
    GivenInMore(ps, last, i);
    hide TakenBefore, HotkeyText, M.Canonical, Trim, Lower, GivenName;
    assert (ps + [last])[i] == ps[i] && (fixed + [more])[k] == fixed[k];
  }

  lemma GivenInMore(ps: seq<Profile>, last: Profile, i: nat)
    requires i < |ps|
    ensures GivenName(ps + [last], i) == GivenName(ps, i)
  {
  }

  predicate Given(ps: seq<Profile>, s: string) { exists i :: 0 <= i < |ps| && Lower(GivenName(ps, i)) == s }

  lemma GivenByMore(before: seq<Profile>, p: Profile, s: string)
    ensures Given(before + [p], s) <==> Given(before, s) || Lower(GivenName(before + [p], |before|)) == s
  {
    var ps := before + [p];
    if Given(before, s) {
      var i :| 0 <= i < |before| && Lower(GivenName(before, i)) == s;
      GivenInMore(before, p, i);
      hide GivenName, Lower;
      assert Lower(GivenName(ps, i)) == s;
    }
    if Given(ps, s) {
      var i :| 0 <= i < |ps| && Lower(GivenName(ps, i)) == s;
      if i < |before| {
        GivenInMore(before, p, i);
        hide GivenName, Lower;
        assert Lower(GivenName(before, i)) == s;
      }
    }
    hide GivenName, Lower;
  }

  lemma FirstIsNew(before: seq<Profile>, p: Profile)
    ensures IsFirst(before + [p], |before|) <==> !Given(before, Lower(GivenName(before + [p], |before|)))
  {
    var ps := before + [p];
    forall i | 0 <= i < |before| ensures GivenName(ps, i) == GivenName(before, i) {
      GivenInMore(before, p, i);
    }
    hide GivenName, Lower;
  }

  /** What a profile becomes if it stays. */
  function Last(b: Built, before: seq<Profile>, p: Profile): Profile {
    Profile(GivenName(before + [p], |before|), HotkeyOf(b, NameOf(|before|, p), p).0, M.Canonical(p.mapping))
  }

  /** The loop's variables after a round, by whether the name is new. */
  lemma RoundGives(b: Built, before: seq<Profile>, p: Profile)
    requires NamesSeen(b.names, before)
    ensures var next, last := Add(b, |before|, p), Last(b, before, p);
            if IsFirst(before + [p], |before|)
            then && next.profiles == b.profiles + [last] && next.names == b.names + {Lower(last.name)}
                 && next.hotkeys == (if last.hotkey == "" then b.hotkeys else b.hotkeys + {Lower(last.hotkey)})
            else && next.profiles == b.profiles && next.names == b.names && next.hotkeys == b.hotkeys
                 && Lower(last.name) in b.names
  {
    var ps := before + [p];
    assert ps[|before|] == p;
    NamesAreGiven(ps, |before|);
    FirstIsNew(before, p);
    hide GivenName, NameOf, Lower, HotkeyOf, M.Canonical, Given, IsFirst;
  }

  lemma NamesStaySeen(names: set<string>, before: seq<Profile>, p: Profile)
    requires NamesSeen(names, before)
    ensures NamesSeen(names + {Lower(GivenName(before + [p], |before|))}, before + [p])
  {
    hide Given, Lower, GivenName;
    forall s ensures Given(before + [p], s) <==> Given(before, s) || Lower(GivenName(before + [p], |before|)) == s {
      GivenByMore(before, p, s);
    }
  }

  lemma HotkeysStaySeen(hotkeys: set<string>, fixed: seq<Profile>, last: Profile)
    requires HotkeysSeen(hotkeys, fixed)
    ensures HotkeysSeen(if last.hotkey == "" then hotkeys else hotkeys + {Lower(last.hotkey)}, fixed + [last])
  {
    hide TakenBefore, Lower;
    forall s ensures TakenBefore(fixed + [last], |fixed| + 1, s) <==>
                       TakenBefore(fixed, |fixed|, s) || (last.hotkey != "" && Lower(last.hotkey) == s) {
      TakenByMore(fixed, last, |fixed|, s);
    }
  }

  lemma LastBecomes(b: Built, before: seq<Profile>, p: Profile)
    requires HotkeysSeen(b.hotkeys, b.profiles)
    ensures ProfileBecomes(before + [p], |before|, b.profiles + [Last(b, before, p)], |b.profiles|)
  {
    HotkeyIsFixed(b, |before|, p, NameOf(|before|, p));
    TakenByMore(b.profiles, Last(b, before, p), |b.profiles|, HotkeyKey(p));
    hide GivenName, NameOf, Lower, HotkeyOf, M.Canonical, TakenBefore, HotkeyText, Trim, HotkeyKey;
  }

  lemma AllStay(before: seq<Profile>, p: Profile, firsts: seq<nat>, fixed: seq<Profile>, last: Profile)
    requires AllBecome(before, firsts, fixed)
    requires ProfileBecomes(before + [p], |before|, fixed + [last], |fixed|)
    ensures AllBecome(before + [p], firsts, fixed)
    ensures AllBecome(before + [p], firsts + [|before|], fixed + [last])
  {
    hide ProfileBecomes;
    forall k | 0 <= k < |fixed|
      ensures ProfileBecomes(before + [p], firsts[k], fixed, k)
      ensures ProfileBecomes(before + [p], firsts[k], fixed + [last], k)
    {
      BecomesInMore(before, p, firsts[k], fixed, last, k);
    }
  }

  lemma RoundFixes(b: Built, before: seq<Profile>, p: Profile)
    requires BuiltFrom(b, before)
    ensures BuiltFrom(Add(b, |before|, p), before + [p])
  {
    var last := Last(b, before, p);
    assert last.name == GivenName(before + [p], |before|);
    hide Add, Firsts, IsFirst, GivenName, Lower, ProfileBecomes, AllBecome, NamesSeen, HotkeysSeen, Last;
    RoundGives(b, before, p);
    FirstsLast(before, p);
    NamesStaySeen(b.names, before, p);
    HotkeysStaySeen(b.hotkeys, b.profiles, last);
    LastBecomes(b, before, p);
    AllStay(before, p, Firsts(before), b.profiles, last);
    var next, ps := Add(b, |before|, p), before + [p];
    if IsFirst(ps, |before|) {
      assert AllBecome(ps, Firsts(ps), next.profiles);
      assert NamesSeen(next.names, ps) && HotkeysSeen(next.hotkeys, next.profiles);
    } else {
      assert Firsts(before) + [] == Firsts(before) && b.names + {Lower(last.name)} == b.names;
      assert AllBecome(ps, Firsts(ps), next.profiles) && NamesSeen(next.names, ps);
    }
  }

  lemma {:induction false} BuildFixes(ps: seq<Profile>)
    ensures BuiltFrom(Build(ps), ps)
  {
    hide *;
    if ps != [] {
      BuildFixes(ps[..|ps| - 1]);
      RoundFixes(Build(ps[..|ps| - 1]), ps[..|ps| - 1], ps[|ps| - 1]);
      BuildLast(ps[..|ps| - 1], ps[|ps| - 1]);
      assert ps[..|ps| - 1] + [ps[|ps| - 1]] == ps;
    } else {
      NothingIsFixed();
    }
  }

  lemma BuildLast(before: seq<Profile>, p: Profile)
    ensures Build(before + [p]) == Add(Build(before), |before|, p)
  {
    assert (before + [p])[..|before|] == before;
    hide Add;
  }

  lemma NothingIsFixed()
    ensures BuiltFrom(Build([]), [])
  {
  }

  lemma SomebodyIsFirst(ps: seq<Profile>)
    requires ps != []
    ensures Firsts(ps) != []
  {
    FirstsExactly(ps);
    assert IsFirst(ps, 0);
  }

  lemma {:induction false} FindsTheFirst(profiles: seq<Profile>, name: string)
    ensures FindProfileName(profiles, name).Some? ==>
              exists k ::
                && 0 <= k < |profiles| && profiles[k].name == FindProfileName(profiles, name).value
                && Lower(profiles[k].name) == Lower(name)
                && forall j :: 0 <= j < k ==> Lower(profiles[j].name) != Lower(name)
    ensures FindProfileName(profiles, name).None? ==>
              forall k :: 0 <= k < |profiles| ==> Lower(profiles[k].name) != Lower(name)
  {
    hide Lower;
    if profiles != [] && Lower(profiles[0].name) != Lower(name) {
      var more := profiles[1..];
      FindsTheFirst(more, name);
      if FindProfileName(more, name).Some? {
        var k :| && 0 <= k < |more| && more[k].name == FindProfileName(more, name).value
                 && Lower(more[k].name) == Lower(name)
                 && forall j :: 0 <= j < k ==> Lower(more[j].name) != Lower(name);
        assert profiles[k + 1] == more[k];
        forall j | 0 <= j < k + 1 ensures Lower(profiles[j].name) != Lower(name) {
          assert j > 0 ==> profiles[j] == more[j - 1];
        }
      } else {
        assert forall k :: 1 <= k < |profiles| ==> profiles[k] == more[k - 1];
      }
    }
  }

  lemma ProfilesFixed(ps: seq<Profile>)
    ensures ProfilesBecome(ps, CanonicalProfiles(ps))
  {
    BuildFixes(ps);
    if ps != [] {
      SomebodyIsFirst(ps);
    }
    hide ProfileBecomes, Firsts;
  }

  lemma ActiveFixed(profiles: seq<Profile>, active: string)
    requires profiles != []
    ensures ActiveBecomes(active, profiles, ActiveOf(profiles, active))
  {
    FindsTheFirst(profiles, Trim(active));
    hide Trim, Lower;
  }

  lemma COMFixed(c: COM)
    ensures COMBecomes(c, CanonicalCOM(c))
  {
    WordsBecome(c.vid, "1A86");
    WordsBecome(c.pid, "7523");
    hide WordBecomes, Hex.CanonicalWord;
  }

  lemma OBSFixed(o: OBS)
    ensures OBSBecomes(o, CanonicalOBS(o))
  {
  }

  lemma ChoicesFixed(v: Values)
    ensures ChoicesBecome(v, Canonical(v))
  {
    hide CanonicalProfiles, ActiveOf, CanonicalCOM, CanonicalOBS, CanonicalDiscord;
  }

  /** What becomes of any settings, said field by field about the raw values. */
  lemma CanonicalExactly(v: Values)
    ensures Becomes(v, Canonical(v))
  {
    COMFixed(v.com);
    OBSFixed(v.obs);
    DiscordFixed(v.discord);
    ChoicesFixed(v);
    ProfilesFixed(v.profiles);
    ActiveFixed(CanonicalProfiles(v.profiles), v.activeProfile);
    hide COMBecomes, CanonicalCOM, OBSBecomes, CanonicalOBS, DiscordBecomes, CanonicalDiscord, ChoicesBecome, Chosen,
         ProfilesBecome, CanonicalProfiles, ActiveBecomes, ActiveOf;
  }

  // ---------- what is reported ----------

  predicate IsOfProfiles(problem: Problem) {
    || problem.UnnamedProfile? || problem.DuplicateProfile? || problem.BadHotkey? || problem.DuplicateHotkey?
    || problem.InMapping? || problem.UnknownActiveProfile?
  }

  lemma {:induction false} ProfilesReportProfiles(ps: seq<Profile>)
    ensures forall problem <- Build(ps).problems :: IsOfProfiles(problem)
  {
    if ps != [] {
      ProfilesReportProfiles(ps[..|ps| - 1]);
      hide NameOf, Lower, Trim, ValidHotkey, M.Canonical, M.Problems;
    }
  }

  /** Something is wrong with the serial settings. */
  ghost predicate COMIsWrong(c: COM, problem: Problem) {
    match problem
    case EmptyPort => c.port == ""
    case BadBaudRate(rate) => rate == c.baudRate && rate <= 0
    case BadVid(text) => text == c.vid && !WordText(text)
    case BadPid(text) => text == c.pid && !WordText(text)
    case _ => false
  }

  predicate ChoiceIsWrong(noise: string, language: string, problem: Problem) {
    match problem
    case BadNoiseLevel(text) => text == noise && text !in ["", "low", "default", "high", "none"]
    case BadLanguage(text) => text == language && text !in ["auto", "en", "ru"]
    case _ => false
  }

  predicate DiscordIsWrong(d: Discord, problem: Problem) {
    match problem
    case NoClientId => d.enabled && Blank(d.clientId)
    case NoClientSecret => d.enabled && Blank(d.clientSecret)
    case BadClientId(text) => d.enabled && text == Trim(d.clientId) && text != "" && !AllDigits(text)
    case _ => false
  }

  lemma COMReports(c: COM, problem: Problem)
    ensures problem in COMProblems(c) <==> COMIsWrong(c, problem)
  {
    WordsExactly(c.vid, DEFAULT_COM.vid);
    WordsExactly(c.pid, DEFAULT_COM.pid);
    hide WordText, Hex.CanonicalWord;
  }

  lemma ChoicesReport(noise: string, language: string, problem: Problem)
    ensures problem in ChoiceProblems(noise, language) <==> ChoiceIsWrong(noise, language, problem)
  {
  }

  lemma DiscordReports(d: Discord, problem: Problem)
    ensures problem in DiscordProblems(d) <==> DiscordIsWrong(d, problem)
  {
    BlankTrims(d.clientId);
    BlankTrims(d.clientSecret);
    hide Trim, Blank, AllDigits;
  }

  /** Whatever is reported about the sections other than the profiles is the case, and the other way round. */
  lemma ReportsExactly(v: Values, problem: Problem)
    requires !IsOfProfiles(problem)
    ensures problem in Problems(v) <==>
              || COMIsWrong(v.com, problem)
              || ChoiceIsWrong(v.noiseReduction, v.language, problem)
              || (problem == BadObsPort(v.obs.port) && (v.obs.port < 1 || v.obs.port > 65535))
              || DiscordIsWrong(v.discord, problem)
  {
    ProfilesReportProfiles(v.profiles);
    COMReports(v.com, problem);
    ChoicesReport(v.noiseReduction, v.language, problem);
    DiscordReports(v.discord, problem);
    assert problem !in ActiveProblems(CanonicalProfiles(v.profiles), v.activeProfile) by {
      hide CanonicalProfiles, FindProfileName, Trim;
    }
    hide COMProblems, COMIsWrong, ChoiceProblems, ChoiceIsWrong, DiscordProblems, DiscordIsWrong, Build, ActiveProblems,
         CanonicalProfiles;
  }

  // ---------- what a save keeps ----------

  /** An accepted save keeps every profile in its place, with its name and hotkey but for the blanks around them,
      and every slider's targets but for empty ones; a scalar setting changes only from blank to its default. */
  lemma AcceptedSettingsAreKept(v: Values, i: nat, slider: int)
    requires Acceptable(v) && i < |v.profiles| && slider >= 0
    ensures var w := Canonical(v);
            && |w.profiles| == |v.profiles|
            && w.profiles[i].name == Trim(v.profiles[i].name) && w.profiles[i].hotkey == Trim(v.profiles[i].hotkey)
            && M.Get(w.profiles[i].mapping, slider) == M.Sanitized(M.Get(v.profiles[i].mapping, slider))
            && w.com.port == v.com.port && w.com.baudRate == v.com.baudRate
            && (forall word: Hex.Word16 :: Hex.Writes(v.com.vid, word) ==> Hex.Writes(w.com.vid, word))
            && (forall word: Hex.Word16 :: Hex.Writes(v.com.pid, word) ==> Hex.Writes(w.com.pid, word))
            && w.noiseReduction == v.noiseReduction && w.language == v.language && w.invertSliders == v.invertSliders
            && w.obs == v.obs.(host := w.obs.host) && (v.obs.host != "" ==> w.obs.host == v.obs.host)
            && w.discord ==
                 v.discord.(clientId := Trim(v.discord.clientId), clientSecret := Trim(v.discord.clientSecret))
  {
    BuildExactly(v.profiles);
    M.CanonicalKeepsLookups(v.profiles[i].mapping, slider);
    CanonicalExactly(v);
    DiscordExactly(v.discord);
    assert Canonical(v).profiles == Build(v.profiles).profiles;
    forall word: Hex.Word16 ensures Hex.Writes(Hex.Format(word), word) {
      Hex.FormatRoundTrip(word);
      Hex.ValueExactly(Hex.Format(word), word);
    }
    hide Build, CanonicalProfiles, Trim, Lower, Blank, ActiveOf, M.Canonical, M.Get, M.Sanitized, Hex.Writes,
         Hex.Format, AcceptableProfiles, ActiveResolves, ProfilesBecome, ActiveBecomes, WordText, Hex.CanonicalWord;
  }
}
