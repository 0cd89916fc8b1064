/**
 The path of a Discord target from the mapping to the throttle: the mixer parses it
 (internal/mixer/targets.go), the replay source passes it on (internal/app/app.go), and the client
 turns it into a throttle key (internal/integrations/discord/volume.go).
 */
module Targets {
  import opened Prelude
  import opened Text
  import T = Throttle

  const INPUT_TARGET := "deej.discord.input"
  const OUTPUT_TARGET := "deej.discord.output"
  const USER_PREFIX := "deej.discord:"

  /** Config syntax to a Discord-local key. */
  function DiscordTargetKey(target: string): Option<string> {
    var lower := Lower(target);
    if lower == INPUT_TARGET then Some(T.INPUT_TARGET)
    else if lower == OUTPUT_TARGET then Some(T.OUTPUT_TARGET)
    else if HasPrefix(lower, USER_PREFIX) then Some(T.USER_PREFIX + Trim(lower[|USER_PREFIX|..]))
    else None
  }

  predicate IsLower(s: string) { Lower(s) == s }

  lemma {:induction false} TrimKeepsLower(s: string)
    requires IsLower(s)
    ensures IsLower(TrimLeft(s)) && IsLower(TrimRight(s))
  {
    if s != "" {
      assert forall i :: 0 <= i < |s| ==> LowerChar(s[i]) == s[i] by {
        assert forall i :: 0 <= i < |s| ==> Lower(s)[i] == LowerChar(s[i]);
      }
      TrimKeepsLower(s[1..]);
      TrimKeepsLower(s[..|s| - 1]);
    }
  }

  lemma UserKeysStay(name: string)
    requires IsLower(name) && Trimmed(name)
    ensures T.LocalTargetKey(T.USER_PREFIX + name) == Some(T.USER_PREFIX + name)
  {
    var key := T.USER_PREFIX + name;
    TrimTrims(name);
    assert key[|T.USER_PREFIX|..] == name && key[0] == 'u';
    assert Lower(key) == key by {
      LowerExactly(name, name);
      LowerExactly(T.USER_PREFIX, T.USER_PREFIX);
      LowerExactly(key, key);
      hide Lower;
    }
    hide Lower, Trim, FoldsTo;
  }

  /** The client recognizes every key the mixer makes, and keeps it as it is: slider moves and replays of
      one target meet in one throttle entry. */
  lemma MixerKeysAreThrottleKeys(target: string)
    requires DiscordTargetKey(target).Some?
    ensures T.LocalTargetKey(DiscordTargetKey(target).value) == Some(DiscordTargetKey(target).value)
  {
    var lower := Lower(target);
    assert IsLower(T.INPUT_TARGET) && IsLower(T.OUTPUT_TARGET);
    if HasPrefix(lower, USER_PREFIX) {
      var rest := lower[|USER_PREFIX|..];
      LowerTwice(target);
      LowerOfSuffix(lower, |USER_PREFIX|);
      TrimKeepsLower(rest);
      TrimKeepsLower(TrimLeft(rest));
      TrimTrims(rest);
      UserKeysStay(Trim(rest));
    }
    hide Lower, Trim;
  }

  // ---------- which target is which key ----------

  /** `folded` is what the target is in small letters. */
  lemma KeysExactly(target: string, folded: string)
    requires FoldsTo(target, folded)
    ensures folded == "deej.discord.input" ==> DiscordTargetKey(target) == Some("input")
    ensures folded == "deej.discord.output" ==> DiscordTargetKey(target) == Some("output")
    ensures |folded| >= 13 && folded[..13] == "deej.discord:" ==>
          DiscordTargetKey(target) == Some("user:" + Trim(folded[13..]))
    ensures DiscordTargetKey(target).Some? ==>
              folded in ["deej.discord.input", "deej.discord.output"]
                  || (|folded| >= 13 && folded[..13] == "deej.discord:")
  {
    LowerExactly(target, folded);
    hide Lower, FoldsTo, Trim;
    assert HasPrefix(folded, USER_PREFIX) <==> |folded| >= 13 && folded[..13] == "deej.discord:";
    assert "deej.discord.input"[12] != "deej.discord:"[12] && "deej.discord.output"[12] != "deej.discord:"[12];
  }

  /** The same for the throttle's own names. */
  lemma LocalKeysExactly(target: string, folded: string)
    requires FoldsTo(target, folded)
    ensures folded == "input" ==> T.LocalTargetKey(target) == Some("input")
    ensures folded == "output" ==> T.LocalTargetKey(target) == Some("output")
    ensures |folded| >= 5 && folded[..5] == "user:" ==> T.LocalTargetKey(target) == Some("user:" + Trim(folded[5..]))
    ensures T.LocalTargetKey(target).Some? ==>
          folded in ["input", "output"] || (|folded| >= 5 && folded[..5] == "user:")
  {
    LowerExactly(target, folded);
    hide Lower, FoldsTo, Trim;
    assert HasPrefix(folded, T.USER_PREFIX) <==> |folded| >= 5 && folded[..5] == "user:";
    assert "input"[0] != "user:"[0] && "output"[0] != "user:"[0];
  }
}
