/**
 The session index of internal/mixer/mixer.go and internal/mixer/targets.go: sessions grouped by
 key, and the cached list of those no slider is mapped to.
 */
module Mixer {
  import opened Text
  import M = Mapping

  /** A session; `id` is its identity. */
  datatype Session = Session(id: nat, key: string, isDevice: bool)

  type Index = map<string, seq<Session>>

  const SPECIAL_KEYS := ["master", "system", "mic"]
  const TRANSFORM_PREFIX := "deej."

  /** A target names this session's key, whatever its case; targets with a transform name none. */
  predicate Names(target: string, key: string) {
    !HasPrefix(Lower(target), TRANSFORM_PREFIX) && Lower(target) == key
  }

  predicate Mapped(mapping: M.SliderMappings, s: Session) {
    s.key in SPECIAL_KEYS || s.isDevice || exists e <- mapping :: exists t <- e.targets :: Names(t, s.key)
  }

  // ---------- the index ----------

  function Group(m: Index, key: string): seq<Session> { if key in m then m[key] else [] }

  function WithoutOne(sessions: seq<Session>, s: Session): seq<Session> {
    if sessions == [] then []
    else if sessions[0] == s then sessions[1..]
    else [sessions[0]] + WithoutOne(sessions[1..], s)
  }

  function AddedTo(m: Index, s: Session): Index { m[s.key := Group(m, s.key) + [s]] }

  function RemovedFrom(m: Index, s: Session): Index {
    var rest := WithoutOne(Group(m, s.key), s);
    if rest == [] then m - {s.key} else m[s.key := rest]
  }

  ghost predicate NoRepeats(sessions: seq<Session>) {
    forall i, j :: 0 <= i < j < |sessions| ==> sessions[i] != sessions[j]
  }

  /** The index is exactly the live sessions grouped by key: no empty group, nobody twice. */
  ghost predicate Indexes(m: Index, live: set<Session>) {
    && (forall key <- m :: m[key] != [] && NoRepeats(m[key]) && forall s <- m[key] :: s.key == key)
    && (forall s :: s in live <==> s in Group(m, s.key))
  }

  lemma {:induction false} WithoutOneRemoves(sessions: seq<Session>, s: Session)
    requires NoRepeats(sessions)
    ensures NoRepeats(WithoutOne(sessions, s))
    ensures forall t :: t in WithoutOne(sessions, s) <==> t in sessions && t != s
  {
    if sessions != [] {
      var more := sessions[1..];
      assert sessions == [sessions[0]] + more;
      WithoutOneRemoves(more, s);
      assert sessions[0] !in more;
    }
  }

  lemma {:induction false} FirstIsWithout(sessions: seq<Session>, s: Session, i: nat)
    requires i <= |sessions| && forall k :: 0 <= k < i ==> sessions[k] != s
    requires i < |sessions| ==> sessions[i] == s
    ensures WithoutOne(sessions, s) == if i < |sessions| then sessions[..i] + sessions[i + 1..] else sessions
  {
    if i > 0 {
      var more := sessions[1..];
      assert forall k :: 0 <= k < |more| ==> more[k] == sessions[k + 1];
      FirstIsWithout(more, s, i - 1);
      assert WithoutOne(sessions, s) == [sessions[0]] + WithoutOne(more, s);
      hide WithoutOne;
      assert sessions == [sessions[0]] + more;
      assert i < |sessions| ==> [sessions[0]] + (more[..i - 1] + more[i..]) == sessions[..i] + sessions[i + 1..];
    }
  }

  lemma AddedIndexes(m: Index, live: set<Session>, s: Session)
    requires Indexes(m, live) && s !in live
    ensures Indexes(AddedTo(m, s), live + {s})
  {
    assert s !in Group(m, s.key);
  }

  lemma RemovedIndexes(m: Index, live: set<Session>, s: Session)
    requires Indexes(m, live)
    ensures Indexes(RemovedFrom(m, s), live - {s})
  {
    WithoutOneRemoves(Group(m, s.key), s);
    var next := RemovedFrom(m, s);
    var rest := WithoutOne(Group(m, s.key), s);
    forall t ensures t in live - {s} <==> t in Group(next, t.key) {
      assert Group(next, t.key) == if t.key == s.key then rest else Group(m, t.key);
    }
  }

  method SessionMapped(mapping: M.SliderMappings, s: Session) returns (mapped: bool)
    ensures mapped == Mapped(mapping, s)
  {
    if s.key in SPECIAL_KEYS || s.isDevice {
      return true;
    }
    var i := 0;
    while i < |mapping|
      invariant 0 <= i <= |mapping|
      invariant forall e <- mapping[..i] :: forall t <- e.targets :: !Names(t, s.key)
    {
      var targets := mapping[i].targets;
      var k := 0;
      while k < |targets|
        invariant 0 <= k <= |targets|
        invariant forall t <- targets[..k] :: !Names(t, s.key)
      {
        if Names(targets[k], s.key) {
          assert mapping[i] in mapping && targets[k] in mapping[i].targets;
          return true;
        }
        assert targets[..k + 1] == targets[..k] + [targets[k]];
        k := k + 1;
      }
      assert targets[..k] == targets;
      assert mapping[..i + 1] == mapping[..i] + [mapping[i]];
      i := i + 1;
    }
    assert mapping[..i] == mapping;
    return false;
  }

  /** The sessions that have another volume, in order. */
  function Differing(sessions: seq<Session>, has: Session -> int, volume: int): seq<Session> {
    if sessions == [] then []
    else
      var before, last := sessions[..|sessions| - 1], sessions[|sessions| - 1];
      Differing(before, has, volume) + if has(last) != volume then [last] else []
  }

  lemma {:induction false} DifferingFilters(sessions: seq<Session>, has: Session -> int, volume: int)
    ensures forall s :: s in Differing(sessions, has, volume) <==> s in sessions && has(s) != volume
    ensures NoRepeats(sessions) ==> NoRepeats(Differing(sessions, has, volume))
  {
    if sessions != [] {
      var before, last := sessions[..|sessions| - 1], sessions[|sessions| - 1];
      DifferingFilters(before, has, volume);
      assert sessions == before + [last];
      assert NoRepeats(sessions) ==> last !in before;
    }
  }

  class Sessions {
    var m: Index
    var unmappedSessions: seq<Session>

    constructor ()
      ensures m == map[] && unmappedSessions == []
    {
      m, unmappedSessions := map[], [];
    }

    method HandleSessionAdded(s: Session, mapping: M.SliderMappings)
      modifies this
      ensures m == AddedTo(old(m), s)
      ensures unmappedSessions == old(unmappedSessions) + (if Mapped(mapping, s) then [] else [s])
    {
      AddLocked(s);
      var mapped := SessionMapped(mapping, s);
      if !mapped {
        unmappedSessions := unmappedSessions + [s];
      }
    }

    method AddLocked(s: Session)
      modifies this`m
      ensures m == AddedTo(old(m), s)
    {
      if s.key !in m {
        m := m[s.key := [s]];
        assert [] + [s] == [s];
      } else {
        m := m[s.key := m[s.key] + [s]];
      }
    }

    method HandleSessionRemoved(s: Session)
      requires forall key <- m :: m[key] != []
      modifies this
      ensures m == RemovedFrom(old(m), s)
      ensures unmappedSessions == WithoutOne(old(unmappedSessions), s)
    {
      RemoveSessionLocked(s);
      unmappedSessions := Delete(unmappedSessions, s);
    }

    /** The loops that find one session and close the gap behind it. */
    static method Delete(sessions: seq<Session>, s: Session) returns (rest: seq<Session>)
      ensures rest == WithoutOne(sessions, s)
    {
      var i := 0;
      while i < |sessions| && sessions[i] != s
        invariant 0 <= i <= |sessions|
        invariant forall k :: 0 <= k < i ==> sessions[k] != s
      {
        i := i + 1;
      }
      FirstIsWithout(sessions, s, i);
      if i < |sessions| {
        return sessions[..i] + sessions[i + 1..];
      }
      rest := sessions;
    }

    method RemoveSessionLocked(s: Session)
      requires forall key <- m :: m[key] != []
      modifies this`m
      ensures m == RemovedFrom(old(m), s)
    {
      if s.key !in m {
        return;
      }
      var rest := Delete(m[s.key], s);
      m := m[s.key := rest];
      if |m[s.key]| == 0 {
        m := m - {s.key};
      }
    }

    /** `seen` is the mapping in force when each session is looked at; a reload may come in between. */
    method RefreshUnmappedSessions(seen: Session -> M.SliderMappings, ghost live: set<Session>)
      requires Indexes(m, live)
      modifies this`unmappedSessions
      ensures NoRepeats(unmappedSessions)
      ensures forall s :: s in unmappedSessions <==> s in live && !Mapped(seen(s), s)
    {
      hide Mapped;
      unmappedSessions := [];
      var keys := m.Keys;
      while keys != {}
        invariant keys <= m.Keys && NoRepeats(unmappedSessions)
        invariant forall s :: s in unmappedSessions <==> s in Group(m, s.key) && s.key !in keys && !Mapped(seen(s), s)
        decreases keys
      {
        var key :| key in keys;
        var sessions := m[key];
        var i := 0;
        while i < |sessions|
          invariant 0 <= i <= |sessions| && NoRepeats(unmappedSessions)
          invariant forall s :: s in unmappedSessions <==>
                      !Mapped(seen(s), s) && ((s in Group(m, s.key) && s.key !in keys) || s in sessions[..i])
        {
          var s := sessions[i];
          var mapped := SessionMapped(seen(s), s);
          assert sessions[..i + 1] == sessions[..i] + [s];
          assert s !in sessions[..i] && s.key == key;
          if !mapped {
            unmappedSessions := unmappedSessions + [s];
          }
          i := i + 1;
        }
        assert sessions[..i] == sessions;
        keys := keys - {key};
      }
    }

    /** Each session the target has gets one volume call, in the group's order, unless it has the volume already. */
    method SetSessionVolumes(target: string, volume: int, has: Session -> int) returns (called: seq<Session>)
      ensures called == Differing(Group(m, target), has, volume)
      ensures forall s :: s in called <==> s in Group(m, target) && has(s) != volume
      ensures NoRepeats(Group(m, target)) ==> NoRepeats(called)
    {
      called := [];
      if target !in m {
        return;
      }
      var sessions := m[target];
      var i := 0;
      while i < |sessions|
        invariant 0 <= i <= |sessions|
        invariant called == Differing(sessions[..i], has, volume)
      {
        assert sessions[..i + 1][..i] == sessions[..i];
        if has(sessions[i]) != volume {
          called := called + [sessions[i]];
        }
        i := i + 1;
      }
      assert sessions[..i] == sessions;
      DifferingFilters(sessions, has, volume);
    }

    method SessionCount(ghost live: set<Session>) returns (count: nat)
      requires Indexes(m, live)
      ensures count == |live|
    {
      count := 0;
      var keys := m.Keys;
      ghost var counted: set<Session> := {};
      while keys != {}
        invariant keys <= m.Keys && count == |counted|
        invariant forall s :: s in counted <==> s in live && s.key !in keys
        decreases keys
      {
        var key :| key in keys;
        count := count + |m[key]|;
        ghost var group := set s | s in m[key];
        SizeOfGroup(m[key]);
        assert group !! counted;
        assert forall s :: s in group <==> s in live && s.key == key;
        counted := counted + group;
        keys := keys - {key};
      }
      assert counted == live;
    }
  }

  lemma {:induction false} SizeOfGroup(sessions: seq<Session>)
    requires NoRepeats(sessions)
    ensures |set s | s in sessions| == |sessions|
  {
    if sessions != [] {
      var last, before := sessions[|sessions| - 1], sessions[..|sessions| - 1];
      SizeOfGroup(before);
      assert (set s | s in sessions) == (set s | s in before) + {last};
    }
  }

  // ---------- which sessions are mapped ----------

  /** A target reaches a session if it is the session's key in any case, and no transform. */
  predicate Reaches(target: string, key: string) {
    FoldsTo(target, key) && !(|target| >= 5 && FoldsTo(target[..5], "deej."))
  }

  lemma NamesExactly(target: string, key: string)
    ensures Names(target, key) <==> Reaches(target, key)
  {
    LowerExactly(target, key);
    if |target| >= 5 {
      LowerExactly(target[..5], "deej.");
      assert Lower(target[..5]) == Lower(target)[..5];
      assert HasPrefix(Lower(target), "deej.") <==> Lower(target)[..5] == "deej.";
    }
    hide Lower, FoldsTo;
  }

  /** A session counts as mapped exactly if it is the master, system or microphone session or a device, or some
      target of the mapping reaches it. */
  lemma MappedExactly(mapping: M.SliderMappings, s: Session)
    ensures Mapped(mapping, s) <==>
              || s.key == "master" || s.key == "system" || s.key == "mic" || s.isDevice
              || exists e <- mapping :: exists t <- e.targets :: Reaches(t, s.key)
  {
    hide Names, Reaches;
    forall t ensures Names(t, s.key) <==> Reaches(t, s.key) {
      NamesExactly(t, s.key);
    }
  }
}
