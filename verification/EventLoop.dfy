/**
 The Discord event loop of internal/integrations/discord/roster.go: the only writer of the roster,
 and the one that invalidates and replays volumes when somebody joins or the channel changes.
 */
module EventLoop {
  import opened Prelude
  import opened Roster
  import opened Throttle
  import V = VolumeSync

  /** One channel snapshot. */
  datatype Channel = Channel(id: string, name: string, users: seq<User>)

  /** The stored snapshot moved to another channel, or has a member it did not have. */
  ghost predicate Arrives(previous: Option<Channel>, next: Channel) {
    || previous.None?
    || previous.value.id != next.id
    || exists u <- next.users :: forall was <- previous.value.users :: was.id != u.id
  }

  /** What storing `next` means for the throttle, given the values sliders have at that moment. */
  ghost function Restored(c: Cache, previous: Option<Channel>, next: Channel, values: seq<TargetVolume>): Cache {
    Put(if Arrives(previous, next) then Invalidated(c) else c, Keyed(values))
  }

  method RosterNeedsReplay(previous: Option<Channel>, current: Channel) returns (needed: bool)
    ensures needed <==> Arrives(previous, current)
  {
    if previous.None? || previous.value.id != current.id {
      return true;
    }
    var had := previous.value.users;
    var i := 0;
    while i < |current.users|
      invariant 0 <= i <= |current.users|
      invariant forall u <- current.users[..i] :: exists o <- had :: o.id == u.id
    {
      var k := IndexOf(had, current.users[i].id);
      if k == |had| {
        assert current.users[i] in current.users;
        assert forall o <- had :: o.id != current.users[i].id;
        return true;
      }
      assert had[k] in had;
      assert current.users[..i + 1] == current.users[..i] + [current.users[i]];
      i := i + 1;
    }
    assert current.users[..i] == current.users;
    return false;
  }

  /** An event makes somebody arrive exactly when it adds a member. */
  lemma FoldArrives(channel: Channel, e: VoiceEvent)
    ensures Arrives(Some(channel), channel.(users := Fold(channel.users, e))) <==>
              e.state.id != "" && !e.kind.Delete? && IndexOf(channel.users, e.state.id) == |channel.users|
  {
    var users, user := channel.users, ToUser(e.state);
    var i := IndexOf(users, user.id);
    var next := channel.(users := Fold(users, e));
    if user.id != "" && !e.kind.Delete? && i == |users| {
      SortedKeepsMembers(users + [user]);
      assert user in next.users;
    } else if user.id != "" {
      if i < |users| {
        SortedKeepsMembers(users[..i] + users[i + 1..]);
        SortedKeepsMembers(users[i := user]);
        assert users[i] in users;
        forall u <- next.users ensures exists was <- users :: was.id == u.id {
          assert u in users || u == user;
        }
      }
    }
  }

  lemma {:induction false} InsertKeepsMembers(u: User, users: seq<User>)
    ensures forall v :: v in Insert(u, users) <==> v == u || v in users
  {
    if users != [] {
      InsertKeepsMembers(u, users[1..]);
      assert users == [users[0]] + users[1..];
    }
  }

  lemma {:induction false} SortedKeepsMembers(users: seq<User>)
    ensures forall v :: v in Sorted(users) <==> v in users
  {
    if users != [] {
      SortedKeepsMembers(users[1..]);
      InsertKeepsMembers(users[0], Sorted(users[1..]));
      assert users == [users[0]] + users[1..];
    }
  }

  lemma {:induction false} InsertKeepsCounts(u: User, users: seq<User>)
    ensures multiset(Insert(u, users)) == multiset(users) + multiset{u}
  {
    if users != [] {
      InsertKeepsCounts(u, users[1..]);
      assert users == [users[0]] + users[1..];
    }
  }

  lemma {:induction false} SortedKeepsCounts(users: seq<User>)
    ensures multiset(Sorted(users)) == multiset(users)
  {
    if users != [] {
      SortedKeepsCounts(users[1..]);
      InsertKeepsCounts(users[0], Sorted(users[1..]));
      assert users == [users[0]] + users[1..];
    }
  }

  lemma SortedKeepsLength(users: seq<User>)
    ensures |Sorted(users)| == |users|
  {
    SortedKeepsCounts(users);
    assert |multiset(Sorted(users))| == |multiset(users)|;
  }

  lemma ReplacementChanges(users: seq<User>, i: nat, user: User)
    requires i < |users| && users[i] != user
    ensures Sorted(users[i := user]) != users
  {
    SortedKeepsCounts(users[i := user]);
    assert multiset(users[i := user]) == multiset(users) - multiset{users[i]} + multiset{user};
    assert multiset(users[i := user])[user] == multiset(users)[user] + 1;
  }

  lemma IdIsKept(s: VoiceState)
    ensures ToUser(s).id == s.id
  {
  }

  /** The handler stores a list exactly when the event changes it. */
  lemma FoldChanges(users: seq<User>, e: VoiceEvent)
    ensures var i := IndexOf(users, e.state.id);
            Fold(users, e) != users <==>
              && e.state.id != ""
              && (if e.kind.Delete? then i < |users| else i == |users| || users[i] != ToUser(e.state))
  {
    var i, user := IndexOf(users, e.state.id), ToUser(e.state);
    hide Sorted, Insert, ToUser;
    assert ToUser(e.state).id == e.state.id by {
      IdIsKept(e.state);
    }
    if e.kind.Delete? {
      if i < |users| {
        SortedKeepsLength(users[..i] + users[i + 1..]);
      }
    } else if i == |users| {
      SortedKeepsLength(users + [user]);
    } else if users[i] != user {
      ReplacementChanges(users, i, user);
    }
  }

  class Loop {
    const memory: Memory
    var roster: Option<Channel>
    var signal: bool                       // the one-slot roster change channel
    var subscribedConn: Option<nat>
    var subscribedChannel: string

    constructor (memory: Memory)
      ensures this.memory == memory && roster == None && !signal && subscribedConn == None && subscribedChannel == ""
    {
      this.memory := memory;
      roster, signal, subscribedConn, subscribedChannel := None, false, None, "";
    }

    method NotifyRosterChange()
      modifies this`signal
      ensures signal
    {
      signal := true;
    }

    /** `values` is what currentVolumes returns when it is asked. */
    method ApplyVoiceStateEvent(e: VoiceEvent, values: seq<TargetVolume>)
      modifies this`roster, this`signal, memory
      ensures old(roster).None? ==> roster == None && memory.View() == old(memory.View()) && signal == old(signal)
      ensures old(roster).Some? ==>
                var next := old(roster).value.(users := Fold(old(roster).value.users, e));
                && roster == Some(next)
                && signal == (old(signal) || next != old(roster).value)
                && memory.View() == (if Arrives(old(roster), next)
                                     then Restored(old(memory.View()), old(roster), next, values)
                                     else old(memory.View()))
    {
      if e.state.id == "" || roster.None? {
        if roster.Some? {
          FoldArrives(roster.value, e);
        }
        return;
      }
      FoldArrives(roster.value, e);
      FoldChanges(roster.value.users, e);
      var user := ToUser(e.state);
      var users := roster.value.users;
      var index := IndexOf(users, user.id);
      var joined := index == |users| && !e.kind.Delete?;
      match e.kind {
        case Delete =>
          if index == |users| {
            return;
          }
          users := users[..index] + users[index + 1..];
        case _ =>
          if index < |users| {
            if users[index] == user {
              return;
            }
            users := users[index := user];
          } else {
            users := users + [user];
          }
      }
      users := Sorted(users);
      roster := Some(Channel(roster.value.id, roster.value.name, users));
      NotifyRosterChange();
      if joined {
        memory.InvalidateVolumes();
        memory.ReplayMappedSliderValues(values);
      }
    }

    /** One reconcile pass. `conn` and `still` are the current connection before and after the channel read,
        `channel` its reply (None for an error), `resubscribed` whether the new subscriptions were accepted. */
    method ReconcileRoster(
        conn: Option<nat>, channel: Option<Channel>, still: Option<nat>, resubscribed: bool, values: seq<TargetVolume>)
      modifies this, memory
      ensures conn == None ==> roster == None && subscribedConn == None && subscribedChannel == ""
      ensures conn == None ==> signal == (old(signal) || old(roster).Some?)
      ensures conn != None ==>
                && subscribedConn == conn
                && var kept := if old(subscribedConn) == conn then old(subscribedChannel) else "";
                   subscribedChannel == (if channel.Some? && still == conn && channel.value.id != kept && resubscribed
                                         then channel.value.id else kept)
      ensures var stores := conn.Some? && channel.Some? && still == conn;
              && (!stores ==> memory.View() == old(memory.View()))
              && (!stores && conn.Some? ==> roster == old(roster) && signal == old(signal))
              && (stores ==>
                    && roster == channel
                    && memory.View() == Restored(old(memory.View()), old(roster), channel.value, values)
                    && signal == (old(signal) || old(roster).None? || old(roster).value.name != channel.value.name
                                  || old(roster).value.users != channel.value.users))
    {
      if conn.None? {
        subscribedConn, subscribedChannel := None, "";
        if roster.Some? {
          roster := None;
          NotifyRosterChange();
        }
        return;
      }
      if subscribedConn != conn {
        subscribedConn, subscribedChannel := conn, "";
      }
      if channel.None? || still != conn {
        return;
      }
      if channel.value.id != subscribedChannel && resubscribed {
        subscribedChannel := channel.value.id;
      }
      var previous := roster;
      var needed := RosterNeedsReplay(previous, channel.value);
      if needed {
        memory.InvalidateVolumes();
      }
      roster := channel;
      memory.ReplayMappedSliderValues(values);
      if previous.None? || previous.value.name != channel.value.name || previous.value.users != channel.value.users {
        NotifyRosterChange();
      }
    }
  }

  // ---------- what a restoration achieves ----------

  /** Storing a channel bumps the generation once if nothing was stored before, the channel is another one, or
      somebody is in it who was not; and not at all otherwise. */
  lemma GenerationsCountArrivals(c: Cache, previous: Option<Channel>, next: Channel, values: seq<TargetVolume>)
    ensures Restored(c, previous, next, values).generation - c.generation ==
              if || previous.None? || previous.value.id != next.id
                 || exists i :: 0 <= i < |next.users|
                             && forall j :: 0 <= j < |previous.value.users| ==>
                                 previous.value.users[j].id != next.users[i].id
              then 1 else 0
  {
    if previous.Some? && exists u <- next.users :: forall was <- previous.value.users :: was.id != u.id {
      var u :| u in next.users && forall was <- previous.value.users :: was.id != u.id;
      var i :| 0 <= i < |next.users| && next.users[i] == u;
      assert forall j :: 0 <= j < |previous.value.users| ==> previous.value.users[j] in previous.value.users;
    }
  }

  /** A step that stores an arrival bumps the generation exactly once and leaves every mapped key pending. */
  lemma ArrivalsRestoreEverything(c: Cache, previous: Option<Channel>, next: Channel, values: seq<TargetVolume>)
    requires Arrives(previous, next)
    ensures var restored := Restored(c, previous, next, values);
            && restored.generation == c.generation + 1
            && restored.lastSent == map[]
            && forall v <- values :: LocalTargetKey(v.target).Some? ==>
                 && LocalTargetKey(v.target).value in restored.pending
                 && exists w <- values ::
                      && LocalTargetKey(w.target) == LocalTargetKey(v.target)
                      && restored.pending[LocalTargetKey(v.target).value] == w.percent
  {
    forall v <- values | LocalTargetKey(v.target).Some? ensures
      && LocalTargetKey(v.target).value in Keyed(values)
      && exists w <- values ::
           && LocalTargetKey(w.target) == LocalTargetKey(v.target)
           && Keyed(values)[LocalTargetKey(v.target).value] == w.percent
    {
      KeyedHasEvery(values, v);
    }
  }

  lemma {:induction false} KeyedHasEvery(values: seq<TargetVolume>, v: TargetVolume)
    requires v in values && LocalTargetKey(v.target).Some?
    ensures var key := LocalTargetKey(v.target).value;
            && key in Keyed(values)
            && exists w <- values :: LocalTargetKey(w.target) == Some(key) && Keyed(values)[key] == w.percent
  {
    hide LocalTargetKey;
    var last, rest := values[|values| - 1], values[..|values| - 1];
    assert values == rest + [last];
    if LocalTargetKey(last.target) == LocalTargetKey(v.target) {
      assert last in values;
    } else {
      KeyedHasEvery(rest, v);
    }
  }

  lemma UnacceptedKept(s: V.State, step: V.Step, key: Key)
    requires V.Enabled(s, step) && key in s.ideal && key in s.acceptedIn
    requires step.Accepts? ==> key !in step.values
    ensures var t := V.Apply(s, step);
            && key in t.ideal && key in t.acceptedIn
            && t.ideal[key] == s.ideal[key] && t.acceptedIn[key] == s.acceptedIn[key]
  {
  }

  lemma {:induction false} StaysAccepted(before: seq<V.Step>, after: seq<V.Step>, key: Key)
    requires V.Run(before + after).Some?
    requires forall step <- after :: step.Accepts? ==> key !in step.values
    ensures V.Run(before).Some?
    ensures var s, t := V.Run(before).value, V.Run(before + after).value;
            key in s.ideal && key in s.acceptedIn ==>
              && key in t.ideal && key in t.acceptedIn
              && t.ideal[key] == s.ideal[key] && t.acceptedIn[key] == s.acceptedIn[key]
  {
    hide V.Apply, V.Enabled;
    if after == [] {
      assert before + after == before;
    } else {
      var shorter := after[..|after| - 1];
      assert (before + after)[..|before + after| - 1] == before + shorter;
      StaysAccepted(before, shorter, key);
      var s := V.Run(before + shorter).value;
      if key in s.ideal && key in s.acceptedIn {
        UnacceptedKept(s, after[|after| - 1], key);
      }
    }
  }

  /** A value replayed after an invalidation and not overwritten since: once everything is quiet it has been
      acknowledged in a request made after that invalidation, unless a request of its own failed; and the
      peer still holds it exactly when it was not dropped as a duplicate of an untracked key. */
  lemma {:induction false} ReplayedValuesArrive(
      before: seq<V.Step>, between: seq<V.Step>, values: map<Key, Volume>, after: seq<V.Step>, key: Key)
    requires V.Run(before + [V.Invalidates] + between + [V.Accepts(values)] + after).Some?
    requires key in values && forall step <- after :: step.Accepts? ==> key !in step.values
    requires var s := V.Run(before + [V.Invalidates] + between + [V.Accepts(values)] + after).value;
             V.Quiescent(s) && key !in s.lost
    ensures V.Run(before).Some?
    ensures var s := V.Run(before + [V.Invalidates] + between + [V.Accepts(values)] + after).value;
            && (exists taken: nat ::
                  taken > V.Run(before).value.cache.generation && V.Ack(key, values[key], taken) in s.acks)
            && ((key in s.peer && s.peer[key] == values[key]) <==> key !in s.masked)
  {
    var invalidated := before + [V.Invalidates];
    var prior := invalidated + between;
    var replayed := prior + [V.Accepts(values)];
    var whole := replayed + after;
    StaysAccepted(replayed, after, key);
    assert replayed[..|replayed| - 1] == prior;
    V.GenerationsGrow(invalidated, between);
    assert invalidated[..|invalidated| - 1] == before;
    V.QuietPeerHoldsTheNewestUnlessMasked(whole, key);
    var s := V.Run(whole).value;
    var taken: nat :| s.acceptedIn[key] <= taken && V.Ack(key, s.ideal[key], taken) in s.acks;
    assert V.Ack(key, values[key], taken) in s.acks;
  }

  /** Nothing that lastSent says, or that a flush under way could make it say, concerns this key. */
  predicate Forgotten(s: V.State, key: Key) {
    key !in s.cache.lastSent && (s.flush.Sending? ==> s.flush.generation < s.cache.generation)
  }

  /** A value accepted while forgotten waits in pending, or has been taken without being dropped. */
  predicate Unmasked(s: V.State, key: Key) {
    if key in s.cache.pending then Forgotten(s, key) else key !in s.masked
  }

  lemma UnmaskedKept(s: V.State, step: V.Step, key: Key)
    requires V.Accounts(s) && V.Enabled(s, step) && Unmasked(s, key)
    requires step.Accepts? ==> key !in step.values
    ensures Unmasked(V.Apply(s, step), key)
  {
  }

  lemma {:induction false} StaysUnmasked(before: seq<V.Step>, after: seq<V.Step>, key: Key)
    requires V.Run(before).Some? && V.Run(before + after).Some? && Unmasked(V.Run(before).value, key)
    requires forall step <- after :: step.Accepts? ==> key !in step.values
    ensures Unmasked(V.Run(before + after).value, key)
  {
    hide V.Apply, V.Enabled, Unmasked, V.Accounts, V.Flushing, V.Believed, V.Settled;
    if after == [] {
      assert before + after == before;
    } else {
      var shorter := after[..|after| - 1];
      assert (before + after)[..|before + after| - 1] == before + shorter;
      StaysUnmasked(before, shorter, key);
      V.RunKeepsInv(before + shorter);
      UnmaskedKept(V.Run(before + shorter).value, after[|after| - 1], key);
    }
  }

  lemma ForgottenKept(s: V.State, step: V.Step, key: Key)
    requires V.Enabled(s, step) && Forgotten(s, key) && !step.FlushTakes?
    ensures Forgotten(V.Apply(s, step), key)
  {
  }

  lemma {:induction false} StaysForgotten(before: seq<V.Step>, between: seq<V.Step>, key: Key)
    requires V.Run(before).Some? && V.Run(before + between).Some? && Forgotten(V.Run(before).value, key)
    requires forall step <- between :: !step.FlushTakes?
    ensures Forgotten(V.Run(before + between).value, key)
  {
    hide V.Apply, V.Enabled, Forgotten;
    if between == [] {
      assert before + between == before;
    } else {
      var shorter := between[..|between| - 1];
      assert (before + between)[..|before + between| - 1] == before + shorter;
      StaysForgotten(before, shorter, key);
      ForgottenKept(V.Run(before + shorter).value, between[|between| - 1], key);
    }
  }

  /** If no flush takes values between the invalidation and the replay, the replayed value always arrives:
      whatever flush was under way, whatever connections come and go, once everything is quiet the peer
      holds it, unless it was overwritten since or a request of its own failed. */
  lemma {:induction false} RestoredValuesHold(
      before: seq<V.Step>, between: seq<V.Step>, values: map<Key, Volume>, after: seq<V.Step>, key: Key)
    requires V.Run(before + [V.Invalidates] + between + [V.Accepts(values)] + after).Some?
    requires forall step <- between :: !step.FlushTakes?
    requires key in values && forall step <- after :: step.Accepts? ==> key !in step.values
    requires var s := V.Run(before + [V.Invalidates] + between + [V.Accepts(values)] + after).value;
             V.Quiescent(s) && key !in s.lost
    ensures var s := V.Run(before + [V.Invalidates] + between + [V.Accepts(values)] + after).value;
            key in s.peer && s.peer[key] == values[key]
  {
    var invalidated := before + [V.Invalidates];
    var prior := invalidated + between;
    var replayed := prior + [V.Accepts(values)];
    StaysAccepted(replayed, after, key);
    assert replayed[..|replayed| - 1] == prior;
    V.GenerationsGrow(invalidated, between);
    assert invalidated[..|invalidated| - 1] == before;
    assert Forgotten(V.Run(invalidated).value, key) by {
      V.RunKeepsInv(before);
    }
    StaysForgotten(invalidated, between, key);
    assert Unmasked(V.Run(replayed).value, key);
    StaysUnmasked(replayed, after, key);
    ReplayedValuesArrive(before, between, values, after, key);
  }
}
