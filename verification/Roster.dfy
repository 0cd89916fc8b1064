/**
 The voice channel roster of internal/integrations/discord/roster.go: kept up to date by folding
 events into a sorted list, and re-read from scratch by reconciliation.
 */
module Roster {
  import opened Text

  datatype User = User(id: string, name: string)

  /** A member's entry as events and channel reads carry it. */
  datatype VoiceState = VoiceState(nick: string, id: string, username: string, globalName: string)

  function ToUser(s: VoiceState): User {
    User(s.id, if s.nick != "" then s.nick else if s.globalName != "" then s.globalName else s.username)
  }

  // ---------- order ----------

  predicate Before(a: string, b: string) {
    b != "" && (a == "" || a[0] < b[0] || (a[0] == b[0] && Before(a[1..], b[1..])))
  }

  lemma {:induction false} BeforeIsTotal(a: string, b: string)
    ensures a == b || Before(a, b) || Before(b, a)
  {
    if a != "" && b != "" && a[0] == b[0] {
      BeforeIsTotal(a[1..], b[1..]);
      assert a == [a[0]] + a[1..] && b == [b[0]] + b[1..];
    }
  }

  lemma {:induction false} BeforeIsStrict(a: string, b: string, c: string)
    ensures !Before(a, a)
    ensures Before(a, b) && Before(b, c) ==> Before(a, c)
  {
    if a != "" {
      BeforeIsStrict(a[1..], if b == "" then "" else b[1..], if c == "" then "" else c[1..]);
    }
  }

  /** The comparison of sortDiscordUsers: lowercased name, then ID. */
  predicate UserBefore(u: User, v: User) {
    Before(Lower(u.name), Lower(v.name)) || (Lower(u.name) == Lower(v.name) && Before(u.id, v.id))
  }

  lemma UserBeforeIsTotal(u: User, v: User)
    requires u.id != v.id
    ensures UserBefore(u, v) || UserBefore(v, u)
  {
    BeforeIsTotal(Lower(u.name), Lower(v.name));
    BeforeIsTotal(u.id, v.id);
  }

  lemma UserBeforeIsStrict(u: User, v: User, w: User)
    ensures !UserBefore(u, u)
    ensures UserBefore(u, v) && UserBefore(v, w) ==> UserBefore(u, w)
  {
    BeforeIsStrict(Lower(u.name), Lower(v.name), Lower(w.name));
    BeforeIsStrict(u.id, v.id, w.id);
  }

  // ---------- sorting ----------

  function Insert(u: User, users: seq<User>): seq<User> {
    if users == [] || UserBefore(u, users[0]) then [u] + users else [users[0]] + Insert(u, users[1..])
  }

  /** What sortDiscordUsers leaves in the slice. */
  function Sorted(users: seq<User>): seq<User> {
    if users == [] then [] else Insert(users[0], Sorted(users[1..]))
  }

  ghost predicate StrictlySorted(users: seq<User>) {
    forall i, j :: 0 <= i < j < |users| ==> UserBefore(users[i], users[j])
  }

  ghost predicate DistinctIds(users: seq<User>) {
    forall i, j :: 0 <= i < j < |users| ==> users[i].id != users[j].id
  }

  lemma {:induction false} InsertSorts(u: User, users: seq<User>)
    requires StrictlySorted(users) && forall v <- users :: v.id != u.id
    ensures StrictlySorted(Insert(u, users)) && (forall v :: v in Insert(u, users) <==> v == u || v in users)
  {
    if users != [] {
      UserBeforeIsTotal(u, users[0]);
      if UserBefore(u, users[0]) {
        forall i | 0 < i < |users| ensures UserBefore(u, users[i]) {
          UserBeforeIsStrict(u, users[0], users[i]);
        }
        assert forall v :: v in [u] + users <==> v == u || v in users;
      } else {
        var rest := Insert(u, users[1..]);
        InsertSorts(u, users[1..]);
        assert users == [users[0]] + users[1..];
        forall i | 0 <= i < |rest| ensures UserBefore(users[0], rest[i]) {
          assert rest[i] in rest;
        }
      }
    }
  }

  lemma {:induction false} SortedSorts(users: seq<User>)
    requires DistinctIds(users)
    ensures StrictlySorted(Sorted(users)) && (forall v :: v in Sorted(users) <==> v in users)
  {
    if users != [] {
      SortedSorts(users[1..]);
      InsertSorts(users[0], Sorted(users[1..]));
      assert users == [users[0]] + users[1..];
    }
  }

  lemma {:induction false} SortedListsAreUnique(a: seq<User>, b: seq<User>)
    requires StrictlySorted(a) && StrictlySorted(b) && forall u :: u in a <==> u in b
    ensures a == b
  {
    assert a == [] <==> b == [] by {
      if a != [] { assert a[0] in a; }
      if b != [] { assert b[0] in b; }
    }
    if a != [] {
      assert a[0] in b && b[0] in a;
      UserBeforeIsStrict(a[0], b[0], a[0]);
      assert a[0] == b[0];
      UserBeforeIsStrict(a[0], a[0], a[0]);
      assert a[0] !in a[1..] && b[0] !in b[1..];
      forall u ensures u in a[1..] <==> u in b[1..] {
        assert u in a <==> u == a[0] || u in a[1..];
        assert u in b <==> u == b[0] || u in b[1..];
      }
      SortedListsAreUnique(a[1..], b[1..]);
    }
  }

  // ---------- folding events ----------

  datatype Kind = Create | Update | Delete

  datatype VoiceEvent = VoiceEvent(kind: Kind, state: VoiceState)

  /** The first position of a member, or |users|. */
  function IndexOf(users: seq<User>, id: string): (i: nat)
    ensures i <= |users|
    ensures i < |users| ==> users[i].id == id
    ensures forall j :: 0 <= j < i ==> users[j].id != id
  {
    if users == [] || users[0].id == id then 0
    else
      var i := 1 + IndexOf(users[1..], id);
      assert forall j :: 0 < j < i ==> users[j] == users[1..][j - 1];
      i
  }

  /** applyVoiceStateEvent on the list of members; events without a user ID are ignored. */
  function Fold(users: seq<User>, e: VoiceEvent): seq<User> {
    var user := ToUser(e.state);
    var i := IndexOf(users, user.id);
    if user.id == "" then users
    else if e.kind.Delete? then
      if i == |users| then users else Sorted(users[..i] + users[i + 1..])
    else if i == |users| then Sorted(users + [user])
    else if users[i] == user then users
    else Sorted(users[i := user])
  }

  function FoldAll(users: seq<User>, events: seq<VoiceEvent>): seq<User> {
    if events == [] then users else Fold(FoldAll(users, events[..|events| - 1]), events[|events| - 1])
  }

  /** readVoiceChannel: the members of one channel read, sorted. */
  function Rebuild(states: seq<VoiceState>): seq<User> {
    Sorted(seq(|states|, i requires 0 <= i < |states| => ToUser(states[i])))
  }

  // ---------- what the peer has ----------

  /** The members of the channel, by ID. */
  type Members = map<string, User>

  function Moved(m: Members, e: VoiceEvent): Members {
    if e.state.id == "" then m
    else if e.kind.Delete? then m - {e.state.id}
    else m[e.state.id := ToUser(e.state)]
  }

  function MovedAll(m: Members, events: seq<VoiceEvent>): Members {
    if events == [] then m else Moved(MovedAll(m, events[..|events| - 1]), events[|events| - 1])
  }

  /** The list has each member of the channel once, and nobody else. */
  ghost predicate Contains(users: seq<User>, m: Members) {
    && DistinctIds(users)
    && (forall id <- m :: m[id].id == id && m[id] in users)
    && (forall u :: u in users <==> u.id in m && m[u.id] == u)
  }

  /** The list is the channel: contents as above, strictly sorted. */
  ghost predicate Represents(users: seq<User>, m: Members) {
    StrictlySorted(users) && Contains(users, m)
  }

  /** A reply to a channel read lists every member once, in any order. */
  ghost predicate Lists(states: seq<VoiceState>, m: Members) {
    && (forall i, j :: 0 <= i < j < |states| ==> states[i].id != states[j].id)
    && (forall i :: 0 <= i < |states| ==> states[i].id in m && m[states[i].id] == ToUser(states[i]))
    && (forall id <- m :: m[id].id == id && exists i :: 0 <= i < |states| && states[i].id == id)
  }

  lemma RepresentationsAreUnique(a: seq<User>, b: seq<User>, m: Members)
    requires Represents(a, m) && Represents(b, m)
    ensures a == b
  {
    SortedListsAreUnique(a, b);
  }

  lemma SortedRepresents(users: seq<User>, m: Members)
    requires Contains(users, m)
    ensures Represents(Sorted(users), m)
  {
    SortedSorts(users);
    var list := Sorted(users);
    forall i, j | 0 <= i < j < |list| ensures list[i].id != list[j].id {
      assert list[i] in users && list[j] in users;
      UserBeforeIsStrict(list[i], list[j], list[i]);
    }
  }

  lemma RebuildRepresents(states: seq<VoiceState>, m: Members)
    requires Lists(states, m)
    ensures Represents(Rebuild(states), m)
  {
    var users := seq(|states|, i requires 0 <= i < |states| => ToUser(states[i]));
    forall u ensures u in users <==> u.id in m && m[u.id] == u {
      if u.id in m && m[u.id] == u {
        var i :| 0 <= i < |states| && states[i].id == u.id;
        assert users[i] == u;
      }
    }
    SortedRepresents(users, m);
  }

  lemma RemovalStaysDistinct(users: seq<User>, i: nat)
    requires DistinctIds(users) && i < |users|
    ensures var rest := users[..i] + users[i + 1..];
            && DistinctIds(rest)
            && (forall u :: u in rest ==> u in users && u.id != users[i].id)
            && (forall k :: 0 <= k < |users| && k != i ==> users[k] in rest)
  {
    var rest := users[..i] + users[i + 1..];
    assert forall k :: 0 <= k < |rest| ==> rest[k] == users[if k < i then k else k + 1];
    forall k | 0 <= k < |users| && k != i ensures users[k] in rest {
      assert users[k] == rest[if k < i then k else k - 1];
    }
  }

  lemma RemovalContains(users: seq<User>, m: Members, i: nat)
    requires Contains(users, m) && i < |users|
    ensures Contains(users[..i] + users[i + 1..], m - {users[i].id})
  {
    var rest := users[..i] + users[i + 1..];
    assert users[i] in users;
    RemovalStaysDistinct(users, i);
    hide DistinctIds;
    forall u ensures u in rest <==> u in users && u.id != users[i].id {
      if u in users && u.id != users[i].id {
        var k :| 0 <= k < |users| && users[k] == u;
        assert k != i;
      }
    }
  }

  lemma ReplacementContains(users: seq<User>, m: Members, i: nat, user: User)
    requires Contains(users, m) && i < |users| && users[i].id == user.id
    ensures Contains(users[i := user], m[user.id := user])
  {
    var edited := users[i := user];
    assert users[i] in users && edited[i] == user;
    forall u ensures u in edited <==> u == user || (u in users && u.id != user.id) {
      if u in users && u.id != user.id {
        var k :| 0 <= k < |users| && users[k] == u;
        assert edited[k] == u;
      }
    }
  }

  lemma AppendingContains(users: seq<User>, m: Members, user: User)
    requires Contains(users, m) && forall j :: 0 <= j < |users| ==> users[j].id != user.id
    ensures Contains(users + [user], m[user.id := user])
  {
  }

  /** One event keeps the list equal to the channel. */
  lemma FoldRepresents(users: seq<User>, m: Members, e: VoiceEvent)
    requires Represents(users, m)
    ensures Represents(Fold(users, e), Moved(m, e))
  {
    hide Sorted, StrictlySorted, DistinctIds;
    var user := ToUser(e.state);
    var i := IndexOf(users, user.id);
    if i < |users| {
      assert users[i] in users;
      RemovalContains(users, m, i);
      SortedRepresents(users[..i] + users[i + 1..], m - {user.id});
      ReplacementContains(users, m, i, user);
      SortedRepresents(users[i := user], m[user.id := user]);
      assert users[i] == user ==> m[user.id := user] == m;
    } else {
      AppendingContains(users, m, user);
      SortedRepresents(users + [user], m[user.id := user]);
    }
  }

  lemma {:induction false} FoldAllRepresents(users: seq<User>, m: Members, events: seq<VoiceEvent>)
    requires Represents(users, m)
    ensures Represents(FoldAll(users, events), MovedAll(m, events))
  {
    if events != [] {
      FoldAllRepresents(users, m, events[..|events| - 1]);
      FoldRepresents(FoldAll(users, events[..|events| - 1]), MovedAll(m, events[..|events| - 1]), events[|events| - 1]);
    }
  }

  /** After any events, the folded list is exactly the list that a fresh channel read would give. */
  lemma IncrementalEqualsRebuild(first: seq<VoiceState>, m: Members, events: seq<VoiceEvent>, reread: seq<VoiceState>)
    requires Lists(first, m) && Lists(reread, MovedAll(m, events))
    ensures FoldAll(Rebuild(first), events) == Rebuild(reread)
    ensures StrictlySorted(Rebuild(reread)) && DistinctIds(Rebuild(reread))
  {
    RebuildRepresents(first, m);
    FoldAllRepresents(Rebuild(first), m, events);
    RebuildRepresents(reread, MovedAll(m, events));
    RepresentationsAreUnique(FoldAll(Rebuild(first), events), Rebuild(reread), MovedAll(m, events));
  }

  /** Events about different members commute. */
  lemma EventsCommute(users: seq<User>, m: Members, e: VoiceEvent, f: VoiceEvent)
    requires Represents(users, m) && e.state.id != f.state.id
    ensures Fold(Fold(users, e), f) == Fold(Fold(users, f), e)
  {
    assert Moved(Moved(m, e), f) == Moved(Moved(m, f), e);
    hide Fold, Represents, Moved;
    FoldRepresents(users, m, e);
    FoldRepresents(Fold(users, e), Moved(m, e), f);
    FoldRepresents(users, m, f);
    FoldRepresents(Fold(users, f), Moved(m, f), e);
    RepresentationsAreUnique(Fold(Fold(users, e), f), Fold(Fold(users, f), e), Moved(Moved(m, e), f));
  }

  // ---------- the order, and the names shown ----------

  /** At `i` the texts differ for the first time, where `a` ends or has the smaller character. */
  predicate LessAt(a: string, b: string, i: nat) {
    i <= |a| && i < |b| && a[..i] == b[..i] && (i < |a| ==> a[i] < b[i])
  }

  lemma SameStart(a: string, b: string, i: nat)
    requires 0 < i <= |a| && i <= |b| && a[..i] == b[..i]
    ensures a[0] == b[0]
  {
    assert a[..i][0] == b[..i][0];
  }

  lemma {:induction false} BeforeExactly(a: string, b: string)
    ensures Before(a, b) <==> exists i: nat :: LessAt(a, b, i)
  {
    if b != "" && a != "" && a[0] == b[0] {
      BeforeExactly(a[1..], b[1..]);
      if Before(a, b) {
        var i: nat :| LessAt(a[1..], b[1..], i);
        assert a[..i + 1] == [a[0]] + a[1..][..i] && b[..i + 1] == [b[0]] + b[1..][..i];
        assert LessAt(a, b, i + 1);
      }
      forall i: nat | LessAt(a, b, i) ensures i > 0 && LessAt(a[1..], b[1..], i - 1) {
        assert a[..i][1..] == a[1..][..i - 1] && b[..i][1..] == b[1..][..i - 1];
      }
    } else {
      assert Before(a, b) ==> LessAt(a, b, 0);
      forall i: nat | LessAt(a, b, i) ensures Before(a, b) {
        if i > 0 {
          SameStart(a, b, i);
          assert false;
        }
      }
    }
  }

  /** Of two members in the list, the first has the smaller name when capitals do not count, character by
      character and a shorter name before its continuations; or the names differ at most in capitals and
      its ID is the smaller. */
  lemma ListedByName(users: seq<User>, i: nat, j: nat, first: string, second: string)
    requires DistinctIds(users) && i < j < |Sorted(users)|
    requires FoldsTo(Sorted(users)[i].name, first) && FoldsTo(Sorted(users)[j].name, second)
    ensures (exists n: nat :: LessAt(first, second, n))
         || (first == second && exists n: nat :: LessAt(Sorted(users)[i].id, Sorted(users)[j].id, n))
  {
    SortedSorts(users);
    var u, v := Sorted(users)[i], Sorted(users)[j];
    LowerExactly(u.name, first);
    LowerExactly(v.name, second);
    BeforeExactly(first, second);
    BeforeExactly(u.id, v.id);
  }

  /** This is how the client shows this member: nickname, else display name, else user name. */
  predicate Shows(u: User, s: VoiceState) {
    && u.id == s.id
    && (s.nick != "" ==> u.name == s.nick)
    && (s.nick == "" && s.globalName != "" ==> u.name == s.globalName)
    && (s.nick == "" && s.globalName == "" ==> u.name == s.username)
  }

  /** A channel read lists exactly the members it was given, each as the client shows it. */
  lemma RebuildShowsEverybody(states: seq<VoiceState>)
    requires forall i, j :: 0 <= i < j < |states| ==> states[i].id != states[j].id
    ensures forall s <- states :: exists u <- Rebuild(states) :: Shows(u, s)
    ensures forall u <- Rebuild(states) :: exists s <- states :: Shows(u, s)
  {
    var users := seq(|states|, i requires 0 <= i < |states| => ToUser(states[i]));
    SortedSorts(users);
    forall s <- states ensures exists u <- Rebuild(states) :: Shows(u, s) {
      var i :| 0 <= i < |states| && states[i] == s;
      assert users[i] in users && Shows(users[i], s);
    }
    forall u <- Rebuild(states) ensures exists s <- states :: Shows(u, s) {
      var i :| 0 <= i < |users| && users[i] == u;
      assert states[i] in states && Shows(u, states[i]);
    }
  }

  lemma {:induction false} OthersStay(users: seq<User>, m: Members, events: seq<VoiceEvent>, u: User)
    requires Represents(users, m) && forall e <- events :: e.state.id != u.id
    ensures u in FoldAll(users, events) <==> u in users
    ensures u.id in MovedAll(m, events) <==> u.id in m
  {
    if events != [] {
      var before := events[..|events| - 1];
      OthersStay(users, m, before, u);
      FoldAllRepresents(users, m, before);
      FoldAllRepresents(users, m, events);
      hide Fold, Sorted;
    }
  }

  lemma FoldShowsTheMember(users: seq<User>, m: Members, e: VoiceEvent)
    requires Represents(users, m) && e.state.id != ""
    ensures !e.kind.Delete? ==> ToUser(e.state) in Fold(users, e) && Shows(ToUser(e.state), e.state)
    ensures e.kind.Delete? ==> forall u <- Fold(users, e) :: u.id != e.state.id
  {
    FoldRepresents(users, m, e);
  }

  /** After any events, a member is shown as its last event says, and not at all if that was its leaving. */
  lemma {:induction false} LastEventIsShown(
      users: seq<User>, m: Members, before: seq<VoiceEvent>, e: VoiceEvent, after: seq<VoiceEvent>)
    requires Represents(users, m) && e.state.id != "" && forall f <- after :: f.state.id != e.state.id
    ensures var list := FoldAll(users, before + [e] + after);
            if e.kind.Delete? then forall u <- list :: u.id != e.state.id
            else exists u <- list :: Shows(u, e.state)
  {
    var prior := before + [e];
    assert prior[..|prior| - 1] == before;
    FoldAllRepresents(users, m, before);
    FoldShowsTheMember(FoldAll(users, before), MovedAll(m, before), e);
    FoldAllRepresents(users, m, prior);
    FoldAllOfConcat(users, prior, after);
    var list := FoldAll(FoldAll(users, prior), after);
    OthersStay(FoldAll(users, prior), MovedAll(m, prior), after, ToUser(e.state));
    FoldAllRepresents(FoldAll(users, prior), MovedAll(m, prior), after);
    if e.kind.Delete? {
      forall u <- list ensures u.id != e.state.id {
        if u.id == e.state.id {
          OthersStay(FoldAll(users, prior), MovedAll(m, prior), after, u);
        }
      }
    }
  }

  lemma {:induction false} FoldAllOfConcat(users: seq<User>, first: seq<VoiceEvent>, second: seq<VoiceEvent>)
    ensures FoldAll(users, first + second) == FoldAll(FoldAll(users, first), second)
  {
    if second == [] {
      assert first + second == first;
    } else {
      assert (first + second)[..|first + second| - 1] == first + second[..|second| - 1];
      FoldAllOfConcat(users, first, second[..|second| - 1]);
    }
  }
}
