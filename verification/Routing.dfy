/**
 Replies to RPC calls in internal/integrations/discord/rpc.go: callers register a one-slot channel
 under a fresh nonce, the single read loop hands each reply to the channel registered for its nonce.
 */
module Routing {
  import opened Prelude

  datatype Frame = Frame(nonce: nat, data: int)

  // ---------- the pending table ----------

  /** What callers and the read loop share: the nonces in the table, and every call's channel, also after
      its entry is gone. */
  datatype Replies = Replies(open: set<nat>, slots: map<nat, Option<Frame>>)

  function Registered(r: Replies, nonce: nat): Replies { Replies(r.open + {nonce}, r.slots[nonce := None]) }

  /** Both the read loop and the call's own cleanup delete the entry; the channel lives on. */
  function Deleted(r: Replies, nonce: nat): Replies { r.(open := r.open - {nonce}) }

  function Handed(r: Replies, frame: Frame): Replies { r.(slots := r.slots[frame.nonce := Some(frame)]) }

  function Received(r: Replies, nonce: nat): Replies { r.(slots := r.slots[nonce := None]) }

  class ReplyChannel {
    ghost const nonce: nat
    var slot: Option<Frame>

    constructor (ghost nonce: nat)
      ensures slot == None && this.nonce == nonce
    {
      this.nonce := nonce;
      slot := None;
    }
  }

  /** The table, and the broadcast of the connection's end. */
  class Table {
    var pending: map<nat, ReplyChannel>
    var done: bool
    var doneErr: int
    ghost var made: map<nat, ReplyChannel>  // every call's channel, also of calls without an entry

    ghost predicate Valid()
      reads this
    {
      && (forall n <- made :: made[n].nonce == n)
      && (forall n <- pending :: n in made && made[n] == pending[n])
    }

    ghost function View(): Replies
      reads this, made.Values
    {
      Replies(pending.Keys, map n | n in made :: made[n].slot)
    }

    constructor ()
      ensures Valid() && View() == Replies({}, map[]) && !done
    {
      pending, done, doneErr, made := map[], false, 0, map[];
    }

    method Register(nonce: nat) returns (channel: ReplyChannel)
      requires Valid() && nonce !in made
      modifies this`pending, this`made
      ensures Valid() && View() == Registered(old(View()), nonce)
      ensures fresh(channel) && made == old(made)[nonce := channel]
    {
      channel := new ReplyChannel(nonce);
      pending, made := pending[nonce := channel], made[nonce := channel];
    }

    /** The deferred cleanup of roundTrip. */
    method Deregister(nonce: nat)
      requires Valid()
      modifies this`pending
      ensures Valid() && View() == Deleted(old(View()), nonce)
    {
      pending := pending - {nonce};
    }

    /** The read loop's lookup and removal, in one section. */
    method Take(nonce: nat) returns (channel: ReplyChannel?)
      requires Valid()
      modifies this`pending
      ensures Valid() && View() == Deleted(old(View()), nonce)
      ensures channel != null <==> nonce in old(View()).open
      ensures channel != null ==> nonce in made && channel == made[nonce]
    {
      channel := if nonce in pending then pending[nonce] else null;
      pending := pending - {nonce};
    }

    /** The read loop's send, which blocks while the channel is full. */
    method Hand(channel: ReplyChannel, frame: Frame)
      requires Valid() && frame.nonce in made && made[frame.nonce] == channel && channel.slot.None?
      modifies channel
      ensures Valid() && View() == Handed(old(View()), frame)
    {
      channel.slot := Some(frame);
    }

    /** The caller's receive, which waits while the channel is empty. */
    method Receive(channel: ReplyChannel) returns (reply: Frame)
      requires Valid() && channel.nonce in made && made[channel.nonce] == channel && channel.slot.Some?
      modifies channel
      ensures Valid() && View() == Received(old(View()), channel.nonce)
      ensures Some(reply) == old(View()).slots[channel.nonce]
    {
      reply := channel.slot.value;
      channel.slot := None;
    }

    /** fail: only the first error counts. */
    method Fail(err: int)
      modifies this`done, this`doneErr
      ensures done && doneErr == if old(done) then old(doneErr) else err
    {
      if !done {
        done, doneErr := true, err;
      }
    }
  }

  // ---------- callers and read loop together ----------

  datatype Result = Reply(frame: Frame) | ConnectionFailed | TimedOut | WriteFailed

  datatype Call = Writing | Waiting | Returned(result: Result)

  datatype ReadLoop = Reading | Handing(frame: Frame) | Exited

  /** `handed` and `results` are history: replies put into a channel, and what calls returned. */
  datatype State = State(
    replies: Replies,
    calls: map<nat, Call>,
    reader: ReadLoop,
    done: bool,
    handed: seq<nat>,
    results: seq<(nat, Result)>)

  const INIT := State(Replies({}, map[]), map[], Reading, false, [], [])

  datatype Step =
    | Registers(nonce: nat)
    | Writes(nonce: nat, ok: bool)
    | Receives(nonce: nat)
    | SeesDone(nonce: nat)
    | Expires(nonce: nat)
    | Deregisters(nonce: nat)
    | Reads(frame: Frame)
    | Hands
    | ReadFails

  predicate IsWaiting(s: State, nonce: nat) { nonce in s.calls && s.calls[nonce].Waiting? }

  predicate Enabled(s: State, step: Step) {
    match step
    case Registers(n) => n !in s.replies.slots   // nonces are unique
    case Writes(n, _) => n in s.calls && s.calls[n].Writing?
    case Receives(n) => IsWaiting(s, n) && n in s.replies.slots && s.replies.slots[n].Some?
    case SeesDone(n) => IsWaiting(s, n) && s.done
    case Expires(n) => IsWaiting(s, n)
    case Deregisters(n) => n in s.calls && s.calls[n].Returned?
    case Reads(_) => s.reader.Reading?
    case Hands =>
      s.reader.Handing? && s.reader.frame.nonce in s.replies.slots && s.replies.slots[s.reader.frame.nonce].None?
    case ReadFails => s.reader.Reading?
  }

  function Apply(s: State, step: Step): State
    requires Enabled(s, step)
  {
    match step
    case Registers(n) => s.(replies := Registered(s.replies, n), calls := s.calls[n := Writing])
    case Writes(n, ok) => s.(calls := s.calls[n := if ok then Waiting else Returned(WriteFailed)])
    case Receives(n) =>
      s.(replies := Received(s.replies, n), calls := s.calls[n := Returned(Reply(s.replies.slots[n].value))])
    case SeesDone(n) => s.(calls := s.calls[n := Returned(ConnectionFailed)])
    case Expires(n) => s.(calls := s.calls[n := Returned(TimedOut)])
    case Deregisters(n) =>
      s.(replies := Deleted(s.replies, n), calls := s.calls - {n}, results := s.results + [(n, s.calls[n].result)])
    case Reads(frame) =>
      s.(replies := Deleted(s.replies, frame.nonce),
         reader := if frame.nonce in s.replies.open then Handing(frame) else Reading)
    case Hands =>
      s.(replies := Handed(s.replies, s.reader.frame), reader := Reading, handed := s.handed + [s.reader.frame.nonce])
    case ReadFails => s.(reader := Exited, done := true)
  }

  function Run(steps: seq<Step>): Option<State> {
    if steps == [] then Some(INIT)
    else
      match Run(steps[..|steps| - 1])
      case None => None
      case Some(s) => if Enabled(s, steps[|steps| - 1]) then Some(Apply(s, steps[|steps| - 1])) else None
  }

  predicate InHand(s: State, nonce: nat) { s.reader.Handing? && s.reader.frame.nonce == nonce }

  ghost predicate Inv(s: State) {
    && s.replies.open <= s.calls.Keys <= s.replies.slots.Keys
    && (forall n <- s.replies.open :: s.replies.slots[n].None? && !InHand(s, n) && n !in s.handed)
    && (s.reader.Handing? ==>
          var n := s.reader.frame.nonce; n in s.replies.slots && s.replies.slots[n].None? && n !in s.handed)
    && (forall n <- s.replies.slots :: s.replies.slots[n].Some? ==> s.replies.slots[n].value.nonce == n)
    && (forall n <- s.handed :: n in s.replies.slots)
    && (forall i, j :: 0 <= i < j < |s.handed| ==> s.handed[i] != s.handed[j])
    && (forall n <- s.calls :: s.calls[n].Waiting? || s.calls[n].Writing? ==>
          n in s.replies.open || InHand(s, n) || s.replies.slots[n].Some?)
    && (forall n <- s.calls :: s.calls[n].Returned? && s.calls[n].result.Reply? ==> s.calls[n].result.frame.nonce == n)
    && (forall r <- s.results :: r.1.Reply? ==> r.1.frame.nonce == r.0)
    && (s.reader.Exited? <==> s.done)
  }

  predicate OfReader(step: Step) { step.Reads? || step.Hands? || step.ReadFails? }

  lemma ReaderStepKeepsInv(s: State, step: Step)
    requires Inv(s) && Enabled(s, step) && OfReader(step)
    ensures Inv(Apply(s, step))
  {
  }

  lemma CallStepKeepsInv(s: State, step: Step)
    requires Inv(s) && Enabled(s, step) && !OfReader(step)
    ensures Inv(Apply(s, step))
  {
  }

  lemma StepKeepsInv(s: State, step: Step)
    requires Inv(s) && Enabled(s, step)
    ensures Inv(Apply(s, step))
  {
    hide Inv, Enabled, Apply;
    if OfReader(step) {
      ReaderStepKeepsInv(s, step);
    } else {
      CallStepKeepsInv(s, step);
    }
  }

  lemma {:induction false} RunKeepsInv(steps: seq<Step>)
    requires Run(steps).Some?
    ensures Inv(Run(steps).value)
  {
    if steps != [] {
      RunKeepsInv(steps[..|steps| - 1]);
      StepKeepsInv(Run(steps[..|steps| - 1]).value, steps[|steps| - 1]);
    }
  }

  // ---------- results ----------

  /** The read loop never waits to hand over a reply: no channel is ever given a second one. */
  lemma {:induction false} HandingNeverBlocks(steps: seq<Step>)
    requires Run(steps).Some?
    ensures var s := Run(steps).value;
            && (s.reader.Handing? ==> Enabled(s, Hands))
            && forall i, j :: 0 <= i < j < |s.handed| ==> s.handed[i] != s.handed[j]
  {
    RunKeepsInv(steps);
  }

  /** A call that returns a reply returns the one bearing its nonce. */
  lemma {:induction false} RepliesBearTheirNonce(steps: seq<Step>, i: nat)
    requires Run(steps).Some? && i < |Run(steps).value.results| && Run(steps).value.results[i].1.Reply?
    ensures var r := Run(steps).value.results[i]; r.1.frame.nonce == r.0
  {
    RunKeepsInv(steps);
    assert Run(steps).value.results[i] in Run(steps).value.results;
  }

  /** A waiting call whose entry is gone has its reply in its channel, or the read loop is about to put it
      there; and once the connection has failed every waiting call can return. */
  lemma {:induction false} WaitingCallsAreServed(steps: seq<Step>, nonce: nat)
    requires Run(steps).Some? && IsWaiting(Run(steps).value, nonce)
    ensures var s := Run(steps).value;
            && (nonce !in s.replies.open ==>
                Enabled(s, Receives(nonce))
                    || (InHand(s, nonce) && Enabled(s, Hands) && Enabled(Apply(s, Hands), Receives(nonce))))
            && (s.reader.Exited? ==> Enabled(s, SeesDone(nonce)))
  {
    RunKeepsInv(steps);
  }

  /** Without outstanding calls the table is empty. */
  lemma {:induction false} IdleTablesAreEmpty(steps: seq<Step>)
    requires Run(steps).Some? && Run(steps).value.calls == map[]
    ensures Run(steps).value.replies.open == {}
  {
    RunKeepsInv(steps);
  }
}
