/**
 The Discord volume throttle of internal/integrations/discord/volume.go: a map of values to send,
 a map of values Discord is believed to have, and a generation that invalidations advance.

 `Cache` is what the source keeps under volumeLock; the class is that memory, its methods are the
 critical sections and loops. Percentages are whole hundredths.
 */
module Throttle {
  import opened Prelude
  import opened Text

  type Key = string
  type Volume = int

  // ---------- the memory under volumeLock ----------

  datatype Cache = Cache(pending: map<Key, Volume>, lastSent: map<Key, Volume>, generation: nat)

  /** Discord is believed to have this value for this key. */
  predicate Has(c: Cache, key: Key, value: Volume) { key in c.lastSent && c.lastSent[key] == value }

  function Put(c: Cache, values: map<Key, Volume>): Cache { c.(pending := c.pending + values) }

  function Invalidated(c: Cache): Cache { c.(lastSent := map[], generation := c.generation + 1) }

  /** What a flush has to send. */
  function Todo(c: Cache): map<Key, Volume> {
    map key | key in c.pending && !Has(c, key, c.pending[key]) :: c.pending[key]
  }

  function Drained(c: Cache): Cache { c.(pending := map[]) }

  function Noted(c: Cache, sent: map<Key, Volume>): Cache { c.(lastSent := c.lastSent + sent) }

  /** A slider's present value for a Discord-local target. */
  datatype TargetVolume = TargetVolume(target: string, percent: Volume)

  const INPUT_TARGET := "input"
  const OUTPUT_TARGET := "output"
  const USER_PREFIX := "user:"

  /** The throttle key of a Discord-local target. */
  function LocalTargetKey(target: string): Option<Key> {
    var lower := Lower(target);
    if lower == INPUT_TARGET || lower == OUTPUT_TARGET then Some(lower)
    else if HasPrefix(lower, USER_PREFIX) then Some(USER_PREFIX + Trim(lower[|USER_PREFIX|..]))
    else None
  }

  /** The values a replay puts into pending; the last one for a key stays. */
  function Keyed(values: seq<TargetVolume>): map<Key, Volume> {
    if values == [] then map[]
    else
      var last := values[|values| - 1];
      match LocalTargetKey(last.target)
      case None => Keyed(values[..|values| - 1])
      case Some(key) => Keyed(values[..|values| - 1])[key := last.percent]
  }

  class Memory {
    var pending: map<Key, Volume>
    var lastSent: map<Key, Volume>
    var volumeGeneration: nat

    function View(): Cache
      reads this
    {
      Cache(pending, lastSent, volumeGeneration)
    }

    constructor ()
      ensures View() == Cache(map[], map[], 0)
    {
      pending, lastSent, volumeGeneration := map[], map[], 0;
    }

    /** setVolume: values arriving while disconnected are dropped. */
    method SetVolume(key: Key, percent: Volume, connected: bool)
      modifies this
      ensures View() == if connected then Put(old(View()), map[key := percent]) else old(View())
    {
      if connected {
        pending := pending[key := percent];
      }
    }

    method ReplayMappedSliderValues(values: seq<TargetVolume>)
      modifies this
      ensures View() == Put(old(View()), Keyed(values))
    {
      hide LocalTargetKey;
      var i := 0;
      while i < |values|
        invariant 0 <= i <= |values|
        invariant View() == Put(old(View()), Keyed(values[..i]))
      {
        assert values[..i + 1][..i] == values[..i];
        var key := LocalTargetKey(values[i].target);
        if key.Some? {
          pending := pending[key.value := values[i].percent];
        }
        i := i + 1;
      }
      assert values[..i] == values;
    }

    method InvalidateVolumes()
      modifies this
      ensures View() == Invalidated(old(View()))
    {
      lastSent := map[];
      volumeGeneration := volumeGeneration + 1;
    }

    /** takePendingLocked, with the generation that flush reads in the same section. */
    method TakePending() returns (generation: nat, todo: map<Key, Volume>)
      modifies this
      ensures View() == Drained(old(View()))
      ensures generation == old(volumeGeneration) && todo == Todo(old(View()))
    {
      generation := volumeGeneration;
      todo := map[];
      var keys := pending.Keys;
      while keys != {}
        invariant View() == old(View())
        invariant keys <= pending.Keys
        invariant todo == map key | key in pending && key !in keys && !Has(View(), key, pending[key]) :: pending[key]
        decreases keys
      {
        var key :| key in keys;
        if key !in lastSent || lastSent[key] != pending[key] {
          todo := todo[key := pending[key]];
        }
        keys := keys - {key};
      }
      pending := map[];
    }

    /** The section that ends flush: `current` is the connection at that moment. */
    method FinishFlush(conn: nat, current: Option<nat>, generation: nat, sent: map<Key, Volume>)
      modifies this
      ensures View() == if current == Some(conn) && generation == old(volumeGeneration)
                        then Noted(old(View()), sent)
                        else old(View())
    {
      if current.Some? && current.value == conn && generation == volumeGeneration {
        lastSent := lastSent + sent;
      }
    }
  }

  /** The sending loop of flush. `acknowledged` says which requests come back without an error. */
  method SendAll(todo: map<Key, Volume>, acknowledged: set<Key>) returns (sent: map<Key, Volume>, requests: seq<Key>)
    ensures sent == map key | key in todo && key in acknowledged :: todo[key]
    ensures forall key :: key in requests <==> key in todo
    ensures forall i, j :: 0 <= i < j < |requests| ==> requests[i] != requests[j]
  {
    sent, requests := map[], [];
    var keys := todo.Keys;
    while keys != {}
      invariant keys <= todo.Keys
      invariant sent == map key | key in todo && key !in keys && key in acknowledged :: todo[key]
      invariant forall key :: key in requests <==> key in todo && key !in keys
      invariant forall i, j :: 0 <= i < j < |requests| ==> requests[i] != requests[j]
      decreases keys
    {
      var key :| key in keys;
      requests := requests + [key];
      if key in acknowledged {
        sent := sent[key := todo[key]];
      }
      keys := keys - {key};
    }
  }

  /** Of several values for one key, a replay leaves the last. */
  lemma {:induction false} KeyedIsLast(values: seq<TargetVolume>, i: nat)
    requires i < |values| && LocalTargetKey(values[i].target).Some?
    requires forall j :: i < j < |values| ==> LocalTargetKey(values[j].target) != LocalTargetKey(values[i].target)
    ensures var key := LocalTargetKey(values[i].target).value;
            key in Keyed(values) && Keyed(values)[key] == values[i].percent
  {
    hide LocalTargetKey;
    if i < |values| - 1 {
      var before := values[..|values| - 1];
      assert before[i] == values[i] && forall j :: i < j < |before| ==> before[j] == values[j];
      KeyedIsLast(before, i);
    }
  }
}
