/**
 One subscriber's view of the configuration store of internal/config/store.go and
 internal/config/watch.go: whoever publishes new settings notifies afterwards, and the subscriber's
 channel holds at most one signal.
 */
module Signals {
  /** A save publishes and notifies under the store's lock, the watcher notifies after it has let the lock go. */
  datatype Publisher = Saver | Watcher

  /** `busy` are the publishers that have published and not yet notified. */
  datatype Signals = Signals(busy: set<Publisher>, waiting: bool)

  const SILENT := Signals({}, false)

  predicate MayPublish(g: Signals, who: Publisher) { Saver !in g.busy && who !in g.busy }

  function PublishedBy(g: Signals, who: Publisher): Signals { g.(busy := g.busy + {who}) }

  function NotifiedBy(g: Signals, who: Publisher): Signals { Signals(g.busy - {who}, true) }

  function Taken(g: Signals): Signals { g.(waiting := false) }

  /** A signal is waiting or will be. */
  predicate Announced(g: Signals) { g.waiting || g.busy != {} }
}
