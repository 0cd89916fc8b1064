# deej, the protocols behind the sliders

deej moves application volumes from hardware sliders. Its hard parts are a handful of small concurrent
protocols and a settings canonicalizer. This project models them in Dafny and proves what they promise.

Two kinds of model are used, and they meet in the same specification functions.

* Code that mutates state under a lock, on a goroutine of its own, or in a loop is a class or a method
  (`Reconnect.Reconnector`, `Throttle.Memory`, `EventLoop.Loop`, `Authorization.Authorizer`,
  `Routing.Table`, `Frames.Reader`, `Mixer.Sessions`, `Normalize.Settings`, `ConfigStore.Store`,
  `Sliders.Client`, and the methods of `Mapping`). Each method is proved against functions on values.
* Protocols are step systems. A step is one lock-protected section, one channel operation, or one event
  of the environment (a dial that finishes, a peer's reply, a timer, a settings change). `Run(steps)`
  is the state after a sequence of steps, if each was possible; a `select` is several steps possible at
  once, a one-slot channel is an option. The results hold for every run, that is for every interleaving.

| module | what it models |
|---|---|
| `Reconnect` | the shared fields of the reconnector and its error channels |
| `Lifecycle` | Start, Stop, Reconnect, the manager loop, dials, watches and callbacks, interleaved |
| `Signals` | one subscriber's view of the store: who has published and not yet notified, and the one-slot signal |
| `Reload`, `Settling` | a client around the manager: the store's coalesced signal, the reload worker, the OnUp re-check, the serial state events; and how it comes to rest |
| `Throttle`, `VolumeSync` | the Discord volume throttle alone, and against a peer, a flush goroutine and connection changes |
| `Roster`, `EventLoop` | the sorted roster, events folded into it, reconciliation, and the replay of volumes |
| `Replay` | a replay racing the slider moves that are on their way to the throttle |
| `Authorization`, `Linking` | token commits between link, refresh, unlink, load and settings changes; and the reload worker that forgets tokens of other clients |
| `Frames`, `Routing` | the frame codec over a chunked stream, and replies handed to waiting calls |
| `Mixer`, `MixerRuns`, `Targets` | the session index, the cached list of unmapped sessions, and target keys |
| `Mapping`, `Hex`, `Normalize`, `CanonicalSettings`, `Acceptance`, `ConfigStore` | the canonical form of settings, which settings are accepted and what becomes of the others, their file, and saving |
| `Sliders` | the line parser, the noise filter, the events, and the sketch that prints the lines |
| `Prelude`, `Text`, `Positional`, `Decimal` | options, filtering, ASCII text, positional and decimal numbers; each text function with an exact description |

## Where the code does less than one would like

* **The throttle does not always refine direct sending.** There are two ways in which `lastSent` keeps an
  older value of a key than the peer has, so that a slider value equal to the older one is dropped as a
  duplicate.
  * Every request is acknowledged, and a connection goes away: its flush records nothing, and `lastSent`
    keeps the older values until OnUp of the next connection invalidates them
    (internal/integrations/discord/client.go:313-329). A value that arrives in that window, after the next
    connection is adopted, can be dropped. `VolumeSync.ADroppedConnectionCanMaskAValue` is such a run for
    any two different values. This window the source repairs itself: OnUp's invalidation forgets the older
    values, and the reconcile pass that OnUp requests replays the mapped slider values
    (internal/integrations/discord/roster.go:205-212). `EventLoop.RestoredValuesHold` and
    `EventLoop.ReplayedValuesArrive` say when such a replay reaches the peer.
  * A request is applied by the peer and its reply is not heard, because it timed out
    (internal/integrations/discord/volume.go:102-109): the older value stays in `lastSent`, on a connection
    that never goes away. A slider that then moves back to it is not followed, and the periodic reconcile
    pass does not help, since it replays without invalidating unless somebody joined or the channel changed:
    the replayed value is one more duplicate. `VolumeSync.AnUnheardRequestCanMaskAValue` is such a run.

  `VolumeSync.BatchesArriveExactlyWhenTracked` is the exact condition, in terms of the run alone: from a
  quiet state that agrees with direct sending, every next batch, flushed in any order, reaches the peer if
  and only if no key of `lastSent` is unnoted. A key is unnoted when the last request for it that the peer
  applied was either not heard, with no invalidation since, or belongs to a flush that ended without
  recording, with no invalidation since that end. `QuietPeerHoldsTheNewestUnlessMasked` is the exact
  statement over all runs with failing requests, and `ThrottleRefinesDirectSending` the refinement on runs
  whose requests are all acknowledged and whose flushes record (or are overtaken by an invalidation).
* **A replay can put an older slider value over a newer one.** It reads the sliders before it takes the
  throttle's lock (internal/integrations/discord/volume.go:64-65); a move made and delivered in between is
  overwritten in `pending`, and stays so until the slider moves again or the next replay.
  `Replay.AReplayCanGoBack` is such a run, `Replay.ReplayIsNewestExactly` the exact condition.
* **An unlink is undone by a later load when the token file could not be removed.**
  `Authorization.AnUnlinkCanBeUndone` is such a run,
  `Authorization.UnlinkOutlivesALoadUnlessRemovalFailed` the exact condition, over all runs that follow.
* **A token can be committed under credentials that are no longer live**: `storeToken` compares them and then
  writes, and settings may change between the two. `Authorization.ALinkCanCommitUnderOldCredentials` is
  such a run, `Authorization.CommittedCredentialsAreLiveExactly` the exact condition.
* **A token in memory can belong to another client than the live one, with nothing left that would notice.**
  The reload worker clears the token when the credentials differ from those it saw last. It misses a change
  between loading the token and its first look at the credentials
  (internal/integrations/discord/client.go:171-172 and 340-342; `Linking.AChangeDuringStartKeepsTheToken`), and
  a link made during a change that is taken back before the worker wakes (`Linking.ADetourKeepsTheToken`).
  `Linking.QuietTokenIsTheLiveClientsExactly` is the exact condition.
* **Marshalling a mapping and reading it back is not the identity on every mapping**: an entry
  without targets, or with the empty string as its one target, does not come back.
  `Mapping.NodesRoundTripExactly` is the exact condition; canonical mappings meet it.
* **A frame over the size cap is written but not read back.** `Frames.RoundTripsExactlyWithinTheCap`.

## Model

| member | source | states |
|---|---|---|
| Lifecycle.RunKeepsInv | internal/reconnect/reconnect.go:109-324 | over every interleaving of Start, Stop, Reconnect and dial completions, the whole history of callbacks obeys the package's contract (`Legal`), which is stated without the manager |
| Lifecycle.StepKeepsInv | internal/reconnect/reconnect.go:109-324 | each single step of manager, dials, watches and callers keeps the invariant that ties connections, channels and history together |
| Lifecycle.DialsAreConserved | internal/reconnect/reconnect.go:191-211 | every successful dial, late ones included, is in flight, held by the manager, current or closed, and in exactly one of them |
| Lifecycle.ClosedAtMostOnce | internal/reconnect/reconnect.go:191-252 | no connection is closed twice in any run |
| Lifecycle.StopLeavesNothing | internal/reconnect/reconnect.go:125-135 | in every stopped state, from Stop's return until the next Start and whatever late dials resolve meanwhile: nothing is current, no manager or watch runs, every dialed connection that is not still in flight is closed, and all are once no dial is in flight |
| Lifecycle.LateDialIsClosed | internal/reconnect/reconnect.go:242-252 | from every stopped state with a pending dial, the run goes on with that dial succeeding and its connection being closed, still stopped and with one dial less in flight |
| Lifecycle.StopNeverWaitsForADial | internal/reconnect/reconnect.go:123-135 | from every reachable state in which Stop waits there is a continuation in which it returns and no dial finishes |
| Lifecycle.StopAdvances | internal/reconnect/reconnect.go:232-324 | a stopping manager, or a watch after it, always has a step that is no dial completion and brings Stop's return strictly closer |
| Lifecycle.ConsumedErrorsAreTheirGenerations | internal/reconnect/reconnect.go:139-153 | an error that ends a connection was sent by that connection's watch, or by a Reconnect call that read the channel while that connection was current |
| Lifecycle.ConsumedAtMostOnce | internal/reconnect/reconnect.go:302-322 | one generation's teardown is triggered by at most one error |
| Lifecycle.TakenIsTheFirstReport | internal/reconnect/reconnect.go:148-152 | the error that ends a connection, and that OnDown is told, is the first one that a watch or a Reconnect call sent to that generation in the whole run; later ones are dropped |
| Lifecycle.CallbacksAreOrdered | internal/reconnect/reconnect.go:277-322 | OnUp follows adoption, OnDown follows OnUp and the consumed error, Close of an adopted connection follows OnUp and the clearing of current |
| Lifecycle.DownAtMostOnce | internal/reconnect/reconnect.go:307-322 | a connection has at most one OnDown |
| Reconnect.Reconnector.Publish | internal/reconnect/reconnect.go:262-272 | adoption makes the connection current together with a fresh, empty error channel, and touches no older channel |
| Reconnect.Reconnector.Clear | internal/reconnect/reconnect.go:191-211 | drop clears connection and channel together and hands back the connection to close, none if there was none |
| Reconnect.Reconnector.CurrentConn | internal/reconnect/reconnect.go:156-161 | Current returns the published connection, if any |
| Reconnect.Reconnector.ReadErrChannel | internal/reconnect/reconnect.go:140-146 | a caller gets the channel of the generation that is current at that moment, or none |
| Reconnect.Reconnector.TrySend | internal/reconnect/reconnect.go:148-153 | a send fills an empty channel, is dropped by a full one, and changes no other generation |
| Reconnect.Reconnector.Receive | internal/reconnect/reconnect.go:307-307 | the manager takes the buffered error and empties that channel alone |
| Reconnect.Reconnector.Reconnect | internal/reconnect/reconnect.go:139-153 | a request reports to the current generation or, without one, changes nothing |
| Reload.ClientRunsAreManagerRuns | internal/serial/client.go:307-339 | every run of a client with store and worker contains a run of the manager, so all results on the manager hold inside each client |
| Reload.StaleConnectionsAreSeenTo | internal/serial/client.go:181-339 | in every reachable state, a current connection dialed with other than the live settings is being ended, under the OnUp check, about to be signalled, or being handled by the worker |
| Reload.QuietMeansUpToDate | internal/integrations/obs/client.go:149-226 | with no signal, publisher, check, worker or buffered error on its way, the current connection's dial snapshot is the live settings; for a worker that reads the settings first (serial, Discord) and one that reads the connection first (OBS) |
| Settling.EveryClientCanSettle | internal/reconnect/reconnect.go:218-324 | from every reachable state of a client that is not stopping there is a continuation, without any more publishing, that ends at rest with a connection dialed with the settings live at its start |
| Settling.QuietClientsAreLeftAlone | internal/serial/client.go:323-336 | from any reachable state at rest, whatever saves that do not change this client's settings are published and signalled, and however the worker handles them, connection, channels and events stay exactly as they are; for both orders of reading |
| Settling.RequestsHaveACause | internal/integrations/obs/client.go:201-226 | in every run, a worker about to ask for a reconnect has seen, since it woke up, live settings other than those the connection was dialed with |
| Settling.Advances | internal/serial/client.go:181-339 | a client that is not at rest and not stopping has a possible step that brings publishers, worker or manager strictly closer to rest, in that order of precedence |
| Settling.RunKeepsReady | internal/reconnect/reconnect.go:139-153 | in every run the worker and OnUp are inside Reconnect exactly when they hold a channel to send to |
| Reload.StateEventsAlternate | internal/serial/client.go:181-223 | the state events of any run are true, false, true, ..., and balanced whenever the manager is stopped |
| Reload.OnlyAdoptedConnectionsSpeak | internal/serial/client.go:211-223 | any step sends at most one event: true only from a passed OnUp check, false only from closing a connection whose flag that check set; late dials and rejected connections send none |
| Throttle.Memory.SetVolume | internal/integrations/discord/volume.go:77-86 | a value is recorded as pending, and dropped while disconnected |
| Throttle.Memory.ReplayMappedSliderValues | internal/integrations/discord/volume.go:60-72 | every value of a Discord-local target goes into pending under its key, later values of one key replacing earlier ones, nothing else changes |
| Throttle.KeyedIsLast | internal/integrations/discord/volume.go:67-71 | of several replayed values for one key the last one is left |
| Throttle.Memory.InvalidateVolumes | internal/integrations/discord/volume.go:118-123 | nothing is believed to be sent any more and the generation advances by one |
| Throttle.Memory.TakePending | internal/integrations/discord/volume.go:133-144 | pending is emptied, and exactly the values Discord is not believed to have are returned, with the generation of that section |
| Throttle.Memory.FinishFlush | internal/integrations/discord/volume.go:111-115 | what was sent is recorded only if the connection and the generation are still the flush's own |
| Throttle.SendAll | internal/integrations/discord/volume.go:101-109 | one request per key goes out, for exactly the taken keys, and exactly the acknowledged ones are reported as sent |
| VolumeSync.RunKeepsInv | internal/integrations/discord/volume.go:60-144 | over every interleaving of setters, replays, invalidations, connection changes and flushes: pending holds newest values, lastSent was acknowledged in this very generation, and what peer and throttle disagree about is accounted for |
| VolumeSync.OldFlushesNeverSuppress | internal/integrations/discord/volume.go:90-144 | after any invalidation, a pending value is dropped as a duplicate only if that value of that key was acknowledged in a flush that took it after the invalidation; a flush in progress at the invalidation does not count |
| VolumeSync.QuietPeerHoldsTheNewestUnlessMasked | internal/integrations/discord/volume.go:90-116 | when nothing is pending or in flight, a key whose newest value was in no failed request was acknowledged with it after it was accepted, and the peer holds it exactly when it was not dropped as a duplicate of an untracked key |
| VolumeSync.ThrottleRefinesDirectSending | internal/integrations/discord/volume.go:77-144 | if every request was acknowledged and every flush recorded or was overtaken by an invalidation, the quiet peer holds what sending every accepted value at once would have left |
| VolumeSync.BatchRuns | internal/integrations/discord/volume.go:77-116 | from any quiet state with a connection, accepting any values and flushing them in any order of the keys, with every request acknowledged, is a run; it ends quiet, and the peer has received exactly the values that were not dropped as duplicates |
| VolumeSync.UntrackedExactly | internal/integrations/discord/volume.go:90-123 | between flushes of any run, a key is untracked if and only if the last request for it that the peer applied was unheard and nothing was invalidated since, or belongs to a flush that ended without recording and nothing was invalidated since that end; stated over the steps alone |
| VolumeSync.BatchesArriveExactlyWhenTracked | internal/integrations/discord/volume.go:77-144 | from a quiet state of any run that agrees with direct sending, every such next run, for any values and any order, ends in agreement with direct sending if and only if the run so far leaves no key of lastSent unnoted in that sense |
| VolumeSync.AnUnheardRequestLeavesAKeyUnnoted | internal/integrations/discord/volume.go:101-115 | a run on one connection, for any two different values, that is quiet and agrees with direct sending, and after which not every next batch arrives: a request was applied and its reply not heard |
| VolumeSync.AnUnheardRequestCanMaskAValue | internal/integrations/discord/volume.go:101-144 | its continuation: the slider moves back to the first value, all is quiet, and the peer keeps the second |
| VolumeSync.ADroppedConnectionCanMaskAValue | internal/integrations/discord/volume.go:111-115 | a run, for any two different values, in which every request is acknowledged, all is quiet, and the peer does not hold the newest value |
| VolumeSync.UntrackingRunRuns | internal/integrations/discord/volume.go:90-116 | its first part: a flush acknowledged across a connection change leaves lastSent with the older value |
| Roster.SortedListsAreUnique | internal/integrations/discord/roster.go:287-298 | two strictly sorted lists with the same members are equal, so the roster's order leaves no freedom |
| Roster.SortedSorts | internal/integrations/discord/roster.go:287-298 | sorting members with distinct IDs gives a strictly sorted list by lowercased name, then ID, of the same members |
| Roster.ListedByName | internal/integrations/discord/roster.go:287-298 | of two members in the list, the earlier has the smaller name once capitals are made small, at the first place where they differ or by ending first; or the names are equal up to capitals and its ID is the smaller; said with indices, without the comparison function |
| Roster.RebuildRepresents | internal/integrations/discord/roster.go:232-261 | a channel read in any order yields the strictly sorted list of exactly the channel's members |
| Roster.RebuildShowsEverybody | internal/integrations/discord/roster.go:56-62 | a channel read lists exactly the members it was given, each under the nickname, else the display name, else the user name |
| Roster.FoldRepresents | internal/integrations/discord/roster.go:118-156 | one CREATE, UPDATE or DELETE event takes the list of a channel to the list of the channel after the event |
| Roster.IncrementalEqualsRebuild | internal/integrations/discord/roster.go:118-261 | after any events folded into any channel read, the list is exactly the one a fresh read would give, strictly sorted with distinct IDs |
| Roster.LastEventIsShown | internal/integrations/discord/roster.go:118-156 | after any events a member is listed as its last event says, under nickname, display name or user name in that order, and not at all if that event was a DELETE |
| Roster.EventsCommute | internal/integrations/discord/roster.go:118-156 | events about different members commute |
| EventLoop.RosterNeedsReplay | internal/integrations/discord/roster.go:219-229 | true exactly when there was no roster, the channel differs, or there is a member ID that was not there |
| EventLoop.FoldArrives | internal/integrations/discord/roster.go:131-133 | the event handler's own test for a join agrees with that: an event brings a new member exactly when it is no DELETE and its ID is non-empty and new |
| EventLoop.Loop.ApplyVoiceStateEvent | internal/integrations/discord/roster.go:118-162 | the stored roster becomes the folded one, consumers are notified exactly if it changed, and volumes are invalidated once and replayed exactly when somebody arrived |
| EventLoop.FoldChanges | internal/integrations/discord/roster.go:135-156 | the handler stores and notifies exactly when the event changes the list: a known member is deleted, a new one appears, or a known one looks different |
| EventLoop.Loop.ReconcileRoster | internal/integrations/discord/roster.go:167-217 | with a reply on the still current connection the roster is replaced, volumes invalidated exactly on an arrival and replayed, and consumers notified exactly if there was no roster or its name or members differ; otherwise nothing is restored or signalled; a lost connection clears the roster and signals if there was one |
| EventLoop.GenerationsCountArrivals | internal/integrations/discord/roster.go:205-229 | storing a channel bumps the generation by exactly one if there was none, it is another one, or some member ID in it is new; and not at all otherwise |
| EventLoop.ArrivalsRestoreEverything | internal/integrations/discord/roster.go:205-212 | storing an arrival bumps the generation exactly once, forgets everything sent, and leaves every mapped key pending with one of the values asked for |
| EventLoop.ReplayedValuesArrive | internal/integrations/discord/volume.go:60-123 | a value replayed after an invalidation and not overwritten since has, by the time all is quiet, been acknowledged by a flush younger than that invalidation, unless its own request failed; and the peer holds it exactly when it was not dropped as a duplicate of an untracked key |
| EventLoop.RestoredValuesHold | internal/integrations/discord/volume.go:60-144 | if no flush takes values between the invalidation and the replay, the quiet peer holds the replayed value, whatever flush was under way and whatever connections come and go, unless its own request failed |
| Replay.ReplayIsNewestExactly | internal/integrations/discord/volume.go:60-72 | after a replay, once no move of a key is on its way, the newest accepted value is where the slider stands if and only if a move was delivered after the replay wrote, or the slider stands where it stood when the replay read it |
| Replay.QuietPeerFollowsTheSlider | internal/app/app.go:163-180 | from slider to peer: under that same condition, and only then, the quiet peer holds the slider's value of a key that was neither lost nor masked |
| Replay.AReplayCanGoBack | internal/integrations/discord/volume.go:60-72 | a run, for any two values, in which a replay puts back the older one after the newer was delivered |
| Replay.RunKeepsOrdered | internal/serial/protocol.go:64-126 | in every run the last move of a key that is on its way is where its slider stands |
| Replay.ThrottledRuns | internal/integrations/discord/volume.go:60-144 | every run of sliders, moves and replays contains a run of the throttle, so its results hold here |
| Authorization.Authorizer.ClearToken | internal/integrations/discord/auth.go:86-95 | the token is forgotten and the generation advanced even if the file cannot be removed |
| Authorization.Authorizer.LoadToken | internal/integrations/discord/auth.go:118-140 | only a readable, well formed token of the configured client is taken into memory |
| Authorization.Authorizer.StoreToken | internal/integrations/discord/auth.go:145-165 | file and memory change together or not at all, and only if the generation and the credentials match |
| Authorization.CommitsAreCompareAndSwap | internal/integrations/discord/auth.go:145-165 | in every run a commit directly follows its own snapshot in the order of commits, clears and loads; so no link or refresh from before an unlink commits after it |
| Authorization.CommitsReplaceWhatTheySaw | internal/integrations/discord/auth.go:145-199 | the token, file and generation that a commit replaces are the very ones at the moment its link or refresh took its snapshot |
| Authorization.CommittedCredentialsAreLiveExactly | internal/integrations/discord/auth.go:148-162 | a commit is made under credentials that are live at its write if and only if the last settings change between its test and its write, if any, leaves them so |
| Authorization.ALinkCanCommitUnderOldCredentials | internal/integrations/discord/auth.go:148-162 | a run in which a link commits although the credentials changed after its test |
| Authorization.AnUnlinkCanBeUndone | internal/integrations/discord/auth.go:86-140 | a run in which the file cannot be removed and the next load brings the unlinked token back |
| Authorization.RefreshesCommitAtMostOnce | internal/integrations/discord/auth.go:167-199 | two refreshes of one token never both commit |
| Authorization.StoreTestIsExact | internal/integrations/discord/auth.go:145-150 | a commit is let through if and only if no commit, clear or load happened since the snapshot and the credentials are the live ones |
| Authorization.TokenInMemoryIsOnDisk | internal/integrations/discord/auth.go:86-165 | a token in memory is always the content of the file |
| Authorization.CommitsSurviveARestart | internal/integrations/discord/auth.go:118-165 | after any run that ends in a commit of a token with an access token, a client that starts from that file, configured for the token's client, has exactly that token in memory |
| Authorization.StartLoadsExactly | internal/integrations/discord/auth.go:118-140 | a start has a token in memory if and only if the file can be read and holds one with an access token that belongs to the configured client; it is that one |
| Authorization.LoadedTokensAreUsable | internal/integrations/discord/auth.go:127-138 | in every run a token that a load puts into memory is the file's, has an access token and belongs to the live client |
| Authorization.UnlinkOutlivesALoadUnlessRemovalFailed | internal/integrations/discord/auth.go:86-199 | over every run after an unlink without a new link or unlink, a token is back if and only if the file could not be removed and some load since found it to hold a token of the client configured at that load; whatever older links and refreshes, new refreshes and settings changes do |
| Linking.QuietTokenIsTheLiveClientsExactly | internal/integrations/discord/client.go:340-375 | when nothing is on its way to the reload worker, a token in memory belongs to the live client if and only if it belongs to the client the worker had seen last when the token came, or at the end of Start for a token that came before |
| Linking.RunKeepsUpToDate | internal/integrations/discord/client.go:340-375 | in every run, when nothing is on its way to the worker, the credentials it saw last are the live ones |
| Linking.LinkingRunsAreAuthorizationRuns | internal/integrations/discord/client.go:340-375 | every run of client, worker, links and unlinks contains a run of the token commits, so their results hold here |
| Linking.AChangeDuringStartKeepsTheToken | internal/integrations/discord/client.go:161-182 | a run in which a change between loading the token and the worker's first look leaves the old client's token, all quiet |
| Linking.ADetourKeepsTheToken | internal/integrations/discord/client.go:340-375 | a run in which a change there and back, with a link in between, leaves the other client's token, all quiet |
| Frames.RoundTripsExactlyWithinTheCap | internal/integrations/discord/rpc.go:222-257 | a written frame reads back, leaving what follows it untouched, if and only if its body is within the cap |
| Frames.EncodeExactly | internal/integrations/discord/rpc.go:226-236 | a written frame is, byte for byte, opcode and length as little-endian 32-bit numbers and then the body |
| Frames.DecodeExactly | internal/integrations/discord/rpc.go:238-257 | reading is decided by the two little-endian header numbers: too large exactly over the cap, an error exactly if the stream ends before what they announce, else that opcode, that many bytes, and the rest |
| Frames.CutFramesAreTruncated | internal/integrations/discord/rpc.go:238-257 | a frame cut anywhere is an error, never a shorter frame |
| Frames.StreamsRoundTrip | internal/integrations/discord/rpc.go:226-257 | any list of frames within the cap decodes to that very list |
| Frames.CutStreamsYieldWholeFrames | internal/integrations/discord/rpc.go:238-257 | a stream cut anywhere yields exactly the frames that are complete in it, then an error |
| Frames.Reader.ReadFull | internal/integrations/discord/rpc.go:238-257 | however the stream is chunked, n bytes are read in order if it has them, and it is an error otherwise |
| Frames.Reader.ReadFrame | internal/integrations/discord/rpc.go:238-257 | reading from chunks decodes the concatenation and leaves its rest, whatever the chunks |
| Frames.Reader.ReadAll | internal/integrations/discord/rpc.go:160-176 | reading frames until an error gives what decoding the whole stream gives, for every chunking |
| Routing.Table.Register | internal/integrations/discord/rpc.go:98-102 | a call gets a fresh empty channel under its nonce, and every other entry and channel stays |
| Routing.Table.Deregister | internal/integrations/discord/rpc.go:104-108 | the entry goes, every channel stays as it is |
| Routing.Table.Take | internal/integrations/discord/rpc.go:209-212 | the read loop gets the channel of a registered nonce, or nothing, and the entry is gone |
| Routing.Table.Hand | internal/integrations/discord/rpc.go:214-216 | the reply is in the channel of its nonce, every other channel stays |
| Routing.Table.Receive | internal/integrations/discord/rpc.go:114-116 | the caller takes the reply out of its own channel, every other channel stays |
| Routing.Table.Fail | internal/integrations/discord/rpc.go:150-157 | only the first error of a connection is kept |
| Routing.HandingNeverBlocks | internal/integrations/discord/rpc.go:160-218 | in every run the read loop can hand over the reply it holds, and no channel is given a second reply |
| Routing.RepliesBearTheirNonce | internal/integrations/discord/rpc.go:86-124 | a call that returns a reply returns the one with its own nonce |
| Routing.WaitingCallsAreServed | internal/integrations/discord/rpc.go:86-157 | a waiting call without an entry has its reply or is about to get it, and once the connection failed every waiting call can return |
| Routing.IdleTablesAreEmpty | internal/integrations/discord/rpc.go:86-100 | without outstanding calls the pending table is empty |
| Mixer.SessionMapped | internal/mixer/targets.go:13-48 | a session counts as mapped if it is a special one or a device, or if some non-special target of the mapping is its key in lower case |
| Mixer.MappedExactly | internal/mixer/targets.go:13-48 | a session counts as mapped if and only if it is master, system or mic, or a device, or some target is its key in any case and does not start with the transform prefix in any case |
| Mixer.AddedIndexes | internal/mixer/mixer.go:298-307 | adding a new session keeps the index exactly the live sessions grouped by key |
| Mixer.RemovedIndexes | internal/mixer/mixer.go:260-279 | so does removing one, and no empty group stays |
| Mixer.Sessions.HandleSessionAdded | internal/mixer/mixer.go:210-228 | the session enters the index, and the cached list if it is not mapped |
| Mixer.Sessions.HandleSessionRemoved | internal/mixer/mixer.go:230-256 | the session leaves the index and the cached list |
| Mixer.Sessions.RefreshUnmappedSessions | internal/mixer/mixer.go:182-197 | the list is rebuilt to hold exactly the live sessions that were not mapped when looked at, each once, even if the mapping changes meanwhile |
| Mixer.Sessions.SetSessionVolumes | internal/mixer/targets.go:82-101 | exactly the sessions under the target that have another volume are called, each once, in the order of the group |
| Mixer.Sessions.SessionCount | internal/mixer/mixer.go:309-319 | the number of live sessions |
| MixerRuns.VolumeCallsReachLiveSessions | internal/mixer/targets.go:82-101 | in every interleaving of slider moves, session events, settings changes and refreshes, the next volume call goes to a live session |
| MixerRuns.RemovedSessionsGetNoCalls | internal/mixer/mixer.go:230-256 | once the removed-handler of a session is done, no volume call of the rest of the run reaches it |
| MixerRuns.IndexIsLiveSessions | internal/mixer/mixer.go:210-307 | in every run the index is exactly the live sessions grouped by key, without empty groups or duplicates |
| MixerRuns.UnmappedListIsCoherent | internal/mixer/mixer.go:165-256 | unless a settings change is unsignalled, pending or being handled, the cached list is exactly the live sessions not mapped by the active profile, each once; despite refreshes that straddle two mappings |
| Targets.MixerKeysAreThrottleKeys | internal/mixer/targets.go:196-211 | the throttle recognizes every Discord key the mixer makes, unchanged, so moves and replays of a target meet in one entry |
| Targets.KeysExactly | internal/mixer/targets.go:196-211 | which targets, in any case, are the input, the output and a user's key; and that no other is one |
| Targets.LocalKeysExactly | internal/integrations/discord/volume.go:17-28 | the same for the throttle's own names |
| Mapping.Normalized | internal/config/mapping.go:150-178 | the loops over a mapping compute its canonical form and its problems |
| Mapping.CanonicalKeepsLookups | internal/config/mapping.go:108-178 | looking a slider up in the canonical mapping gives the original first match without empty targets, or nothing if none remain |
| Mapping.NonEmptyExactly | internal/config/mapping.go:167-170 | only the empty targets are dropped, the others keep their order |
| Mapping.CanonicalIsCanonical | internal/config/mapping.go:150-178 | the result is strictly increasing by non-negative slider, with non-empty lists of non-empty targets |
| Mapping.CanonicalIsStable | internal/config/mapping.go:150-178 | canonical mappings pass unchanged and without problems |
| Mapping.ProblemsExactly | internal/config/mapping.go:156-165 | a negative index is reported if and only if an entry has it, a duplicate if and only if two entries have it |
| Mapping.NoProblemsExactly | internal/config/mapping.go:150-165 | nothing is reported if and only if the indexes are distinct and none is negative |
| Mapping.UnmarshalYAML | internal/config/mapping.go:44-76 | the loop over a node's pairs reads the entries that the node stands for |
| Mapping.EntriesExactly | internal/config/mapping.go:44-76 | a mapping node gives one entry for each pair whose key is a number, in order, and nothing for the others |
| Mapping.SequenceTargetsExactly | internal/config/mapping.go:62-67 | the targets of any sequence node are the values of its scalar items that are not null, in order |
| Mapping.SingleTargetExactly | internal/config/mapping.go:58-61 | a scalar is one target unless it is null or empty, a nested mapping is none |
| Decimal.AtoiExactly | internal/config/mapping.go:51-54 | a key is a number if and only if it is at most one sign and decimal digits, within 64 bits; the first digit counts most |
| Mapping.MarshalYAML | internal/config/mapping.go:82-104 | the loop over the entries writes the node that stands for them |
| Mapping.NodesExactly | internal/config/mapping.go:82-104 | every entry with targets is written, in order: its index as an integer, its one target as a plain string or its several as a sequence of strings |
| Mapping.NodesRoundTripExactly | internal/config/mapping.go:44-104 | reading a written mapping gives it back if and only if every entry is writable; canonical mappings do |
| Hex.FormatRoundTrip | internal/config/model.go:86-112 | the four-digit form of any 16-bit value reads back as that value |
| Hex.ValueExactly | internal/config/model.go:86-95 | a word is read if and only if it is, between blanks, an optional 0x in either case and hex digits in either case that stay within 16 bits; as the number whose first digit counts most |
| Hex.FormatExactly | internal/config/model.go:101-112 | a word is written as the one text of four hex digits with capital letters that stands for it |
| Hex.CanonicalWordIsStable | internal/config/model.go:101-112 | canonical gives a canonical word for any text and default, and leaves canonical words alone |
| Normalize.Settings.Normalize | internal/config/normalize.go:31-84 | normalizing in place gives the canonical settings and the list of problems |
| Normalize.Settings.NormalizeCOM | internal/config/normalize.go:31-60 | the serial section and its problems |
| Normalize.Settings.NormalizeDiscord | internal/config/normalize.go:89-121 | the Discord section and its problems |
| Normalize.Settings.NormalizeProfiles | internal/config/normalize.go:130-198 | the profile loop with its two seen-maps, the fallback profile and the active name, against the functional definition |
| CanonicalSettings.CanonicalIsCanonical | internal/config/normalize.go:31-198 | any settings become canonical: at least one profile, non-empty names distinct whatever their case, distinct valid hotkeys, an active name that resolves, canonical VID and PID, canonical mappings, values in range |
| CanonicalSettings.CanonicalIsStable | internal/config/normalize.go:31-198 | canonical settings pass unchanged and nothing is reported |
| CanonicalSettings.NormalizeIsIdempotent | internal/config/normalize.go:31-84 | a second normalization changes and reports nothing |
| Acceptance.ProblemsExactly | internal/config/normalize.go:31-198 | nothing is reported if and only if the raw settings are acceptable, a condition on their values alone: port, baud rate, hex words, levels, languages, port range, Discord credentials, named and distinct profiles, valid and distinct hotkeys, mappings, and an active name that is blank or resolves |
| Acceptance.CanonicalExactly | internal/config/normalize.go:31-198 | what any settings become, field by field: which values are replaced and by what, which profile of a name stays and in what order, which hotkeys are dropped, which profile becomes active |
| Acceptance.FirstsExactly | internal/config/normalize.go:137-149 | the profiles that stay are, in order, exactly those whose name no earlier one has in any case |
| Acceptance.ReportsExactly | internal/config/normalize.go:31-121 | each problem of the serial, choice, OBS and Discord sections is reported if and only if it is the case |
| Acceptance.HotkeysExactly | internal/config/normalize.go:210-223 | a hotkey is valid if and only if it is modifiers in any case and a key, joined by plus signs, at least one modifier |
| Acceptance.AcceptedSettingsAreKept | internal/config/store.go:200-218 | an accepted save keeps every profile in its place with name, hotkey and lookups, and every scalar, but for blanks around texts, empty targets, the form of hex words, and blanks that stand for defaults |
| CanonicalSettings.FindsProfiles | internal/config/normalize.go:11-19 | findProfileName finds a name exactly when some profile has it in some case, and returns a profile's own spelling |
| CanonicalSettings.ActiveProfileResolves | internal/config/mapping.go:15-29 | in canonical settings the active profile exists, and its mapping is the one in force |
| ConfigStore.Store.SubscribeToChanges | internal/config/store.go:151-159 | a new subscriber with an empty signal |
| ConfigStore.Store.OnConfigReloaded | internal/config/watch.go:112-126 | every subscriber has a signal waiting afterwards, at most one each, and nobody blocks; each slot changes as `Signals.NotifiedBy` says |
| ConfigStore.Store.LoadLocked | internal/config/store.go:82-147 | a load publishes the canonical form of the file's settings; a first load creates a missing file; on any failure the live settings stay |
| ConfigStore.DefaultsExactly | internal/config/defaults.go:7-34 | the settings a new installation starts with, value by value |
| ConfigStore.Store.SaveAndReload | internal/config/store.go:220-231 | what was written is what becomes live, unless writing or reading back fails |
| ConfigStore.Store.SaveUserSettings | internal/config/store.go:200-218 | a save is rejected, changing nothing, if and only if the raw settings are not acceptable; otherwise file and live settings become the canonical ones, as `Becomes` says field by field, and all subscribers are signalled |
| ConfigStore.Store.SetActiveProfile | internal/config/store.go:170-195 | a known other name is switched to, in the profile's own spelling, exactly when the file can be written and read back, and nothing else of the settings changes; an unknown name is refused; the file holds the switched settings once written and is untouched otherwise; no signal without a change |
| ConfigStore.Store.HandleConfigFileChange | internal/config/watch.go:76-105 | subscribers are signalled exactly when the live settings changed |
| ConfigStore.SaveWhatWasLoaded | internal/config/store.go:200-207 | settings that a load published are never rejected by a save, and saving them leaves them as they are |
| Sliders.LevelsAreNested | internal/serial/noise.go:10-28 | a change significant at one level is so at every finer one, "none" means any change, and near the ends "high" and "low" agree |
| Sliders.SignificanceExactly | internal/serial/noise.go:10-28 | the distance at which a reading counts, in numbers, for every level and at both ends |
| Sliders.PercentIsNearest | internal/serial/noise.go:6-8 | the reported percentage is the one nearest to the reading, and no reading ties |
| Sliders.Client.ReadLine | internal/serial/protocol.go:40-62 | a line is accepted exactly if it matches the grammar and no value exceeds 1023 |
| Sliders.ParseExactly | internal/serial/protocol.go:44-62 | a line of one to four digits, bars between, and CR LF is accepted if and only if no value exceeds 1023, and read as those values |
| Sliders.AcceptedLinesHaveTheForm | internal/serial/protocol.go:12-46 | every accepted line is of that form |
| Sliders.Client.ApplyReadings | internal/serial/protocol.go:64-126 | the loops over an accepted line store and report as the filter function says, resetting on a changed slider count |
| Sliders.Client.HandleLine | internal/serial/protocol.go:40-126 | an accepted line is applied, a rejected one changes nothing and reports nothing |
| Sliders.Client.CurrentSliderPercentValues | internal/serial/protocol.go:17-38 | the loop computes every slider's percentage, inverted if asked |
| Sliders.ShownExactly | internal/serial/protocol.go:23-35 | a slider shows the nearest hundredth of its reading; inverted and uninverted add up to the full hundred |
| Sliders.StoredValuesFollowReadings | internal/serial/protocol.go:64-126 | after each accepted line every stored value is within the threshold of its reading, and readings 0 and 1023 give exactly 0 and 100 percent |
| Sliders.EventsExactly | internal/serial/protocol.go:82-110 | the events of a line are one for each significantly different slider, in order, with the reported percentage |
| Sliders.ResetReportsEverySlider | internal/serial/client.go:318-321 | the first line after a count change reports every slider once, in order |
| Sliders.SessionsStayInStep | internal/serial/protocol.go:40-126 | over any lines and reloads under one inversion setting, the events so far determine every slider's present percentage |
| Sliders.EventsReproduceCurrentValues | internal/serial/protocol.go:17-126 | folding the events reproduces CurrentSliderPercentValues |
| Sliders.SendSliderValues | arduino/deej-5-sliders-vanilla/deej-5-sliders-vanilla.ino:27-39 | the sketch's loop prints the readings joined by bars and one line end |
| Sliders.PrintedLinesParse | arduino/deej-5-sliders-vanilla/deej-5-sliders-vanilla.ino:27-39 | any such line is accepted and gives back the very values printed |

## Left out

- Transports and foreign calls: serial ports, PulseAudio, Windows audio, OBS and Discord sockets, the OAuth request, files and the watcher's debounce are steps of the environment or parameters.
- Audio session finders: that a session is added once and removed at most once, after its add, is assumed of them.
- User interface, tray, hotkeys, notifications, icons, translations, logging.
- Shutdown order of the application and the desktop shell (internal/app/app.go:111-137, internal/desktop/desktop.go:88-114).
- YAML and JSON text: settings and replies are values, a mapping is a node tree. Legacy keys, and the defaults that missing or mistyped keys keep, are not modelled.
- Unicode: case and white space are ASCII.
- Floating point: percentages are whole hundredths, readings are integers. The cubic volume curves are not modelled.
- Sorting: the library's sort is the function that inserts one element after the other; an update in place of the slice is not captured.
- Lengths and generations are unbounded naturals; only the length field of a frame wraps at 32 bits.
- Delays and the attempt counter of the reconnector: only the order of steps is modelled, so no bound in time follows.
- Goroutine aliasing in the step systems: their states are values; the classes beside them model what each locked section does to the fields.
- Lifecycle.StopNeverWaitsForADial: shows that Stop can always return, not that a scheduler lets it; a select may keep preferring another ready branch.
- Reload.QuietMeansUpToDate: a reconnect request may also end a connection that is already up to date; that is not excluded, because the code does not exclude it.
- VolumeSync.QuietPeerHoldsTheNewestUnlessMasked: a request that timed out is applied at once or never; a peer that applies it later is not modelled. Nor are volumes per user ID, since the cache is keyed by target.
- Replay.ReplayIsNewestExactly: the client stays connected, so no move is dropped for want of a connection, and one slider is mapped to a key.
- Linking.QuietTokenIsTheLiveClientsExactly: the client is started once; a stop and a second start are not modelled.
- Settling.EveryClientCanSettle: shows that a client can come to rest, given that its dials succeed; not that they do, nor that a scheduler lets it.
- Authorization.TokenInMemoryIsOnDisk: nobody but the client itself writes the token file.
- EventLoop.Loop.ReconcileRoster: which single subscriptions exist at the peer after a failed resubscribe is not modelled.
- Sliders.EventsReproduceCurrentValues: holds under one inversion setting; the source reads the setting before its lock, so a reload in between may report one line with the older setting. Lines are one sequence here: the reconnector does not wait for an old watch before it starts the next, and events are delivered outside the lock, so in the source the deliveries of two connections can overlap and reach a consumer in another order than they were stored.
- Mixer.Sessions.SetSessionVolumes: errors of a session's own volume call are logged by the source and have no effect here.
- Mixer targets that stand for several sessions (the focused window, all unmapped sessions), OBS inputs, and volume transforms are not resolved; a slider move is any sequence of session keys.
- Hexadecimal words as YAML nodes: only their text form.
