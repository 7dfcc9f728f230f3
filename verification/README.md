# Lockdock in Dafny

A model of Lockdock, the macOS daemon that keeps the Dock on one display, with proofs of what its
concurrent and geometric parts are for. `dafny verify dfyconfig.toml` checks everything.

| file | models |
|---|---|
| `Options.dfy`, `Geometry.dfy`, `Displays.dfy` | optional values, rectangles, the display list, which display a Dock rectangle belongs to |
| `DockWindow.dfy` | finding the Dock bar window through a cached window ID |
| `EdgeSweep.dfy` | where on a display's bottom edge the cursor can push the Dock over |
| `DisplayLock.dfy` | which mouse events the event tap suppresses |
| `Environment.dfy` | every answer macOS can give, as arbitrary functions of a query counter |
| `Relocation.dfy` | one relocation: walk the cursor, nudge, probe |
| `Preferences.dfy` | display identities and the stored preference |
| `Controller.dfy` | requests, reconciling and polling as a state machine over the daemon's state |
| `LockTheorems.dfy`, `BoundTheorems.dfy`, `CallTheorems.dfy` | what every relocation loop and every call costs and keeps |
| `RelocationTheorems.dfy` | one relocation event by event |
| `DeliveryTheorems.dfy` | the exact conditions under which a relocation brings the Dock over, times out and is retried |
| `PollTheorems.dfy`, `HealingTheorems.dfy` | the poll loop: changed lists, healing, a Dock at the side |
| `RequestTheorems.dfy`, `RestoreTheorems.dfy`, `RefreshTheorems.dfy` | what requests come to, when start-up and polls restore the preference, what polls refresh - exactly |
| `CooldownTheorems.dfy`, `FlickerExample.dfy` | the pause after a failed reconcile, and one run that defeats it |
| `RecoveryTheorems.dfy`, `ReconnectTheorems.dfy` | unlocking, failed locks, a display that goes away and returns |
| `LockDaemon.dfy` | the daemon as a class, statement by statement, proved equal to the state machine |
| `EventThread.dfy` | the native event thread: mutex, condition variable, joins, interleaved with its client |
| `TapStack.dfy` | `EVENT_TAP`, `HANDLER`, `DISPLAY_CACHE` and the mouse callback on top of it |
| `SocketOwnership.dfy` | any number of daemons that bind, fail, crash and drop on one socket path |
| `Shutdown.dfy` | the handshake of the main thread and the accept thread |

How the parts fit together:

- The environment is adversarial. `World` holds an arbitrary function of a tick for each kind of query;
  every query takes a new tick, so display lists, Dock positions, orientations, failures, cursor positions
  and clock readings may change between any two of them. A theorem about every world is one about every
  environment. Preconditions such as `Stable` or `Back` say which behaviour of the environment a theorem needs.
- `Controller` gives each daemon function as a function on states, with a log of the events of the call in
  progress. `LockDaemon` is the same logic as field updates, loops and early returns; each of its methods is
  proved to end in the state its function gives, and `Run` produces an `IsRun` sequence. The theorems quantify
  over every such sequence.
- `EventThread`, `TapStack`, `SocketOwnership` and `Shutdown` are step systems with explicit program counters
  and lock owners. Their theorems hold in every state of every interleaving. Progress is stated as two facts: some step of
  the threads is enabled, and a natural number falls with every such step.

Where the code and what is written about it differ, the model follows the code:

- README.md:148 asks for at least 2 pixels of edge without overlap. The code ignores contacts of width 2 or
  less and is content with any free stretch; on an edge without one it pushes at coordinate 0, wherever the
  display is. `EdgeSweep.TriggerIsClear` gives the exact condition and
  `EdgeSweep.FullyCoveredEdgeTriggersAtZero` the other case; `EdgeSweep.StackedDisplayCoversEdge` is an
  arrangement of that kind, where the cursor is sent off the display.
- crates/lockdock-daemon/src/daemon.rs:22-23 describes a pause of 5 seconds after a failed reconcile. The
  branch of the poll for an unsupported Dock (daemon.rs:145-149) reconciles without consulting the cooldown and,
  when that fails, without starting it; and reconciling asks for the orientation again. So an orientation that
  flickers defeats the pause in both ways: `FlickerExample.FlickersDefeatCooldown` is such a run.
  `CooldownTheorems.FailureStartsCooldown` says exactly which failing reconciles start the pause,
  `CooldownTheorems.AttemptsWithinCooldownExactly` says exactly when an unchanged-list poll relocates within it,
  and `CooldownTheorems.NoRetryWithinCooldown` is the promise for every poll that first reads a bottom Dock. A
  changed list is acted upon at once in any case (daemon.rs:155-177).
- A save is five accesses. `Preferences.SaveLeavesMixture` says what a save leaves stored for every first failing
  access, `Preferences.SaveIsAtomicExactlyWhen` when that is the old or the new identity, and
  `Preferences.FailedSaveMixesIdentities` is an input for which it is neither, with the lock already set.
  `RecoveryTheorems.SetStateOutcomes` says what each outcome of a lock request leaves.
- crates/lockdock-ipc/docs/ipc_v1.md:29-31 promises that a reconnected display is locked again.
  `ReconnectTheorems.DisconnectAndReconnect` proves, for a bottom Dock, queries that succeed and an identity that
  only one listed display has, that it is locked again if and only if the Dock is there or the one relocation
  loop of the accepting poll gets it there; `ReconnectTheorems.ReconnectedDisplayIsLocked` spells that out as
  what the user's cursor, the overlay and the probes have to do, tick by tick.

## Model

| member | source | states |
|---|---|---|
| Geometry.IntersectionIsMeet | crates/lockdock-geometry/src/lib.rs:19-38 | A point is in the intersection exactly when it is in both rectangles, and the area is positive exactly when there is such a point |
| Geometry.IntersectionArea | crates/lockdock-geometry/src/lib.rs:27-38 | An intersection never has more area than the rectangle, and is the rectangle when that lies inside the other |
| Displays.Layout.Active | crates/lockdock-display/src/displays.rs:16-26 | A prefix of what the window server lists: all of it, or its first 32 displays |
| Displays.Layout.Bounds | crates/lockdock-display/src/displays.rs:28-35 | Bounds exist exactly for nonzero known displays with a nonempty frame, and are that frame |
| Displays.SquaredDistanceIsMinimum | crates/lockdock-display/src/displays.rs:46-49 | `dx * dx + dy * dy` is the minimum squared distance from the point to the closed rectangle: a lower bound for all its points, attained by one |
| Displays.NearestDisplay | crates/lockdock-display/src/displays.rs:37-59 | Answers a first display of minimum distance below 512, and none exactly when no display is that near |
| Displays.DisplayForRect | crates/lockdock-display/src/displays.rs:61-88 | Answers a first display of maximum positive share of the rectangle; without one, the nearest display to its centre; nothing for an empty rectangle |
| Displays.AttributionIsUnique | crates/lockdock-display/src/displays.rs:61-88 | What `DisplayForRect` promises leaves no choice: two answers that meet it are equal |
| Displays.InsideOneDisplay | crates/lockdock-display/src/displays.rs:61-88 | With disjoint displays, a Dock rectangle inside one display is attributed to that display and no other answer is possible |
| DockWindow.LargestIsFirstMaximum | crates/lockdock-display/native/display.c:208-255 | Discovery answers exactly when the list has a Dock bar, with the first window of maximum area among the bars |
| DockWindow.WindowCache.CopyCached | crates/lockdock-display/native/display.c:153-201 | Bounds of the cached window if it is still a Dock bar with the cached ID; otherwise the cached ID is dropped |
| DockWindow.WindowCache.CopyForOption | crates/lockdock-display/native/display.c:208-255 | Bounds of the discovered window, whose ID becomes the cached one; a failed discovery leaves the cache alone |
| DockWindow.WindowCache.CopyDockWindowBounds | crates/lockdock-display/native/display.c:257-271 | Cache, then on-screen windows, then all windows; afterwards the cache holds the ID of the answer, or nothing |
| DockWindow.LookupIsCurrent | crates/lockdock-display/native/display.c:128-271 | For any cached ID and any answers of the window server, returned bounds belong to a window this lookup saw as a valid Dock bar, and none is returned only if discovery saw no bar |
| DockWindow.LookupPrefersVisible | crates/lockdock-display/native/display.c:257-271 | The cached window while it is a bar, else the first largest bar on screen however large others are, else the first largest of all windows, else none |
| DockWindow.CacheRefinesDiscovery | crates/lockdock-display/native/display.c:153-271 | A lookup answers exactly when a bar exists, and with a unique bar it answers what a lookup without cache does |
| DockWindow.CacheIsStickyOrDropped | crates/lockdock-display/native/display.c:153-201 | The cache answers exactly when its ID still names a bar; an ID that does not is dropped and rediscovered |
| DockWindow.RunRefinesDiscovery | crates/lockdock-display/native/display.c:128-271 | Over any sequence of window lists and lookups, each answer is a current bar, is missing exactly when there is none, and is the uncached answer when the bar is unique |
| EdgeSweep.SortIsSortedPermutation | crates/lockdock-daemon/src/relocation.rs:153-160 | Sorting orders the contacts by start, then end, and keeps each as often as it was there |
| EdgeSweep.CollectEdgeOverlaps | crates/lockdock-daemon/src/relocation.rs:115-163 | The loop collects and sorts exactly the contacts wider than 2 of the other displays that come within 1 of the edge |
| EdgeSweep.OverlapMembers | crates/lockdock-daemon/src/relocation.rs:115-163 | A segment is collected exactly when it is the contact of some listed display other than the target |
| EdgeSweep.OverlapsAreClipped | crates/lockdock-daemon/src/relocation.rs:141-160 | Collected segments are sorted, nonempty and within the edge |
| EdgeSweep.OverlapsAreComplete | crates/lockdock-daemon/src/relocation.rs:115-163 | The collected segments cover exactly the coordinates that some other display's contact contains |
| EdgeSweep.FindSafeEdgeSegment | crates/lockdock-daemon/src/relocation.rs:96-113 | The loop returns the gap that `SweepIsExact` describes |
| EdgeSweep.SweepIsExact | crates/lockdock-daemon/src/relocation.rs:96-113 | On sorted clipped overlaps the sweep returns a free part of the edge, no free part is wider, none as wide starts further left, and width 0 is returned exactly when there is no free part |
| EdgeSweep.UpdateBestSegment | crates/lockdock-daemon/src/relocation.rs:165-173 | The result is the best gap so far or the nonempty candidate, is at least as wide as both, and is the candidate only when that is strictly wider, so empty candidates and ties change nothing |
| EdgeSweep.TriggerIsClear | crates/lockdock-daemon/src/relocation.rs:57-59 | From display bounds to coordinate: the trigger lies on the target's edge and in no other display's contact if and only if the edge has a free stretch |
| EdgeSweep.TriggerIsPreferredOrCentral | crates/lockdock-daemon/src/relocation.rs:175-190 | The trigger is 10 from the right end (the left end of a narrower edge) unless a contact is there, and then the centre of the leftmost widest free stretch |
| EdgeSweep.FullyCoveredEdgeTriggersAtZero | crates/lockdock-daemon/src/relocation.rs:175-190 | Without a free stretch the trigger is coordinate 0, wherever the display lies |
| EdgeSweep.StackedDisplayCoversEdge | crates/lockdock-daemon/src/relocation.rs:115-190 | Two disjoint displays, one below the other: the upper one's edge has no free stretch and its trigger lies left of the display |
| DisplayLock.ReadDisplayCache | crates/lockdock-daemon/src/display_lock.rs:64-77 | The refreshed cache has the bounds of exactly the active displays that have some, in order |
| DisplayLock.CacheOfConcat | crates/lockdock-daemon/src/display_lock.rs:68-72 | The cache of a list is that of its parts in order, one entry for a display with bounds and none otherwise: nothing is dropped, doubled or moved |
| DisplayLock.CachedIsFirst | crates/lockdock-daemon/src/display_lock.rs:102-110 | If some cached display contains the point, the first such display is answered |
| DisplayLock.SuppressedExactlyInForeignZones | crates/lockdock-daemon/src/display_lock.rs:79-114 | With a current cache and disjoint displays an event is suppressed if and only if a lock is set and the point is in the bottom 4 of an active display other than the locked one |
| DisplayLock.WalkStaysInside | crates/lockdock-daemon/src/relocation.rs:57-61 | Every position from 10 to 1 above the edge at the trigger coordinate is inside a target at least 10 high with a free stretch of edge |
| RelocationTheorems.WalkIsExact | crates/lockdock-daemon/src/relocation.rs:260-285 | The exact log of a walk: step k posts at `edgeY - 10 + 9k/10`, all ten steps when left alone, the last at the edge point, and otherwise it ends with the first step whose check finds the cursor taken |
| RelocationTheorems.WalkStepAt | crates/lockdock-daemon/src/relocation.rs:266-278 | Event by event: step k is a posted move with an event source and a warp without, at that numeric position, followed by 15 ms |
| RelocationTheorems.RelocationIsExact | crates/lockdock-daemon/src/relocation.rs:52-93 | A whole relocation: approach point and 30 ms, the walk up to where it is interrupted, then nudges at the edge point only; an uninterrupted one puts the cursor back where it was unless the user holds it, an interrupted one never does |
| RelocationTheorems.CursorIsTakenBeyond24 | crates/lockdock-daemon/src/relocation.rs:232-236 | The user has taken the cursor exactly when it is more than 24 off in either direction |
| Relocation.WaitCost | crates/lockdock-daemon/src/relocation.rs:192-222 | From any nudge on: a timed-out wait has made each remaining probe and all missed, a successful one ends with a hit on the target, sleeps and nudges stay within the remaining budget |
| Relocation.RelocateCost | crates/lockdock-daemon/src/relocation.rs:38-94 | One relocation sleeps at most 830 ms (820 on success) and nudges at most 40 times, succeeds with a bottom Dock only after a probe found the Dock on the target, times out only after exactly 18 misses, 830 ms and 40 nudges with an event source, and never restores the cursor after an interruption |
| Relocation.PushPoints | crates/lockdock-daemon/src/relocation.rs:60-77 | Every approach, walk and nudge position lies on the walk at the trigger coordinate |
| Relocation.TapPassesRelocation | crates/lockdock-daemon/src/relocation.rs:52-77 | Across modules: with disjoint displays, a current cache, a target at least 10 high with a free stretch, and the lock absent or on the target, no cursor position of the relocation is suppressed |
| Preferences.WriteIsPrefix | crates/lockdock-daemon/src/preferences.rs:24-62 | A save or clear performs exactly the accesses before the first one that fails |
| Preferences.SaveLeavesMixture | crates/lockdock-daemon/src/preferences.rs:24-53 | For every store, identity and first failing access of a save: what is loaded afterwards is built from the new identity for the keys written and the old one for the others |
| Preferences.LoadStopsAtFirstFailure | crates/lockdock-daemon/src/preferences.rs:35-53 | A load answers what is stored if and only if all four reads succeed, and otherwise ends at the first that fails |
| Preferences.SaveLoadRoundTrip | crates/lockdock-daemon/src/preferences.rs:24-53 | After a complete save, loading yields that identity if it is valid and nothing otherwise, whatever was stored before |
| Preferences.ClearForgets | crates/lockdock-daemon/src/preferences.rs:55-62 | After a complete clear nothing is loaded, whatever was stored |
| Preferences.SaveIsAtomicExactlyWhen | crates/lockdock-daemon/src/preferences.rs:24-33 | A save leaves the old or the new identity if and only if the keys written before the first failure, or the keys after it, already agreed with the new identity; always so for a failure at the first two accesses or none |
| Preferences.FailedSaveMixesIdentities | crates/lockdock-daemon/src/preferences.rs:24-33 | An input for which it leaves neither: a save failing at its fourth access |
| Preferences.IdentityIsListed | crates/lockdock-daemon/src/display_state.rs:90-110 | A display has an identity if and only if the info table lists it with those values and they are valid |
| Preferences.FoundIsFirst | crates/lockdock-daemon/src/display_state.rs:127-140 | If some listed display has the identity, the first such display is found |
| Controller.IndexOf | crates/lockdock-daemon/src/display_state.rs:142-147 | The first index of the display, and none only if it is not listed |
| Controller.QuerySucceedsIff | crates/lockdock-daemon/src/display_state.rs:112-121 | A status query succeeds if and only if the Dock answer is on the list it read, and then reports that list and the first index of the answer |
| LockTheorems.RelocationLoopCost | crates/lockdock-daemon/src/controller.rs:141-180 | A relocation loop makes at most 3 attempts and 120 nudges and sleeps at most 4210 ms; from attempt k on, the remaining share of that |
| LockTheorems.RelocationLoopShape | crates/lockdock-daemon/src/controller.rs:141-180 | The loop succeeds only if its last Dock query answered the target; all attempts are for the target under the caller's lock and cache, each followed by the events of its relocation |
| LockTheorems.InterruptionStopsLoop | crates/lockdock-daemon/src/controller.rs:149-153 | At the first interrupted relocation the loop ends: nothing follows it and the loop fails |
| BoundTheorems.EveryCallIsBounded | crates/lockdock-daemon/src/controller.rs:141-180 | In every run no call, whichever path it takes, makes more than 3 relocation attempts or 120 nudges or sleeps more than 4210 ms |
| CallTheorems.StepKeeps | crates/lockdock-daemon/src/daemon.rs:104-116 | One turn of the main loop, for any input and environment, keeps: valid snapshot, lock implies event tap, earned locks, unobstructed relocations |
| CallTheorems.EveryCall | crates/lockdock-daemon/src/controller.rs:45-118 | In every call of every run the snapshot index is valid through failed refreshes, each lock set on d follows a Dock query that answered d with no other Dock query between, and each relocation runs with the lock off, or on its target with a cache read in the same call; and every cursor placement is that of the last attempt before it |
| CallTheorems.TapNeverBlocksRelocation | crates/lockdock-daemon/src/controller.rs:64-116 | In every call of every run each cursor placement belongs to a relocation attempt, and when the arrangement is stable and the display reachable it lies inside that display and is not suppressed under the lock and cache of the attempt |
| CallTheorems.StateReplyIsWellFormed | crates/lockdock-daemon/src/display_state.rs:54-88 | Every state reply names the displays of the snapshot in order, at most 32, built-in, by name or by number as the info table says; its location is in range on the display the Dock query answered; it has a target exactly when a listed display is locked, namely that display |
| PollTheorems.PendingIsLatestPoll | crates/lockdock-daemon/src/daemon.rs:133-159 | In every run a pending list is the one that the latest poll saw |
| PollTheorems.ChangesAreSeenTwice | crates/lockdock-daemon/src/daemon.rs:27-33 | A list seen for the first time is only remembered; a changed list is acted upon only when two consecutive polls saw it |
| CooldownTheorems.FailureStartsCooldown | crates/lockdock-daemon/src/daemon.rs:76-81 | In every run: a failing reconcile at start-up, or in a poll that saw another list or first read a bottom Dock, ends its turn with a cooldown of 5 seconds from the turn's last clock reading; any other failing reconcile leaves the cooldown as it was |
| CooldownTheorems.SuccessEndsCooldown | crates/lockdock-daemon/src/daemon.rs:171-176 | In every run a successful reconcile of a poll that saw another list or first read a bottom Dock ends the cooldown and leaves the snapshot its last status query answered |
| CooldownTheorems.AttemptsWithinCooldownExactly | crates/lockdock-daemon/src/daemon.rs:145-151 | In every run, an unchanged-list poll in which the cooldown still runs when its first orientation reading is done attempts to relocate if and only if its first orientation reading is not bottom, the reconcile's own is, and that reconcile finds the Dock away from the locked or preferred display |
| CooldownTheorems.ReconcileAttemptsIff | crates/lockdock-daemon/src/controller.rs:81-118 | A reconcile attempts to relocate if and only if it reads a bottom Dock and has to move it, by the lock, the stored identity, the list and the status query it makes |
| CooldownTheorems.NoRetryWithinCooldown | crates/lockdock-daemon/src/daemon.rs:192-211 | In every run, after a failing reconcile that started the cooldown and until a changed list is reconciled, an unchanged-list poll that first reads a bottom Dock begins every relocation attempt at least 5 seconds after that reading |
| FlickerExample.FlickersDefeatCooldown | crates/lockdock-daemon/src/daemon.rs:145-150 | One run under a clock that stands still: a flickering poll relocates and fails without starting the cooldown, the next relocates again and starts it, and a third, flickering again, relocates within it |
| HealingTheorems.StrayDockIsHealed | crates/lockdock-daemon/src/daemon.rs:190-211 | In every run an unchanged-list poll under a lock and a bottom Dock keeps the lock; it reconciles exactly when its one probe finds the Dock elsewhere outside the cooldown, relocates exactly when the status query of that reconcile agrees, and succeeds exactly when that query does and the Dock is or comes to the locked display, confirmed by its last Dock query |
| HealingTheorems.KeepLockOutcomes | crates/lockdock-daemon/src/controller.rs:89-101 | Reconciling under a lock on a listed display never changes the lock and succeeds only with the Dock confirmed there |
| HealingTheorems.SideDockIsLeftAlone | README.md:150 | In every run, while the Dock is not at the bottom nothing is moved or locked, and from the first unchanged-list poll on no mouse event is suppressed |
| HealingTheorems.SideDockUnlocks | crates/lockdock-daemon/src/controller.rs:85-87 | In every run, when storing works, an unchanged-list poll with the Dock at the side removes the lock, the tap and the stored preference |
| RecoveryTheorems.UnlockUnlocks | crates/lockdock-daemon/src/controller.rs:75-79 | An unlock that reports success leaves no lock, no event tap and no stored preference |
| RecoveryTheorems.UnlockIsStable | crates/lockdock-daemon/src/controller.rs:75-118 | In every run, after an unlock that cleared the lock no sequence of polls, reads and unlocks relocates the Dock or sets a lock |
| RecoveryTheorems.SetStateOutcomes | crates/lockdock-daemon/src/controller.rs:45-73 | For each outcome of a lock request, the lock and the stored identity it leaves: the requested display and its identity on success, no lock and the old identity when the Dock could not be moved, the old lock when refused early, the lock and a mixture of both identities when the save failed |
| RequestTheorems.LockRequestExactly | crates/lockdock-daemon/src/controller.rs:45-73 | In every run a lock request relocates if and only if index, orientation and identity let it in and the Dock is elsewhere; it locks if and only if, in addition, the Dock is or comes there and the tap is held or starts; it answers success if and only if, in addition, the five accesses and the final status query succeed. Then lock, fresh cache, stored identity and snapshot are as requested |
| RequestTheorems.RequestOutcomesExactly | crates/lockdock-daemon/src/controller.rs:45-73 | The exact condition of every outcome, refusals included, on state and environment at the ticks of the queries |
| RequestTheorems.BroughtDockGrants | crates/lockdock-daemon/src/controller.rs:64-72 | From the environment alone: an admitted request is granted when the Dock is there or the first relocation brings it, and tap, save and status query then succeed |
| RequestTheorems.SetLockExactly | crates/lockdock-daemon/src/display_lock.rs:23-39 | Locking works exactly when the tap is held or starts, and then the cache is the one read in that call |
| RequestTheorems.UnlockExactly | crates/lockdock-daemon/src/controller.rs:38-79 | In every run an unlock succeeds, and clears lock, tap and preference, if and only if its five accesses succeed; otherwise lock and tap stay |
| RequestTheorems.StateIsReportedIff | crates/lockdock-daemon/src/controller.rs:22-31 | In every run a state is reported if and only if the Dock query answers a display of the snapshot |
| RestoreTheorems.RestoreLockExactly | crates/lockdock-daemon/src/controller.rs:103-117 | Restoring the preferred display succeeds, and locks it, if and only if the four reads and the status query succeed, the Dock is or comes there and the tap is held or starts |
| RestoreTheorems.KeepLockExactly | crates/lockdock-daemon/src/controller.rs:95-100 | Under a lock on a listed display a reconcile succeeds if and only if the status query does and the Dock is or comes there |
| RestoreTheorems.UnlockedPollHeals | crates/lockdock-daemon/src/daemon.rs:192-211 | In every run an unchanged-list poll without a lock that first reads a bottom Dock reconciles if and only if the cooldown is over, its four reads succeed and a listed display has the stored identity; it relocates if and only if that reconcile has to; and it ends locked to that display if and only if the restore goes through |
| RestoreTheorems.BroughtDockIsLocked | crates/lockdock-daemon/src/controller.rs:129-139 | From the environment alone: such a poll ends with the lock on the preferred display when the Dock is there or the first relocation brings it |
| RestoreTheorems.StartupRestores | crates/lockdock-daemon/src/daemon.rs:71-81 | In every run start-up locks the first listed display with the stored identity if and only if it reads a bottom Dock and the restore goes through |
| RefreshTheorems.UnchangedPollRefreshes | crates/lockdock-daemon/src/daemon.rs:134-145 | In every run an unchanged-list poll asks for display info again if and only if 15 seconds have passed since it failed, forgets a pending list, has a cache of that poll, and, unless it reconciles, the location its Dock query found |
| RefreshTheorems.AcceptedListIsAdopted | crates/lockdock-daemon/src/daemon.rs:155-177 | In every run an accepted list comes with a new cache and new display info, and leads to a reconcile if and only if the status query succeeds; otherwise the snapshot stays |
| RecoveryTheorems.RestoreOutcomes | crates/lockdock-daemon/src/controller.rs:103-117 | Restoring keeps the preference and locks exactly the first listed display with the stored identity, or nothing |
| RecoveryTheorems.FailedLockIsHealed | crates/lockdock-daemon/src/controller.rs:64-69 | In every run, a lock request that relocated without locking leaves no lock and the earlier identity stored; both stay so over reads and unchanged-list polls until the first poll that reconciles successfully, which locks a listed display with that identity |
| ReconnectTheorems.DisconnectAndReconnect | crates/lockdock-ipc/docs/ipc_v1.md:29-31 | In every run: two polls without the locked display, with reads between them, drop the lock and keep the identity; nothing is moved or locked until the display is back; two polls with it, under any ID, end with the lock on that ID, set right after a Dock query that answered it, if and only if the Dock is there at the last of them or its relocation loop succeeds, and without a lock otherwise |
| ReconnectTheorems.ReconnectedDisplayIsLocked | crates/lockdock-ipc/docs/ipc_v1.md:29-31 | The same from the environment alone: it ends with the lock if the Dock is there already or the first relocation of the last poll meets no overlay and an untouched cursor, and a scheduled probe and the settling query find the Dock there |
| DeliveryTheorems.RelocatesExactlyWhen | crates/lockdock-daemon/src/relocation.rs:38-94 | With a bottom Dock a relocation succeeds if and only if the display has bounds, no overlay covers it, the cursor is left alone at every scheduled check, and one of the 18 scheduled probes finds the Dock there |
| DeliveryTheorems.TimesOutExactlyWhen | crates/lockdock-daemon/src/relocation.rs:66-93 | With a bottom Dock a relocation fails without interruption if and only if the display has no bounds, or it is left alone to the end and all 18 probes miss; so in all other failing cases it is interrupted |
| DeliveryTheorems.LoopRetriesExactly | crates/lockdock-daemon/src/controller.rs:141-180 | The loop attempts again after every attempt that neither succeeds nor is interrupted, three times at most, each where the one before ended; it succeeds exactly if its last attempt does, with exactly that many attempts, half a second before each retry and a quarter after each relocation |
| DeliveryTheorems.SucceedsExactlyWhen | crates/lockdock-daemon/src/controller.rs:149-165 | With a bottom Dock an attempt succeeds if and only if it goes through at some probe and the settling query lists the display and finds the Dock there |
| DeliveryTheorems.BroughtDockArrives | crates/lockdock-daemon/src/controller.rs:64-67 | When the Dock is there, or the first attempt brings it there, the call goes on, and at which tick |
| DeliveryTheorems.LoopSucceeds | crates/lockdock-daemon/src/controller.rs:141-166 | When that holds and the settling query finds the Dock there, the relocation loop succeeds at its first attempt, whatever the lock and the cache |
| DeliveryTheorems.LoopIgnoresLock | crates/lockdock-daemon/src/controller.rs:141-180 | Whether the loop succeeds never depends on the lock or the cache |
| LockDaemonProcess.LockDaemon.WalkCursor | crates/lockdock-daemon/src/relocation.rs:260-285 | The loop produces the walk of `Relocation.SmoothMove`, whose points and cost are proved there |
| LockDaemonProcess.LockDaemon.WaitForDockRelocation | crates/lockdock-daemon/src/relocation.rs:192-222 | Both loops and their early returns give the outcome and events of `Relocation.WaitForDock` |
| LockDaemonProcess.LockDaemon.RelocateDisplay | crates/lockdock-daemon/src/relocation.rs:38-94 | The whole relocation, with the imperative collection and sweep, has the outcome and events of `Relocation.Relocate` |
| LockDaemonProcess.LockDaemon.ShouldSuppressEvent | crates/lockdock-daemon/src/display_lock.rs:79-100 | The decision is that of `DisplayLock.ShouldSuppress`, and the target is zeroed exactly when the Dock is unsupported |
| LockDaemonProcess.LockDaemon.SetLockTarget | crates/lockdock-daemon/src/display_lock.rs:23-39 | Tap first, then cache, then target; a tap that does not start changes nothing else |
| LockDaemonProcess.LockDaemon.ClearLockTarget | crates/lockdock-daemon/src/display_lock.rs:41-48 | No target and no tap afterwards |
| LockDaemonProcess.LockDaemon.RefreshDockSupport | crates/lockdock-daemon/src/display_lock.rs:58-62 | The support flag is the orientation just read, after any mouse event has had its say under the old one |
| LockDaemonProcess.LockDaemon.QueryDisplayStatus | crates/lockdock-daemon/src/display_state.rs:112-121 | The list is read before the Dock is asked for; result as `Controller.QueryStatus` |
| LockDaemonProcess.LockDaemon.WriteEdits | crates/lockdock-daemon/src/preferences.rs:24-62 | Store and result after the accesses up to the first failure |
| LockDaemonProcess.LockDaemon.LoadPreferences | crates/lockdock-daemon/src/preferences.rs:35-53 | The stored identity, or an error at the first failing read |
| LockDaemonProcess.LockDaemon.RelocateDisplayUntilCurrent | crates/lockdock-daemon/src/controller.rs:141-180 | The retry loop has the result and events of `Controller.RelocateUntilCurrent` |
| LockDaemonProcess.LockDaemon.ApplySet | crates/lockdock-daemon/src/controller.rs:45-73 | State and outcome of a lock request, each early return included |
| LockDaemonProcess.LockDaemon.ApplyUnlockRequest | crates/lockdock-daemon/src/controller.rs:75-79 | The preference is cleared first; a failing access leaves the lock |
| LockDaemonProcess.LockDaemon.ReconcileDisplayState | crates/lockdock-daemon/src/controller.rs:81-101 | State and result of a reconcile in all its branches |
| LockDaemonProcess.LockDaemon.RestorePreference | crates/lockdock-daemon/src/controller.rs:103-117 | State and result of restoring the saved preference |
| LockDaemonProcess.LockDaemon.DockNeedsHealing | crates/lockdock-daemon/src/controller.rs:122-139 | Under a lock the probe decides, otherwise whether the preferred display is listed |
| LockDaemonProcess.LockDaemon.HealDockPosition | crates/lockdock-daemon/src/daemon.rs:192-211 | State after a healing attempt, its cooldown included |
| LockDaemonProcess.LockDaemon.PollDisplayChanges | crates/lockdock-daemon/src/daemon.rs:128-177 | State after a poll in all its branches |
| LockDaemonProcess.LockDaemon.Handle | crates/lockdock-daemon/src/controller.rs:22-43 | State and response of a request |
| LockDaemonProcess.Start | crates/lockdock-daemon/src/daemon.rs:71-81 | Start-up fails exactly when the snapshot cannot be loaded, and otherwise ends in `Controller.Boot` |
| LockDaemonProcess.Run | crates/lockdock-daemon/src/daemon.rs:103-116 | The states between the turns of the imperative daemon form a run, so every theorem over runs applies to it |
| EventThread.StepKeeps | crates/lockdock-mouse/native/mouse.c:126-295 | Every step of client, event threads and environment keeps the protocol invariant |
| EventThread.ThreadLifecycle | crates/lockdock-mouse/native/mouse.c:155-295 | In every interleaving: at most one thread unjoined, each joined at most once and only after its end, at rest one is unjoined exactly when `g_event_thread_joinable` is set, and an ended thread leaves no tap and no source |
| EventThread.StartReturns | crates/lockdock-mouse/native/mouse.c:219-268 | In every interleaving a start returns true if and only if it found the thread running, or it created one whose tap and source were created and which had not published its end when the client looked |
| EventThread.CreationCounts | crates/lockdock-mouse/native/mouse.c:245-252 | A step creates a thread exactly when it is the client's creation step and pthread_create succeeds |
| EventThread.StopLeavesNothing | crates/lockdock-mouse/native/mouse.c:270-295 | When a stop returns, every thread ever created has ended and been joined, and no tap or source is left |
| EventThread.StopTargetsLiveLoop | crates/lockdock-mouse/native/mouse.c:275-290 | Whenever a stop request is made it reaches the run loop of the thread about to be joined, which has published its start and not its end |
| EventThread.CallsProgress | crates/lockdock-mouse/native/mouse.c:213-295 | No deadlock and no lost wakeup: inside a start or stop some step of the client or its thread is enabled, without spurious wakeups |
| EventThread.ProgressLowersRank | crates/lockdock-mouse/native/mouse.c:213-295 | Each such step lowers a natural number |
| EventThread.EveryCallEnds | crates/lockdock-mouse/native/mouse.c:219-295 | In every execution, from any point on at most 40 such steps follow one another, and when none is enabled the client's start or stop has returned |
| EventThread.StoppedLoopsEnd | crates/lockdock-mouse/native/mouse.c:270-295 | Once a stop is requested every step whatever brings the join nearer |
| TapStack.StepKeeps | crates/lockdock-mouse/src/event_tap.rs:15-75 | Every step of the client, the native calls and the callback keeps the invariant over all locks |
| TapStack.TapHandlerAndTargetAgree | crates/lockdock-daemon/src/display_lock.rs:23-48 | In every interleaving: with `EVENT_TAP` free, handler, `EventTap` and joinable thread exist together or not at all; a nonzero target implies a held tap even while the callback zeroes targets; `AlreadyRunning` is never returned; no callback lacks a handler |
| TapStack.CallbackObeysSupport | crates/lockdock-daemon/src/display_lock.rs:79-100 | In every interleaving a callback zeroes the target if and only if it has itself read that the Dock is unsupported, never changes it otherwise, and ends only after it saw that, or no target, or looked its display up |
| TapStack.StoredTargetStays | crates/lockdock-daemon/src/display_lock.rs:36-42 | After the store of a display the target is that display until the client stores again or such a callback acts |
| TapStack.TargetWriters | crates/lockdock-daemon/src/display_lock.rs:37-81 | Nothing else writes the target, and each of the three writes has its value |
| TapStack.SetReturns | crates/lockdock-daemon/src/display_lock.rs:23-39 | In every interleaving a set_lock_target(d) that returns has just stored d with the tap held, or its native start returned false and it left no handler, tap or target |
| TapStack.ClearReturns | crates/lockdock-daemon/src/display_lock.rs:41-48 | In every interleaving a clear_lock_target that returns leaves no target, tap, handler or live event thread |
| TapStack.NoDeadlock | crates/lockdock-daemon/src/display_lock.rs:23-77 | With all four locks and the joins, a client inside a call always leaves some step enabled |
| TapStack.OpBlockers | crates/lockdock-mouse/src/event_tap.rs:46-67 | A blocked client waits for its native call or for the cache lock of the callback, and the callback is then never blocked: no lock the event thread needs is held over a join |
| TapStack.ProgressLowersRank | crates/lockdock-mouse/src/event_tap.rs:16-75 | Each step of client, native call or callback lowers a natural number |
| TapStack.EveryCallEnds | crates/lockdock-daemon/src/display_lock.rs:23-77 | In every execution, from any point on at most 107 such steps follow one another, and when none is enabled the client is outside `set_lock_target`, `clear_lock_target` and `refresh_display_cache` |
| SocketOwnership.StepKeeps | crates/lockdock-ipc/src/server.rs:26-100 | Every step of any process keeps: the lock has exactly its holder inside bind or serving, and a server's path is its own socket |
| SocketOwnership.OneServer | crates/lockdock-ipc/src/server.rs:34-38 | In every execution at most one process is between taking the lock and releasing it, and while it serves the path is its own socket |
| SocketOwnership.RemovalsAreSafe | crates/lockdock-ipc/src/server.rs:74-100 | Whatever is removed is a socket, the remover's own or one whose binder neither serves nor is binding; a file is never removed and nothing is overwritten |
| SocketOwnership.ServerKeepsItsSocket | crates/lockdock-ipc/src/server.rs:26-100 | Until its own drop or crash a server keeps serving at its path, whatever the other processes do |
| SocketOwnership.FileStays | crates/lockdock-ipc/src/server.rs:81-83 | A file at the path stays for ever and from then on nobody serves |
| SocketOwnership.StaleSocketNeverBlocks | crates/lockdock-ipc/src/server.rs:74-94 | A process that takes the lock over nothing, or over a socket whose owner is gone, is never turned away and serves after five steps of its own, whatever the others do |
| SocketOwnership.BindRun | crates/lockdock-ipc/src/server.rs:26-39 | An uninterrupted bind, with an I/O error at any one of its system calls or none, is a run of the step system, and serves if and only if the lock was free, no file was there, no dying server still listened and no error lay on its way |
| SocketOwnership.DropRun | crates/lockdock-ipc/src/server.rs:96-100 | Dropping the server in field order is a run that leaves neither socket nor lock |
| SocketOwnership.Host.LockSocket | crates/lockdock-ipc/src/server.rs:57-72 | Takes the lock, or reports `SocketInUse` or an I/O error, and changes nothing else |
| SocketOwnership.Host.RemoveStaleSocket | crates/lockdock-ipc/src/server.rs:74-94 | Leaves the path empty, or reports the error of the branch or system call that failed, keeps the path and gives up the lock |
| SocketOwnership.Host.BindListener | crates/lockdock-ipc/src/server.rs:37-38 | The process serves its own socket, or reports an I/O error and gives up the lock, leaving a dead socket when only listening failed |
| SocketOwnership.Host.Bind | crates/lockdock-ipc/src/server.rs:26-39 | Ends in the state of `BindRun` with the matching error |
| SocketOwnership.Host.Drop | crates/lockdock-ipc/src/server.rs:96-100 | Ends in the state of `DropRun` |
| Shutdown.StepKeeps | crates/lockdock-daemon/src/daemon.rs:86-125 | Every step of the two threads, of signals and of clients keeps the handshake invariant |
| Shutdown.Handshake | crates/lockdock-daemon/src/daemon.rs:86-125 | In every execution: after the flag at most one more accept; at join with the accept thread blocked in accept a connection is queued; past `clear_lock_target` the target stays 0; `run` returns only after the listener is gone |
| Shutdown.StopsOnlyForASignal | crates/lockdock-daemon/src/daemon.rs:86-116 | In every execution, without a signal the flag stays unset, the main thread stays in its loop and the accept thread in its own |
| Shutdown.RequestsArrive | crates/lockdock-daemon/src/daemon.rs:87-112 | In every execution every connection taken is read, and every request read is received, in the channel or about to be sent, until the main thread drops the channel |
| Shutdown.ShutdownEnds | crates/lockdock-daemon/src/daemon.rs:118-124 | From any reachable state with the flag set the threads take at most 12 steps, and when neither can move, the main thread has returned, the accept thread has exited and the lock is cleared |
| Shutdown.WakeupIsNeeded | crates/lockdock-daemon/src/daemon.rs:121 | Without the connection to itself the daemon can reach a join on an accept thread blocked for ever |

## Left out

- Floating point: `f64` coordinates are reals, so rounding, infinities and NaN (and the `partial_cmp` fallback of the contact sort) are not modelled.
- CoreGraphics, Accessibility, CoreFoundation, `proc_pidpath` and `system_profiler`: their results are arbitrary inputs. The fallback from the window list to Accessibility bounds (crates/lockdock-display/src/dock.rs) is inside the arbitrary Dock answer.
- JSON encoding and decoding, message framing, the client crate, the command line, logging, error texts, the launch agent and the install script.
- Mutex poisoning and panics.
- The display arrangement may change between queries, but the display list and the bounds read in one enumeration (cache refresh, contact collection) come from one instant.
- The 2 second poll interval and the main loop's timeouts: polls and requests arrive in any order.
- The content of requests in `Shutdown`: they are counted there and handled in `Controller`.
- The controller model treats one decision of the mouse callback as atomic and lets mouse events in before the support flag and the lock target are read; the interleaving of its single reads, writes and locks with the lock operations is in `TapStack`, where the decision itself is not modelled.
- `CFRunLoopStop` is a sticky request that the loop honours before delivering a further event; an assumption about the system.
- Native start and stop calls come from one client at a time, as the `EVENT_TAP` mutex makes them; unsynchronised callers of mouse.c are not modelled.
- Steps of the native threads between two accesses to shared state are merged, and a critical section of `g_event_mutex` is one step after the lock step.
- Progress theorems bound the steps of the threads and show that one is enabled; that an enabled thread eventually gets to move is the scheduler's part.
- The final return of the cursor after a relocation is not one of the positions that `TapPassesRelocation` covers: it goes back to wherever the cursor was.
- `SocketOwnership`: nobody but the daemons deletes or replaces what is at the socket path; others may create a file there. A daemon that binds again counts as a new process. `create_dir_all` and the path length check come before the first step.
- `Shutdown`: a queued connection stays queued until accepted, the daemon's own connect fails only on a full backlog or a closed listener, and reading a request ends.
