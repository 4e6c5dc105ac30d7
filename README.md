# Focus Hero app blocker — a Dafny model of its Android core

Focus Hero lets a user pick applications to block during a focus session. On Android
this is done by two Kotlin classes:

- `AppBlockerService`, a foreground service. It holds the block list and a
  one-second repeating timer. On every tick it queries the usage-stats facility over
  the last minute and takes the entry with the latest `lastTimeUsed` among those the
  query returns. The service applies no recency filter of its own. If that entry's
  package is on the block list, the service sends the user to the home screen and
  posts an "App Blocked" notification naming it.
- `MainActivity`, the Flutter activity. It answers calls on the
  `com.focushero/app_blocker` method channel. It starts and stops the service,
  reports whether usage access is granted, and reports the application in front
  right now. For that last call it uses the same selection plus a 5-second recency
  filter.

The model has four modules:

- `Platform` (`platform.dfy`): plain values standing in for the OS objects: a usage
  entry `(packageName, lastTimeUsed)`, the query window, an intent, an AppOps mode.
  The usage-stats query is a function parameter from window to optional list.
  `None` is a null list.
- `UsageSelection` (`usage_selection.dfy`): the running-best scan both classes run
  over the query result, as a method with loop invariants. It is proved against a
  reference definition, the first entry with the greatest `lastTimeUsed`.
- `BlockerService` (`blocker_service.dfy`): the service as a class. Its fields are
  `timer`, `blockedApps` and a trace of the effects it caused. `Timer` is a class
  that can be cancelled. The lemmas are about runs of ticks, and `RunTicks` shows
  that a running service's trace grows by exactly such a run.
- `MainActivity` (`main_activity.dfy`): method-name routing, argument defaulting,
  the intent sent to the service, the permission test, the recency-filtered probe and
  the channel handler.

The enforcement is **level-triggered** (`AppBlockerService.kt:69-81`). Every tick
whose selected application is blocked redirects and notifies again. The service keeps
no state that would suppress repeat actions while the user stays in a blocked
application. Three blocked ticks, two ticks with no data, then one blocked tick give
four `notify` calls, where an edge-triggered enforcer would give two. Every
notification is posted with the same id (2), so each call replaces the previous one
on screen
(`BlockerService.ConsecutiveBlockedTicksEachNotify`).

The two recency policies differ, and the model keeps both as written. The service
acts on the entry with the latest `lastTimeUsed` among those the last-minute query
returns (daily buckets, `INTERVAL_DAILY`). It never compares that time with the
window, so the entry may have been used before the window began. The activity
reports the same entry only if it was used less than 5000 ms before the query's end
time.

## Model

| member | source | states |
|---|---|---|
| `UsageSelection.ForegroundQueryWindow` | android/app/src/main/kotlin/com/example/smartlock/AppBlockerService.kt:86-93 | the query uses daily buckets over exactly the minute ending at `now` |
| `UsageSelection.MostRecentIndex` | android/app/src/main/kotlin/com/example/smartlock/AppBlockerService.kt:97-102 | the selected position is a valid index of a non-empty list |
| `UsageSelection.MostRecentIndexIsFirstMostRecent` | android/app/src/main/kotlin/com/example/smartlock/AppBlockerService.kt:98-102 | the selected entry was used no earlier than any entry, and strictly later than every entry before it |
| `UsageSelection.FirstMostRecentUnique` | android/app/src/main/kotlin/com/example/smartlock/AppBlockerService.kt:99 | the strict-`>` rule singles out one position: two first-most-recent positions are equal |
| `UsageSelection.MostRecentIndexCharacterized` | android/app/src/main/kotlin/com/example/smartlock/AppBlockerService.kt:97-102 | a position is the first most recent one if and only if it is the selected one |
| `UsageSelection.MostRecent` | android/app/src/main/kotlin/com/example/smartlock/AppBlockerService.kt:95-104 | the selected entry is absent exactly for the empty list, and otherwise an entry of the list |
| `UsageSelection.MostRecentIsFirstMaximum` | android/app/src/main/kotlin/com/example/smartlock/AppBlockerService.kt:95-104 | no selection exactly for the empty list; otherwise an entry of the list, a maximum of `lastTimeUsed`, and the first maximum |
| `UsageSelection.TieGoesToFirst` | android/app/src/main/kotlin/com/example/smartlock/AppBlockerService.kt:99 | of two entries with the same time, the later one is never selected |
| `UsageSelection.MostRecentPackage` | android/app/src/main/kotlin/com/example/smartlock/AppBlockerService.kt:95-104 | the probe's answer on a query result is null exactly for a null or empty list, and otherwise the package of some entry of the list |
| `UsageSelection.MostRecentPackageSpec` | android/app/src/main/kotlin/com/example/smartlock/AppBlockerService.kt:95-104 | the probe gives null exactly for a null or empty list; otherwise it gives the package of the first most recent entry |
| `UsageSelection.SelectMostRecent` | android/app/src/main/kotlin/com/example/smartlock/MainActivity.kt:87-92 | the running-best loop (the same loop as AppBlockerService.kt:97-102) ends with null exactly on the empty list, and otherwise with the first most recent entry |
| `BlockerService.StringArrayListExtra` | android/app/src/main/kotlin/com/example/smartlock/AppBlockerService.kt:28 | the extra is present exactly when the intent carries the key, and then it is the list stored under it |
| `BlockerService.IsStartBlocking` | android/app/src/main/kotlin/com/example/smartlock/AppBlockerService.kt:26 | a missing intent, or an intent without an action, is never a START_BLOCKING command |
| `BlockerService.BlockedAppsOf` | android/app/src/main/kotlin/com/example/smartlock/AppBlockerService.kt:28 | the installed block list is the BLOCKED_APPS extra, or empty when the extra is absent |
| `BlockerService.IsBlocked` | android/app/src/main/kotlin/com/example/smartlock/AppBlockerService.kt:71 | a null app is never blocked, nothing is blocked by an empty list, and a blocked app occurs in the list |
| `BlockerService.ActionsFor` | android/app/src/main/kotlin/com/example/smartlock/AppBlockerService.kt:71-81 | one check acts exactly when its app is blocked; then it redirects home and then notifies naming that app, which is on the list |
| `BlockerService.TickRun` | android/app/src/main/kotlin/com/example/smartlock/AppBlockerService.kt:69-81 | a run of checks causes at most two events per check |
| `BlockerService.EveryBlockedTickNotifies` | android/app/src/main/kotlin/com/example/smartlock/AppBlockerService.kt:69-81 | the notifications of a run of ticks name exactly the blocked apps found, one per blocking tick, in order (no debounce) |
| `BlockerService.TickRunShape` | android/app/src/main/kotlin/com/example/smartlock/AppBlockerService.kt:70-81 | a run's events are a redirect then a notification for each blocking tick, two events per blocking tick, each notified app on the block list |
| `BlockerService.EmptyBlockListNeverActs` | android/app/src/main/kotlin/com/example/smartlock/AppBlockerService.kt:71 | with an empty block list no tick ever acts |
| `BlockerService.UnknownNeverActs` | android/app/src/main/kotlin/com/example/smartlock/AppBlockerService.kt:71 | ticks whose probe found no app never act |
| `BlockerService.ConsecutiveBlockedTicksEachNotify` | android/app/src/main/kotlin/com/example/smartlock/AppBlockerService.kt:64-81 | three blocked ticks, two empty ticks and one blocked tick give four `notify` calls (all with id 2, each replacing the last on screen) |
| `BlockerService.Timer.constructor` | android/app/src/main/kotlin/com/example/smartlock/AppBlockerService.kt:64 | a new timer has the given period and is live |
| `BlockerService.Timer.Cancel` | android/app/src/main/kotlin/com/example/smartlock/AppBlockerService.kt:63 | after `cancel` the timer no longer fires |
| `BlockerService.AppBlockerService.AtMostOneActiveTimer` | android/app/src/main/kotlin/com/example/smartlock/AppBlockerService.kt:62-67 | the service has at most one live timer: the current one when it runs, none otherwise |
| `BlockerService.AppBlockerService.constructor` | android/app/src/main/kotlin/com/example/smartlock/AppBlockerService.kt:15-16 | a new service has no timer, an empty block list and has done nothing |
| `BlockerService.AppBlockerService.OnStartCommand` | android/app/src/main/kotlin/com/example/smartlock/AppBlockerService.kt:25-37 | START_BLOCKING replaces the block list (empty if absent), goes foreground, cancels every earlier timer and adds one fresh one-second timer, the only live one; any other or missing intent only stops the service; START_STICKY is always returned |
| `BlockerService.AppBlockerService.StartMonitoring` | android/app/src/main/kotlin/com/example/smartlock/AppBlockerService.kt:62-67 | every earlier timer is cancelled and a fresh 1000 ms timer, added to the service's timers, becomes the only live one |
| `BlockerService.AppBlockerService.GetForegroundApp` | android/app/src/main/kotlin/com/example/smartlock/AppBlockerService.kt:84-105 | over the last minute's query: null exactly on a null or empty list, otherwise the package of the first most recent entry |
| `BlockerService.AppBlockerService.CheckForegroundApp` | android/app/src/main/kotlin/com/example/smartlock/AppBlockerService.kt:69-82 | the trace grows by a redirect and a notification naming the app exactly when the app found is non-null and blocked, and by nothing otherwise |
| `BlockerService.AppBlockerService.Tick` | android/app/src/main/kotlin/com/example/smartlock/AppBlockerService.kt:64-66 | a cancelled timer does nothing; a live one runs the check; a timer that is not the current one never acts |
| `BlockerService.AppBlockerService.OnDestroy` | android/app/src/main/kotlin/com/example/smartlock/AppBlockerService.kt:120-123 | after destroy no timer of the service is live, and the block list and trace are unchanged |
| `BlockerService.RunTicks` | android/app/src/main/kotlin/com/example/smartlock/AppBlockerService.kt:64-81 | a running service ticked once per input adds to its trace exactly the run of checks on the apps found, against its current block list |
| `BlockerService.DestroyedServiceNeverActs` | android/app/src/main/kotlin/com/example/smartlock/AppBlockerService.kt:120-123 | a tick of any timer after destroy adds nothing to the trace |
| `MainActivity.Route` | android/app/src/main/kotlin/com/example/smartlock/MainActivity.kt:21-47 | a method name routes to `Unknown` exactly when it is none of the six names the handler knows |
| `MainActivity.RouteInvertsMethodName` | android/app/src/main/kotlin/com/example/smartlock/MainActivity.kt:21-47 | each of the six commands is reached by exactly its own method name, and every other name routes to notImplemented |
| `MainActivity.BlockedAppsArgument` | android/app/src/main/kotlin/com/example/smartlock/MainActivity.kt:33-34 | a present `blockedApps` argument is passed on unchanged; a missing one becomes the empty list |
| `MainActivity.StartBlockingIntent` | android/app/src/main/kotlin/com/example/smartlock/MainActivity.kt:102-106 | the intent has action START_BLOCKING and a single extra, BLOCKED_APPS, holding the list unchanged |
| `MainActivity.StartBlockingIntentRoundTrip` | android/app/src/main/kotlin/com/example/smartlock/MainActivity.kt:102-106 | the service reads the activity's intent as START_BLOCKING and gets back exactly the list put in it |
| `MainActivity.HasUsageAccess` | android/app/src/main/kotlin/com/example/smartlock/MainActivity.kt:67 | permission is reported exactly when the mode is MODE_ALLOWED |
| `MainActivity.RecentForegroundPackage` | android/app/src/main/kotlin/com/example/smartlock/MainActivity.kt:85-99 | null on a null or empty list; otherwise null or the service's selection |
| `MainActivity.RecentForegroundPackageFilters` | android/app/src/main/kotlin/com/example/smartlock/MainActivity.kt:94-99 | the result is null or the service's selection; it is non-null exactly when the most recent use is less than 5000 ms old (5000 itself excluded), that is, when some entry is that recent |
| `MainActivity.GetCurrentForegroundAppAt` | android/app/src/main/kotlin/com/example/smartlock/MainActivity.kt:74-100 | null on a null or empty list; otherwise the selected package if used less than 5000 ms before `now`, else null; never anything but the service's selection |
| `MainActivity.HandleMethodCall` | android/app/src/main/kotlin/com/example/smartlock/MainActivity.kt:20-49 | every known name gets its effect and reply (startBlocking sends the defaulted list, stopBlocking stops the service); an unknown name gets notImplemented and no effect |
| `MainActivity.StartBlockingInstallsArgument` | android/app/src/main/kotlin/com/example/smartlock/MainActivity.kt:32-36 | end to end, the intent `startBlocking` sends makes the service block the call's list, or nothing when the call had no list |

## Left out

- Platform side effects are modelled only as trace events or effect values:
  `startForeground`, the home-screen `startActivity`, `stopSelf`, `stopService`,
  `startService`/`startForegroundService` and `moveTaskToBack`.
- The SDK-version branches (`startForegroundService` versus `startService`, and
  `unsafeCheckOpNoThrow` versus `checkOpNoThrow`) are left out. Both arms of each
  do the same thing here. The permission mode is an input.
- Notification channel creation and notification building (`onCreate`,
  `createNotificationChannel`, `createNotification`, `showBlockedNotification`) are
  platform UI. The model records only `ForegroundStarted(count)` and `Notified(app)`.
- `UsageStatsManager.queryUsageStats` and `System.currentTimeMillis` are foreign OS
  calls. The query is a function parameter and `now` is a parameter.
- `java.util.Timer` threads are left out. Ticks are sequential calls of `Tick`, and
  there is no concurrency between the timer thread and the main thread.
- Flutter `MethodChannel` marshalling is left out. A call is a method name plus a
  map of list-of-string arguments. A `blockedApps` argument of the wrong type, which
  would throw in Kotlin, is not modelled.
- `onStartCommand`'s `stopSelf` does not itself cancel the timer. The OS later calls
  `onDestroy`, which is modelled as a separate method.
- Timestamps are unbounded integers. 64-bit `Long` overflow in `now - 60000` and
  `endTime - lastTimeUsed` is not modelled.
- `onBind` (always null) is left out.
