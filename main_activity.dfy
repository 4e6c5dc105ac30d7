/** The Flutter activity: it answers calls on the `com.focushero/app_blocker` method
    channel, starting and stopping the blocking service, reporting the usage-access
    permission and reporting the app that is in front right now. */
module MainActivity {
  import opened Platform
  import opened UsageSelection
  import BlockerService

  /** `getCurrentForegroundApp` reports an app only if it was used less than this many
      milliseconds before the query's end time. */
  const RECENT_THRESHOLD_MS: int := 5000

  /** The argument of `startBlocking` that carries the block list. */
  const BLOCKED_APPS_ARGUMENT: string := "blockedApps"

  /** The commands the channel handler understands, plus `Unknown` for every other name. */
  datatype Command =
    | HasUsageStatsPermission
    | OpenUsageStatsSettings
    | GetCurrentForegroundApp
    | StartBlocking
    | StopBlocking
    | MinimizeApp
    | Unknown

  /** The method name each known command answers to. */
  function MethodName(c: Command): string
    requires c != Unknown
  {
    match c
    case HasUsageStatsPermission => "hasUsageStatsPermission"
    case OpenUsageStatsSettings => "openUsageStatsSettings"
    case GetCurrentForegroundApp => "getCurrentForegroundApp"
    case StartBlocking => "startBlocking"
    case StopBlocking => "stopBlocking"
    case MinimizeApp => "minimizeApp"
  }

  /** The `when (call.method)` dispatch: a total map from method names to commands. */
  function Route(name: string): (c: Command)
    ensures c == Unknown <==> name !in {"hasUsageStatsPermission", "openUsageStatsSettings",
      "getCurrentForegroundApp", "startBlocking", "stopBlocking", "minimizeApp"}
  {
    if name == "hasUsageStatsPermission" then HasUsageStatsPermission
    else if name == "openUsageStatsSettings" then OpenUsageStatsSettings
    else if name == "getCurrentForegroundApp" then GetCurrentForegroundApp
    else if name == "startBlocking" then StartBlocking
    else if name == "stopBlocking" then StopBlocking
    else if name == "minimizeApp" then MinimizeApp
    else Unknown
  }

  /** Routing and naming are inverse: every known command is reached by exactly its
      own name, and a name routed to a known command is that command's name. */
  lemma RouteInvertsMethodName(c: Command, name: string)
    ensures c != Unknown ==> Route(MethodName(c)) == c
    ensures Route(name) != Unknown ==> MethodName(Route(name)) == name
    ensures Route(name) == Unknown <==>
      forall k: Command :: k != Unknown ==> MethodName(k) != name
  {
  }

  /** A call on the channel: its method name and its arguments (only list-of-string
      arguments occur on this channel). */
  datatype MethodCall = MethodCall(name: string, arguments: map<string, seq<string>>)

  /** What `result` is given: `success(value)` or `notImplemented()`. */
  datatype ReplyValue = NullValue | BoolValue(b: bool) | StringValue(s: string)
  datatype Reply = Success(value: ReplyValue) | NotImplemented

  /** The effects a call has outside the channel. */
  datatype Effect =
    | OpenUsageAccessSettings              // startActivity(ACTION_USAGE_ACCESS_SETTINGS)
    | StartBlockerService(intent: Intent)  // startForegroundService / startService
    | StopBlockerService                   // stopService
    | MoveTaskToBack                       // moveTaskToBack(true)

  /** `call.argument<List<String>>("blockedApps") ?: emptyList()`. */
  function BlockedAppsArgument(call: MethodCall): (apps: seq<string>)
    ensures BLOCKED_APPS_ARGUMENT in call.arguments ==> apps == call.arguments[BLOCKED_APPS_ARGUMENT]
    ensures BLOCKED_APPS_ARGUMENT !in call.arguments ==> apps == []
  {
    if BLOCKED_APPS_ARGUMENT in call.arguments then call.arguments[BLOCKED_APPS_ARGUMENT] else []
  }

  /** The intent `startBlockingService` sends: action START_BLOCKING with the list as
      the BLOCKED_APPS extra. */
  function StartBlockingIntent(blockedApps: seq<string>): (intent: Intent)
    ensures intent.action == Some(BlockerService.START_BLOCKING)
    ensures intent.stringArrayExtras.Keys == {BlockerService.BLOCKED_APPS}
    ensures intent.stringArrayExtras[BlockerService.BLOCKED_APPS] == blockedApps
  {
    Intent(Some(BlockerService.START_BLOCKING), map[BlockerService.BLOCKED_APPS := blockedApps])
  }

  /** The intent carries the list across unchanged: the service recognises it as a
      start command and installs exactly the list the activity was given. */
  lemma StartBlockingIntentRoundTrip(blockedApps: seq<string>)
    ensures BlockerService.IsStartBlocking(Some(StartBlockingIntent(blockedApps)))
    ensures BlockerService.BlockedAppsOf(StartBlockingIntent(blockedApps)) == blockedApps
  {
  }

  /** `hasUsageStatsPermission`: the usage-stats operation is allowed exactly when the
      mode reported for it is MODE_ALLOWED. */
  function HasUsageAccess(mode: AppOpsMode): (granted: bool)
    ensures granted <==> mode == ModeAllowed
  {
    mode.ModeAllowed?
  }

  /** Reference definition of `getCurrentForegroundApp` on a query result: the package
      of the selected entry, but only if it was used less than 5 s before `endTime`. */
  function RecentForegroundPackage(list: Option<seq<UsageStat>>, endTime: int): (app: Option<string>)
    ensures list.None? || |list.value| == 0 ==> app.None?
    ensures app.None? || app == MostRecentPackage(list)
  {
    if list.None? || |list.value| == 0 then None
    else
      var recentApp := list.value[MostRecentIndex(list.value)];
      if endTime - recentApp.lastTimeUsed < RECENT_THRESHOLD_MS then Some(recentApp.packageName) else None
  }

  /** The recency filter only ever drops the service's selection, never changes it; it
      keeps it exactly when the latest use is less than 5000 ms old, so an entry used
      exactly 5000 ms before the end time is not reported. */
  lemma RecentForegroundPackageFilters(list: Option<seq<UsageStat>>, endTime: int)
    ensures RecentForegroundPackage(list, endTime).None? || RecentForegroundPackage(list, endTime) == MostRecentPackage(list)
    ensures RecentForegroundPackage(list, endTime).Some? <==>
      && list.Some?
      && |list.value| > 0
      && endTime - list.value[MostRecentIndex(list.value)].lastTimeUsed < RECENT_THRESHOLD_MS
    ensures RecentForegroundPackage(list, endTime).Some? <==>
      list.Some? && exists j :: 0 <= j < |list.value| && endTime - list.value[j].lastTimeUsed < RECENT_THRESHOLD_MS
  {
    if list.Some? && |list.value| > 0 {
      var stats := list.value;
      var k := MostRecentIndex(stats);
      MostRecentIndexIsFirstMostRecent(stats);
      if exists j :: 0 <= j < |stats| && endTime - stats[j].lastTimeUsed < RECENT_THRESHOLD_MS {
        var j :| 0 <= j < |stats| && endTime - stats[j].lastTimeUsed < RECENT_THRESHOLD_MS;
        assert stats[j].lastTimeUsed <= stats[k].lastTimeUsed;
      }
    }
  }

  /** `getCurrentForegroundApp`: the same last-minute query and the same running-best
      scan as the service, then the 5-second recency filter. */
  method GetCurrentForegroundAppAt(query: UsageQuery, now: int) returns (app: Option<string>)
    ensures app == RecentForegroundPackage(query(ForegroundQueryWindow(now)), now)
    ensures app.None? || app == MostRecentPackage(query(ForegroundQueryWindow(now)))
    ensures query(ForegroundQueryWindow(now)).None? || |query(ForegroundQueryWindow(now)).value| == 0 ==> app.None?
  {
    var usageStatsList := query(ForegroundQueryWindow(now));
    RecentForegroundPackageFilters(usageStatsList, now);
    if usageStatsList.None? || |usageStatsList.value| == 0 {
      return None;
    }
    var recentApp := SelectMostRecent(usageStatsList.value);
    if recentApp.Some? && now - recentApp.value.lastTimeUsed < RECENT_THRESHOLD_MS {
      return Some(recentApp.value.packageName);
    }
    return None;
  }

  /** The channel handler of `configureFlutterEngine`: dispatch on the method name,
      perform the command's effect and answer. Unknown names are answered
      `notImplemented` and have no effect. */
  method HandleMethodCall(call: MethodCall, permissionMode: AppOpsMode, query: UsageQuery, now: int)
    returns (effects: seq<Effect>, reply: Reply)
    ensures reply.NotImplemented? <==> Route(call.name) == Unknown
    ensures Route(call.name) == Unknown ==> effects == []
    ensures Route(call.name) == HasUsageStatsPermission ==>
      effects == [] && reply == Success(BoolValue(permissionMode == ModeAllowed))
    ensures Route(call.name) == OpenUsageStatsSettings ==>
      effects == [OpenUsageAccessSettings] && reply == Success(NullValue)
    ensures Route(call.name) == GetCurrentForegroundApp ==>
      && effects == []
      && reply == Success(match RecentForegroundPackage(query(ForegroundQueryWindow(now)), now)
                          case Some(p) => StringValue(p)
                          case None => NullValue)
    ensures Route(call.name) == StartBlocking ==>
      && effects == [StartBlockerService(StartBlockingIntent(BlockedAppsArgument(call)))]
      && reply == Success(NullValue)
    ensures Route(call.name) == StopBlocking ==>
      effects == [StopBlockerService] && reply == Success(NullValue)
    ensures Route(call.name) == MinimizeApp ==>
      effects == [MoveTaskToBack] && reply == Success(NullValue)
  {
    match Route(call.name)
    case HasUsageStatsPermission =>
      effects, reply := [], Success(BoolValue(HasUsageAccess(permissionMode)));
    case OpenUsageStatsSettings =>
      effects, reply := [OpenUsageAccessSettings], Success(NullValue);
    case GetCurrentForegroundApp =>
      var app := GetCurrentForegroundAppAt(query, now);
      effects := [];
      reply := Success(if app.Some? then StringValue(app.value) else NullValue);
    case StartBlocking =>
      var blockedApps := BlockedAppsArgument(call);
      effects, reply := [StartBlockerService(StartBlockingIntent(blockedApps))], Success(NullValue);
    case StopBlocking =>
      effects, reply := [StopBlockerService], Success(NullValue);
    case MinimizeApp =>
      effects, reply := [MoveTaskToBack], Success(NullValue);
    case Unknown =>
      effects, reply := [], NotImplemented;
  }

  /** End to end, the intent a `startBlocking` call sends makes the service block the
      list the call carried, or nothing when the call carried no list. */
  lemma StartBlockingInstallsArgument(call: MethodCall)
    ensures BlockerService.IsStartBlocking(Some(StartBlockingIntent(BlockedAppsArgument(call))))
    ensures BlockerService.BlockedAppsOf(StartBlockingIntent(BlockedAppsArgument(call))) ==
      if BLOCKED_APPS_ARGUMENT in call.arguments then call.arguments[BLOCKED_APPS_ARGUMENT] else []
  {
  }
}
