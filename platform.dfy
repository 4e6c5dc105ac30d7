/** Plain values standing for the Android and Flutter objects that the blocker reads.
    The operating system calls that produce them are parameters of the operations
    that use them. */
module Platform {

  /** Kotlin's nullable `T?`: `None` is `null`. */
  datatype Option<T> = None | Some(value: T)

  /** One entry of the list returned by the usage-stats query: the package and the
      time (milliseconds since the epoch) it was last in the foreground. */
  datatype UsageStat = UsageStat(packageName: string, lastTimeUsed: int)

  /** `UsageStatsManager.INTERVAL_DAILY`. */
  const INTERVAL_DAILY: int := 0

  /** The arguments of one `queryUsageStats(intervalType, beginTime, endTime)` call. */
  datatype Window = Window(intervalType: int, beginTime: int, endTime: int)

  /** The usage-stats query as a function of its arguments; `None` is a null list. */
  type UsageQuery = Window -> Option<seq<UsageStat>>

  /** An Android intent, reduced to its action and its string-array-list extras. */
  datatype Intent = Intent(action: Option<string>, stringArrayExtras: map<string, seq<string>>)

  /** The modes `AppOpsManager.checkOpNoThrow` can report. */
  datatype AppOpsMode = ModeAllowed | ModeIgnored | ModeErrored | ModeDefault | ModeForeground
}
