/** Selecting the most recently used application from a usage-stats list: the loop
    that both the blocking service and the activity run over the query result. */
module UsageSelection {
  import opened Platform

  /** How far back the usage-stats query looks, in milliseconds (one minute). */
  const LOOKBACK_MS: int := 1000 * 60

  /** The query both the service and the activity issue at time `now`: daily
      buckets over the last minute, up to `now`. */
  function ForegroundQueryWindow(now: int): (w: Window)
    ensures w.intervalType == INTERVAL_DAILY
    ensures w.endTime == now && w.endTime - w.beginTime == 60000
  {
    Window(INTERVAL_DAILY, now - LOOKBACK_MS, now)
  }

  /** `k` is the first position in `stats` whose `lastTimeUsed` is the largest. */
  predicate IsFirstMostRecent(stats: seq<UsageStat>, k: int) {
    && 0 <= k < |stats|
    && (forall j :: 0 <= j < |stats| ==> stats[j].lastTimeUsed <= stats[k].lastTimeUsed)
    && (forall j :: 0 <= j < k ==> stats[j].lastTimeUsed < stats[k].lastTimeUsed)
  }

  /** Reference definition of the selected position: the head is kept unless the
      best of the tail was used strictly later. */
  function MostRecentIndex(stats: seq<UsageStat>): (k: int)
    requires |stats| > 0
    ensures 0 <= k < |stats|
    decreases |stats|
  {
    if |stats| == 1 then 0
    else
      var k := 1 + MostRecentIndex(stats[1..]);
      if stats[k].lastTimeUsed > stats[0].lastTimeUsed then k else 0
  }

  lemma {:induction false} MostRecentIndexIsFirstMostRecent(stats: seq<UsageStat>)
    requires |stats| > 0
    ensures IsFirstMostRecent(stats, MostRecentIndex(stats))
    decreases |stats|
  {
    if |stats| > 1 {
      var tail := stats[1..];
      MostRecentIndexIsFirstMostRecent(tail);
      var t := MostRecentIndex(tail);
      assert forall j :: 1 <= j < |stats| ==> stats[j] == tail[j - 1];
      if stats[1 + t].lastTimeUsed > stats[0].lastTimeUsed {
        assert forall j :: 1 <= j < |stats| ==> stats[j].lastTimeUsed <= stats[1 + t].lastTimeUsed by {
          forall j | 1 <= j < |stats| ensures stats[j].lastTimeUsed <= stats[1 + t].lastTimeUsed {
            assert tail[j - 1].lastTimeUsed <= tail[t].lastTimeUsed;
          }
        }
        assert forall j :: 1 <= j < 1 + t ==> stats[j].lastTimeUsed < stats[1 + t].lastTimeUsed by {
          forall j | 1 <= j < 1 + t ensures stats[j].lastTimeUsed < stats[1 + t].lastTimeUsed {
            assert tail[j - 1].lastTimeUsed < tail[t].lastTimeUsed;
          }
        }
      } else {
        forall j | 1 <= j < |stats| ensures stats[j].lastTimeUsed <= stats[0].lastTimeUsed {
          assert tail[j - 1].lastTimeUsed <= tail[t].lastTimeUsed;
        }
      }
    }
  }

  /** At most one position is the first most recent one. */
  lemma FirstMostRecentUnique(stats: seq<UsageStat>, k1: int, k2: int)
    requires IsFirstMostRecent(stats, k1) && IsFirstMostRecent(stats, k2)
    ensures k1 == k2
  {
    // Both are maxima, so they carry the same time; a strict predecessor cannot.
    assert stats[k1].lastTimeUsed == stats[k2].lastTimeUsed;
  }

  /** In a non-empty list, a position is the first most recent one exactly when it is
      the one `MostRecentIndex` computes. */
  lemma MostRecentIndexCharacterized(stats: seq<UsageStat>, k: int)
    requires |stats| > 0
    ensures IsFirstMostRecent(stats, k) <==> k == MostRecentIndex(stats)
  {
    MostRecentIndexIsFirstMostRecent(stats);
    if IsFirstMostRecent(stats, k) {
      FirstMostRecentUnique(stats, k, MostRecentIndex(stats));
    }
  }

  /** The selected usage entry of a list, `None` for the empty list. */
  function MostRecent(stats: seq<UsageStat>): (recent: Option<UsageStat>)
    ensures recent.None? <==> |stats| == 0
    ensures recent.Some? ==> recent.value in stats
  {
    if |stats| == 0 then None else Some(stats[MostRecentIndex(stats)])
  }

  /** What the selection promises: nothing for the empty list; otherwise an entry of
      the list, used no earlier than any other, and the first such entry. */
  lemma MostRecentIsFirstMaximum(stats: seq<UsageStat>)
    ensures MostRecent(stats).None? <==> |stats| == 0
    ensures MostRecent(stats).Some? ==> MostRecent(stats).value in stats
    ensures MostRecent(stats).Some? ==>
      forall j :: 0 <= j < |stats| ==> stats[j].lastTimeUsed <= MostRecent(stats).value.lastTimeUsed
    ensures MostRecent(stats).Some? ==>
      exists k :: IsFirstMostRecent(stats, k) && MostRecent(stats).value == stats[k]
  {
    if |stats| > 0 {
      MostRecentIndexIsFirstMostRecent(stats);
    }
  }

  /** On a tie for the latest time the earliest entry wins: the selection is never
      an entry that comes after another entry with the same time. */
  lemma {:induction false} TieGoesToFirst(stats: seq<UsageStat>, i: int, j: int)
    requires 0 <= i < j < |stats|
    requires stats[i].lastTimeUsed == stats[j].lastTimeUsed
    ensures MostRecentIndex(stats) != j
  {
    MostRecentIndexIsFirstMostRecent(stats);
  }

  /** The package the probe reports for a query result: `None` for a null or empty
      list, otherwise the package of the selected entry. */
  function MostRecentPackage(list: Option<seq<UsageStat>>): (app: Option<string>)
    ensures app.None? <==> list.None? || |list.value| == 0
    ensures app.Some? ==> exists i :: 0 <= i < |list.value| && list.value[i].packageName == app.value
  {
    if list.None? then None
    else match MostRecent(list.value)
      case None => None
      case Some(s) => Some(s.packageName)
  }

  lemma MostRecentPackageSpec(list: Option<seq<UsageStat>>)
    ensures MostRecentPackage(list).None? <==> list.None? || |list.value| == 0
    ensures MostRecentPackage(list).Some? ==>
      exists k :: IsFirstMostRecent(list.value, k) && MostRecentPackage(list).value == list.value[k].packageName
  {
    if list.Some? {
      MostRecentIsFirstMaximum(list.value);
    }
  }

  /** The running-best scan: `recentApp` starts as null and is replaced by an entry
      only when that entry was used strictly later. */
  method SelectMostRecent(stats: seq<UsageStat>) returns (recentApp: Option<UsageStat>)
    ensures recentApp == MostRecent(stats)
    ensures recentApp.None? <==> |stats| == 0
    ensures recentApp.Some? ==> exists k :: IsFirstMostRecent(stats, k) && recentApp.value == stats[k]
  {
    recentApp := None;
    ghost var best := 0;
    for i := 0 to |stats|
      invariant recentApp.None? <==> i == 0
      invariant i > 0 ==> IsFirstMostRecent(stats[..i], best) && recentApp == Some(stats[best])
    {
      var usageStats := stats[i];
      if recentApp.None? || usageStats.lastTimeUsed > recentApp.value.lastTimeUsed {
        recentApp := Some(usageStats);
        best := i;
      }
      assert forall j :: 0 <= j <= i ==> stats[..i + 1][j] == stats[j];
    }
    if |stats| > 0 {
      assert stats[..|stats|] == stats;
      MostRecentIndexCharacterized(stats, best);
    }
  }
}
