/** The blocking service: it holds the list of blocked packages and a repeating timer,
    and on every timer tick looks up the foreground application and, when that
    application is blocked, sends the user to the home screen and posts a notification.
    The enforcement is level-triggered: every tick on which the condition holds acts,
    there is no state remembering that the previous tick already acted. */
module BlockerService {
  import opened Platform
  import opened UsageSelection

  /** The intent action that starts blocking, and the extra carrying the list. */
  const START_BLOCKING: string := "START_BLOCKING"
  const BLOCKED_APPS: string := "BLOCKED_APPS"

  /** `Service.START_STICKY`, the value `onStartCommand` always returns. */
  const START_STICKY: int := 1

  /** The period of the monitoring timer, in milliseconds. */
  const TICK_PERIOD_MS: int := 1000

  /** The observable effects of the service, in the order it causes them. */
  datatype Event =
    | ForegroundStarted(blockedCount: nat)  // startForeground with "Blocking <n> apps"
    | StopSelf                              // stopSelf() on any other start command
    | GoHome                                // startActivity with the HOME-category intent
    | Notified(app: string)                 // notify(2, …) with "App Blocked" naming `app`;
                                            // each such call replaces the previous one on screen

  /** `intent.getStringArrayListExtra(key)`: `None` when the extra is absent. */
  function StringArrayListExtra(intent: Intent, key: string): (extra: Option<seq<string>>)
    ensures extra.Some? <==> key in intent.stringArrayExtras
    ensures extra.Some? ==> extra.value == intent.stringArrayExtras[key]
  {
    if key in intent.stringArrayExtras then Some(intent.stringArrayExtras[key]) else None
  }

  /** Whether a start command asks for blocking (`intent?.action == "START_BLOCKING"`). */
  predicate IsStartBlocking(intent: Option<Intent>)
    ensures intent.None? ==> !IsStartBlocking(intent)
    ensures intent.Some? && intent.value.action.None? ==> !IsStartBlocking(intent)
  {
    intent.Some? && intent.value.action == Some(START_BLOCKING)
  }

  /** The block list a START_BLOCKING intent installs: its BLOCKED_APPS extra, or
      the empty list when the extra is absent. */
  function BlockedAppsOf(intent: Intent): (apps: seq<string>)
    ensures BLOCKED_APPS in intent.stringArrayExtras ==> apps == intent.stringArrayExtras[BLOCKED_APPS]
    ensures BLOCKED_APPS !in intent.stringArrayExtras ==> apps == []
  {
    match StringArrayListExtra(intent, BLOCKED_APPS)
    case Some(list) => list
    case None => []
  }

  /** The condition of `checkForegroundApp`: a foreground app was found and it is
      in the block list. */
  predicate IsBlocked(currentApp: Option<string>, blockedApps: seq<string>)
    ensures currentApp.None? ==> !IsBlocked(currentApp, blockedApps)
    ensures blockedApps == [] ==> !IsBlocked(currentApp, blockedApps)
    ensures IsBlocked(currentApp, blockedApps) ==> exists i :: 0 <= i < |blockedApps| && blockedApps[i] == currentApp.value
  {
    currentApp.Some? && currentApp.value in blockedApps
  }

  /** What one check does for the app it found: redirect then notify when blocked,
      nothing otherwise. */
  function ActionsFor(currentApp: Option<string>, blockedApps: seq<string>): (events: seq<Event>)
    ensures events != [] <==> IsBlocked(currentApp, blockedApps)
    ensures events != [] ==> events == [GoHome, Notified(currentApp.value)]
    ensures forall e :: e in events && e.Notified? ==> e.app in blockedApps
  {
    if IsBlocked(currentApp, blockedApps) then [GoHome, Notified(currentApp.value)] else []
  }

  /** What one firing of the timer is given: the usage-stats query and the clock. */
  datatype TickInput = TickInput(query: UsageQuery, now: int)

  /** The app each of a sequence of checks finds, in order. */
  function Samples(ticks: seq<TickInput>): seq<Option<string>> {
    seq(|ticks|, i requires 0 <= i < |ticks| => MostRecentPackage(ticks[i].query(ForegroundQueryWindow(ticks[i].now))))
  }

  /** The events of a run of consecutive checks against one block list, given the
      app each check found, oldest first. */
  function TickRun(blockedApps: seq<string>, samples: seq<Option<string>>): (events: seq<Event>)
    ensures |events| <= 2 * |samples|
    decreases |samples|
  {
    if samples == [] then []
    else TickRun(blockedApps, samples[..|samples| - 1]) + ActionsFor(samples[|samples| - 1], blockedApps)
  }

  /** The number of checks in `samples` whose app is blocked. */
  function CountBlocked(blockedApps: seq<string>, samples: seq<Option<string>>): nat
    decreases |samples|
  {
    if samples == [] then 0
    else CountBlocked(blockedApps, samples[..|samples| - 1])
         + (if IsBlocked(samples[|samples| - 1], blockedApps) then 1 else 0)
  }

  /** The packages named by the notifications among `events`, in order. */
  function NotifiedApps(events: seq<Event>): seq<string>
    decreases |events|
  {
    if events == [] then []
    else NotifiedApps(events[..|events| - 1])
         + (if events[|events| - 1].Notified? then [events[|events| - 1].app] else [])
  }

  /** The blocked apps the checks found, in order, one entry per blocking check. */
  function BlockedSamples(blockedApps: seq<string>, samples: seq<Option<string>>): seq<string>
    decreases |samples|
  {
    if samples == [] then []
    else BlockedSamples(blockedApps, samples[..|samples| - 1])
         + (if IsBlocked(samples[|samples| - 1], blockedApps) then [samples[|samples| - 1].value] else [])
  }

  lemma {:induction false} NotifiedAppsAppend(a: seq<Event>, b: seq<Event>)
    ensures NotifiedApps(a + b) == NotifiedApps(a) + NotifiedApps(b)
    decreases |b|
  {
    if b == [] {
      assert a + b == a;
    } else {
      var b' := b[..|b| - 1];
      assert (a + b)[..|a + b| - 1] == a + b';
      NotifiedAppsAppend(a, b');
    }
  }

  /** Level triggering: every check that finds a blocked app posts its own notification
      naming that app, so the notifications of a run are exactly the blocked apps
      found, one per check, with nothing merged between consecutive checks. */
  lemma {:induction false} EveryBlockedTickNotifies(blockedApps: seq<string>, samples: seq<Option<string>>)
    ensures NotifiedApps(TickRun(blockedApps, samples)) == BlockedSamples(blockedApps, samples)
    ensures |BlockedSamples(blockedApps, samples)| == CountBlocked(blockedApps, samples)
    decreases |samples|
  {
    if samples != [] {
      var init := samples[..|samples| - 1];
      var last := samples[|samples| - 1];
      EveryBlockedTickNotifies(blockedApps, init);
      NotifiedAppsAppend(TickRun(blockedApps, init), ActionsFor(last, blockedApps));
      var acts := ActionsFor(last, blockedApps);
      if IsBlocked(last, blockedApps) {
        assert acts[..1] == [GoHome];
        assert NotifiedApps(acts[..1]) == NotifiedApps([]) + [];
        assert NotifiedApps(acts) == [last.value];
      }
    }
  }

  /** Every redirect is followed by the notification of the same check: the events of
      a run alternate GoHome, Notified(app), with each notified app in the block
      list, and there are two events per blocking check. */
  lemma {:induction false} TickRunShape(blockedApps: seq<string>, samples: seq<Option<string>>)
    ensures |TickRun(blockedApps, samples)| == 2 * CountBlocked(blockedApps, samples)
    ensures forall k :: 0 <= k < |TickRun(blockedApps, samples)| ==>
      (TickRun(blockedApps, samples)[k] == GoHome <==> k % 2 == 0)
    ensures forall k :: 0 <= k < |TickRun(blockedApps, samples)| && k % 2 == 1 ==>
      TickRun(blockedApps, samples)[k].Notified? && TickRun(blockedApps, samples)[k].app in blockedApps
    decreases |samples|
  {
    if samples != [] {
      var init := samples[..|samples| - 1];
      TickRunShape(blockedApps, init);
      var prefix := TickRun(blockedApps, init);
      var acts := ActionsFor(samples[|samples| - 1], blockedApps);
      assert TickRun(blockedApps, samples) == prefix + acts;
      forall k | 0 <= k < |prefix + acts|
        ensures ((prefix + acts)[k] == GoHome <==> k % 2 == 0)
        ensures k % 2 == 1 ==> (prefix + acts)[k].Notified? && (prefix + acts)[k].app in blockedApps
      {
        if k < |prefix| {
          assert (prefix + acts)[k] == prefix[k];
        } else {
          assert (prefix + acts)[k] == acts[k - |prefix|];
        }
      }
    }
  }

  /** With an empty block list no check ever acts, whatever the probe finds. */
  lemma {:induction false} EmptyBlockListNeverActs(samples: seq<Option<string>>)
    ensures TickRun([], samples) == []
    decreases |samples|
  {
    if samples != [] {
      EmptyBlockListNeverActs(samples[..|samples| - 1]);
    }
  }

  /** A check whose probe found nothing (no usage data) never acts. */
  lemma {:induction false} UnknownNeverActs(blockedApps: seq<string>, samples: seq<Option<string>>)
    requires forall i :: 0 <= i < |samples| ==> samples[i].None?
    ensures TickRun(blockedApps, samples) == []
    decreases |samples|
  {
    if samples != [] {
      UnknownNeverActs(blockedApps, samples[..|samples| - 1]);
    }
  }

  /** Six checks against the block list ["com.games.x"]: the app is in front for three
      checks, the probe finds nothing for two, and the app is back for one. There is
      no debounce, so each of the four blocking checks notifies, not just the first
      of each stretch. */
  lemma ConsecutiveBlockedTicksEachNotify()
    ensures
      var x := Some("com.games.x");
      |NotifiedApps(TickRun(["com.games.x"], [x, x, x, None, None, x]))| == 4
  {
    var x := Some("com.games.x");
    var b := ["com.games.x"];
    var s := [x, x, x, None, None, x];
    EveryBlockedTickNotifies(b, s);
    assert s[..5] == [x, x, x, None, None];
    assert s[..5][..4] == [x, x, x, None];
    assert s[..5][..4][..3] == [x, x, x];
    assert s[..5][..4][..3][..2] == [x, x];
    assert s[..5][..4][..3][..2][..1] == [x];
    assert [x][..0] == [];
    assert CountBlocked(b, [x]) == 1;
    assert CountBlocked(b, [x, x]) == 2;
    assert CountBlocked(b, [x, x, x]) == 3;
    assert CountBlocked(b, [x, x, x, None]) == 3;
    assert CountBlocked(b, [x, x, x, None, None]) == 3;
  }

  /** A timer created by `kotlin.concurrent.timer`: it fires every `period` ms until
      it is cancelled. */
  class Timer {
    const period: int
    var cancelled: bool

    constructor (period: int)
      ensures this.period == period && !cancelled
    {
      this.period := period;
      cancelled := false;
    }

    method Cancel()
      modifies this
      ensures cancelled
    {
      cancelled := true;
    }
  }

  class AppBlockerService {
    /** The monitoring timer; `null` until monitoring starts. */
    var timer: Timer?
    /** The packages to block, replaced by every START_BLOCKING command. */
    var blockedApps: seq<string>
    /** The effects the service has caused so far. */
    var trace: seq<Event>
    /** Every timer this service has created. */
    ghost var timers: set<Timer>

    /** Every timer other than the current one has been cancelled. */
    ghost predicate Valid()
      reads this, timers
    {
      && (timer != null ==> timer in timers)
      && (forall t :: t in timers && t != timer ==> t.cancelled)
    }

    /** The timers of this service that can still fire. */
    ghost function ActiveTimers(): set<Timer>
      reads this, timers
    {
      set t | t in timers && !t.cancelled
    }

    /** Whether the monitoring timer is live. */
    predicate Running()
      reads this, timer
    {
      timer != null && !timer.cancelled
    }

    /** At most one timer of the service is ever active: the current one, when it is
        running. */
    lemma AtMostOneActiveTimer()
      requires Valid()
      ensures ActiveTimers() == if Running() then {timer} else {}
    {
    }

    constructor ()
      ensures Valid() && !Running()
      ensures timer == null && timers == {} && blockedApps == [] && trace == [] && ActiveTimers() == {}
    {
      timer := null;
      blockedApps := [];
      trace := [];
      timers := {};
    }

    /** `onStartCommand`: START_BLOCKING installs the block list carried by the intent
        (empty when absent), goes foreground and (re)starts monitoring; any other
        command, or no intent, stops the service. The result is always START_STICKY. */
    method OnStartCommand(intent: Option<Intent>) returns (result: int)
      requires Valid()
      modifies this, timers
      ensures Valid()
      ensures result == START_STICKY
      ensures IsStartBlocking(intent) ==>
        && blockedApps == BlockedAppsOf(intent.value)
        && trace == old(trace) + [ForegroundStarted(|blockedApps|)]
        && fresh(timer) && timer.period == TICK_PERIOD_MS
        && timers == old(timers) + {timer}
        && (forall t :: t in old(timers) ==> t.cancelled)
        && Running() && ActiveTimers() == {timer}
      ensures !IsStartBlocking(intent) ==>
        && blockedApps == old(blockedApps) && timer == old(timer)
        && trace == old(trace) + [StopSelf]
        && timers == old(timers)
        && forall t :: t in timers ==> t.cancelled == old(t.cancelled)
    {
      if IsStartBlocking(intent) {
        blockedApps := BlockedAppsOf(intent.value);
        trace := trace + [ForegroundStarted(|blockedApps|)];
        StartMonitoring();
      } else {
        trace := trace + [StopSelf];
      }
      result := START_STICKY;
    }

    /** `startMonitoring`: cancel the previous timer, if any, and create a new one
        with a one-second period. Afterwards that new timer is the only active one. */
    method StartMonitoring()
      requires Valid()
      modifies this, timers
      ensures Valid()
      ensures fresh(timer) && timer.period == TICK_PERIOD_MS && Running()
      ensures ActiveTimers() == {timer}
      ensures timers == old(timers) + {timer}
      ensures forall t :: t in old(timers) ==> t.cancelled
      ensures blockedApps == old(blockedApps) && trace == old(trace)
    {
      if timer != null {
        timer.Cancel();
      }
      var t := new Timer(TICK_PERIOD_MS);
      timer := t;
      timers := timers + {t};
    }

    /** `getForegroundApp`: query the usage stats of the last minute and return the
        package of the first most recently used entry; `None` when the query gives
        a null or empty list. */
    method GetForegroundApp(query: UsageQuery, now: int) returns (app: Option<string>)
      ensures app == MostRecentPackage(query(ForegroundQueryWindow(now)))
      ensures var list := query(ForegroundQueryWindow(now));
        && (app.None? <==> list.None? || |list.value| == 0)
        && (app.Some? ==> IsFirstMostRecent(list.value, MostRecentIndex(list.value))
                          && app.value == list.value[MostRecentIndex(list.value)].packageName)
    {
      var usageStatsList := query(ForegroundQueryWindow(now));
      if usageStatsList.None? || |usageStatsList.value| == 0 {
        return None;
      }
      var recentApp := SelectMostRecent(usageStatsList.value);
      MostRecentIndexIsFirstMostRecent(usageStatsList.value);
      app := Some(recentApp.value.packageName);
    }

    /** `checkForegroundApp`: redirect and notify exactly when the foreground app is
        known and in the block list. */
    method CheckForegroundApp(query: UsageQuery, now: int)
      modifies this`trace
      ensures trace == old(trace) + ActionsFor(MostRecentPackage(query(ForegroundQueryWindow(now))), blockedApps)
    {
      var currentApp := GetForegroundApp(query, now);
      if currentApp.Some? && currentApp.value in blockedApps {
        trace := trace + [GoHome];
        trace := trace + [Notified(currentApp.value)];
      }
    }

    /** One firing of timer `t`: a cancelled timer does not fire, a live one runs the
        check. Only the service's current timer can act. */
    method Tick(t: Timer, query: UsageQuery, now: int)
      requires Valid() && t in timers
      modifies this`trace
      ensures Valid()
      ensures trace == old(trace) +
        (if t.cancelled then [] else ActionsFor(MostRecentPackage(query(ForegroundQueryWindow(now))), blockedApps))
      ensures t != timer ==> trace == old(trace)
    {
      if !t.cancelled {
        CheckForegroundApp(query, now);
      }
    }

    /** `onDestroy`: cancel the timer; afterwards no timer of the service can fire. */
    method OnDestroy()
      requires Valid()
      modifies timers
      ensures Valid() && !Running() && ActiveTimers() == {}
      ensures blockedApps == old(blockedApps) && trace == old(trace)
    {
      if timer != null {
        timer.Cancel();
      }
    }
  }

  /** A running service whose current timer fires once per element of `ticks` records
      exactly the events `TickRun` gives for the apps those checks find, so the lemmas
      about `TickRun` are lemmas about the service. */
  method RunTicks(s: AppBlockerService, ticks: seq<TickInput>)
    requires s.Valid() && s.Running()
    modifies s`trace
    ensures s.Valid() && s.Running()
    ensures s.trace == old(s.trace) + TickRun(s.blockedApps, Samples(ticks))
  {
    for i := 0 to |ticks|
      invariant s.Valid() && s.Running()
      invariant s.trace == old(s.trace) + TickRun(s.blockedApps, Samples(ticks[..i]))
    {
      var before := Samples(ticks[..i]);
      s.Tick(s.timer, ticks[i].query, ticks[i].now);
      assert Samples(ticks[..i + 1]) == before + [Samples(ticks)[i]];
      assert (before + [Samples(ticks)[i]])[..|before|] == before;
    }
    assert ticks[..|ticks|] == ticks;
  }

  /** After the service is destroyed, no tick of any of its timers acts. */
  method DestroyedServiceNeverActs(s: AppBlockerService, t: Timer, query: UsageQuery, now: int)
    requires s.Valid() && t in s.timers
    modifies s.timers, s`trace
    ensures s.trace == old(s.trace)
  {
    s.OnDestroy();
    s.Tick(t, query, now);
  }
}
