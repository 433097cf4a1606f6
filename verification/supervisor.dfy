/** The crash supervisor of the local engine: a sliding-window restart limiter. */
module Supervisor {
  import opened Prelude

  datatype RestartPolicy = RestartPolicy(maxRestarts: U32, window: nat)

  datatype Health = Running(restarts: U32) | Restarting(attempt: U32) | Failed(failedAfter: U32)

  datatype Exit = StillRunning | Exited | WaitFailed

  /** What one poll observes: the stop flag, the clock, the child, and how a restart would go. */
  datatype Poll = Poll(stop: bool, now: nat, exit: Exit, restarts: bool)

  function Sat32(n: nat): U32 {
    Min(n, U32_MAX)
  }

  /** `now.duration_since(earlier)`, which is zero when the clock has not advanced. */
  function Since(now: nat, earlier: nat): nat {
    SatSub(now, earlier)
  }

  // ----- The specification, told from the log of every restart attempt ever made

  datatype Monitor = Monitor(log: seq<nat>, now: nat, health: Health, done: bool)

  const FRESH: Monitor := Monitor([], 0, Running(0), false)

  /** The attempts of a log that the window ending now still remembers. */
  function Recent(log: seq<nat>, now: nat, window: nat): (r: seq<nat>)
    ensures |r| <= |log|
  {
    if log == [] then []
    else
      var rest, last := Recent(log[..|log| - 1], now, window), log[|log| - 1];
      if Since(now, last) <= window then rest + [last] else rest
  }

  function Step(policy: RestartPolicy, m: Monitor, poll: Poll): Monitor {
    if poll.stop then m.(done := true)
    else
      var recent := Recent(m.log, poll.now, policy.window);
      var count := Sat32(|recent|);
      var aged := m.(now := poll.now,
                     health := if |recent| != |Recent(m.log, m.now, policy.window)| && m.health.Running?
                               then Running(count) else m.health);
      match poll.exit
      case WaitFailed => aged.(health := Failed(count), done := true)
      case StillRunning => aged
      case Exited =>
        if count >= policy.maxRestarts then aged.(health := Failed(count), done := true)
        else
          var attempted := aged.(log := m.log + [poll.now]);
          if poll.restarts then attempted.(health := Running(Sat32(|recent| + 1)))
          else if count + 1 >= policy.maxRestarts then attempted.(health := Failed(Sat32(count + 1)), done := true)
          else attempted.(health := Restarting(Sat32(count + 1)))
  }

  /** A run of polls; nothing happens after the monitor ended. */
  function Run(policy: RestartPolicy, polls: seq<Poll>): Monitor {
    if polls == [] then FRESH
    else
      var before := Run(policy, polls[..|polls| - 1]);
      if before.done then before else Step(policy, before, polls[|polls| - 1])
  }

  ghost predicate ClockAdvances(polls: seq<Poll>) {
    forall i, j :: 0 <= i < j < |polls| ==> polls[i].now <= polls[j].now
  }

  // ----- Invariants of every run

  ghost predicate Ascending(s: seq<nat>) {
    forall i, j :: 0 <= i < j < |s| ==> s[i] <= s[j]
  }

  /** Any `max + 1` consecutive attempts stretch over more than the window. */
  ghost predicate Spaced(log: seq<nat>, max: nat, window: nat) {
    forall k :: max <= k < |log| ==> log[k] - log[k - max] > window
  }

  ghost predicate Sound(policy: RestartPolicy, m: Monitor) {
    && Ascending(m.log) && (forall i :: 0 <= i < |m.log| ==> m.log[i] <= m.now)
    && Spaced(m.log, policy.maxRestarts, policy.window)
    && |Recent(m.log, m.now, policy.window)| <= policy.maxRestarts
    && (m.health.Running? ==> m.health.restarts == |Recent(m.log, m.now, policy.window)|)
    && (m.health.Failed? ==> m.done)
  }

  /** In an ascending log the window keeps a suffix. */
  lemma {:induction false} RecentIsSuffix(log: seq<nat>, now: nat, window: nat)
    requires Ascending(log)
    ensures Recent(log, now, window) == log[|log| - |Recent(log, now, window)|..]
    ensures forall i :: 0 <= i < |log| - |Recent(log, now, window)| ==> Since(now, log[i]) > window
    ensures forall i :: |log| - |Recent(log, now, window)| <= i < |log| ==> Since(now, log[i]) <= window
  {
    if log != [] {
      var init, last := log[..|log| - 1], log[|log| - 1];
      assert log == init + [last];
      RecentIsSuffix(init, now, window);
      var r := Recent(init, now, window);
      if Since(now, last) <= window {
        assert Recent(log, now, window) == r + [last];
        assert log[|init| - |r|..] == init[|init| - |r|..] + [last];
      } else {
        assert forall i :: 0 <= i < |init| ==> init[i] <= last;
        assert r == [];
      }
    }
  }

  /** The window only forgets as time goes on. */
  lemma RecentShrinks(log: seq<nat>, now: nat, later: nat, window: nat)
    requires Ascending(log) && now <= later
    ensures |Recent(log, later, window)| <= |Recent(log, now, window)|
  {
    RecentIsSuffix(log, now, window);
    RecentIsSuffix(log, later, window);
    var (a, b) := (|log| - |Recent(log, now, window)|, |log| - |Recent(log, later, window)|);
    if 0 < a {
      assert Since(now, log[a - 1]) > window;
      assert Since(later, log[a - 1]) > window;
    }
  }

  lemma RecentSnoc(log: seq<nat>, now: nat, window: nat)
    ensures Recent(log + [now], now, window) == Recent(log, now, window) + [now]
  {
    assert (log + [now])[..|log|] == log;
  }

  lemma SoundFields(policy: RestartPolicy, m: Monitor, log: seq<nat>, now: nat)
    requires m.log == log && m.now == now
    requires Ascending(log) && (forall i :: 0 <= i < |log| ==> log[i] <= now)
    requires Spaced(log, policy.maxRestarts, policy.window)
    requires |Recent(log, now, policy.window)| <= policy.maxRestarts
    requires m.health.Running? ==> m.health.restarts == |Recent(log, now, policy.window)|
    requires m.health.Failed? ==> m.done
    ensures Sound(policy, m)
  {
  }

  lemma EarlierStill(log: seq<nat>, now: nat, later: nat)
    requires now <= later && forall i :: 0 <= i < |log| ==> log[i] <= now
    ensures forall i :: 0 <= i < |log| ==> log[i] <= later
  {
  }

  lemma SpacedSnoc(log: seq<nat>, now: nat, max: nat, window: nat)
    requires Ascending(log) && (forall i :: 0 <= i < |log| ==> log[i] <= now)
    requires Spaced(log, max, window) && |Recent(log, now, window)| < max
    ensures Spaced(log + [now], max, window) && Ascending(log + [now])
  {
    RecentIsSuffix(log, now, window);
    var all := log + [now];
    forall k | max <= k < |all| ensures all[k] - all[k - max] > window {
      if k == |log| {
        assert Since(now, log[k - max]) > window;
      } else {
        assert log[k] - log[k - max] > window;
      }
    }
  }

  /** A log with one more attempt, made while the window had room. */
  lemma LoggedSound(policy: RestartPolicy, log: seq<nat>, now: nat)
    requires Ascending(log) && (forall i :: 0 <= i < |log| ==> log[i] <= now)
    requires Spaced(log, policy.maxRestarts, policy.window)
    requires |Recent(log, now, policy.window)| < policy.maxRestarts
    ensures Ascending(log + [now]) && (forall i :: 0 <= i < |log + [now]| ==> (log + [now])[i] <= now)
    ensures Spaced(log + [now], policy.maxRestarts, policy.window)
    ensures |Recent(log + [now], now, policy.window)| == |Recent(log, now, policy.window)| + 1
  {
    RecentSnoc(log, now, policy.window);
    SpacedSnoc(log, now, policy.maxRestarts, policy.window);
  }

  /** The turn that makes a restart attempt, field by field. */
  lemma AttemptShape(policy: RestartPolicy, m: Monitor, poll: Poll)
    requires !m.done && !poll.stop && poll.exit.Exited?
    requires |Recent(m.log, poll.now, policy.window)| < policy.maxRestarts
    ensures var (next, count) := (Step(policy, m, poll), |Recent(m.log, poll.now, policy.window)| + 1);
            && next.log == m.log + [poll.now] && next.now == poll.now
            && (next.health.Running? ==> next.health.restarts == count)
            && (next.health.Failed? ==> next.done)
  {
  }

  lemma AttemptSound(policy: RestartPolicy, m: Monitor, poll: Poll)
    requires Sound(policy, m) && !m.done && m.now <= poll.now && !poll.stop && poll.exit.Exited?
    requires |Recent(m.log, poll.now, policy.window)| < policy.maxRestarts
    ensures Sound(policy, Step(policy, m, poll))
  {
    EarlierStill(m.log, m.now, poll.now);
    LoggedSound(policy, m.log, poll.now);
    AttemptShape(policy, m, poll);
    SoundFields(policy, Step(policy, m, poll), m.log + [poll.now], poll.now);
  }

  lemma StepSound(policy: RestartPolicy, m: Monitor, poll: Poll)
    requires Sound(policy, m) && !m.done && m.now <= poll.now
    ensures Sound(policy, Step(policy, m, poll))
  {
    var recent := Recent(m.log, poll.now, policy.window);
    RecentShrinks(m.log, m.now, poll.now, policy.window);
    if !poll.stop && poll.exit.Exited? && Sat32(|recent|) < policy.maxRestarts {
      AttemptSound(policy, m, poll);
    }
  }

  lemma {:induction false} RunSound(policy: RestartPolicy, polls: seq<Poll>)
    requires ClockAdvances(polls)
    ensures Sound(policy, Run(policy, polls))
    ensures polls != [] ==> Run(policy, polls).now <= polls[|polls| - 1].now
    ensures polls == [] ==> Run(policy, polls).now == 0
  {
    if polls != [] {
      var init, last := polls[..|polls| - 1], polls[|polls| - 1];
      RunSound(policy, init);
      assert init != [] ==> init[|init| - 1] == polls[|polls| - 2];
      if !Run(policy, init).done {
        StepSound(policy, Run(policy, init), last);
      }
    }
  }

  // ----- The restart budget

  /** How many attempts fall into a closed time interval. */
  function CountIn(log: seq<nat>, from: nat, to: nat): nat {
    if log == [] then 0
    else CountIn(log[..|log| - 1], from, to) + (if from <= log[|log| - 1] <= to then 1 else 0)
  }

  lemma {:induction false} CountFromIndex(log: seq<nat>, from: nat, to: nat, first: nat)
    requires first <= |log| && forall i :: 0 <= i < first ==> log[i] < from
    ensures CountIn(log, from, to) <= |log| - first
  {
    if first < |log| {
      CountFromIndex(log[..|log| - 1], from, to, first);
    } else if log != [] {
      CountFromIndex(log[..|log| - 1], from, to, first - 1);
    }
  }

  lemma LastInWindow(log: seq<nat>, max: nat, window: nat, from: nat)
    requires Ascending(log) && Spaced(log, max, window) && log != [] && from <= log[|log| - 1] <= from + window
    ensures CountIn(log, from, from + window) <= max
  {
    var n := |log| - 1;
    var first := if n < max then 0 else n - max + 1;
    if n >= max {
      assert log[n] - log[n - max] > window;
      assert forall i :: 0 <= i < first ==> log[i] <= log[n - max];
    }
    CountFromIndex(log, from, from + window, first);
  }

  lemma {:induction false} SpacedCount(log: seq<nat>, max: nat, window: nat, from: nat)
    requires Ascending(log) && Spaced(log, max, window)
    ensures CountIn(log, from, from + window) <= max
  {
    if log != [] {
      var n := |log| - 1;
      if from <= log[n] <= from + window {
        LastInWindow(log, max, window, from);
      } else {
        SpacedCount(log[..n], max, window, from);
      }
    }
  }

  /** Over any run, every interval as long as the window holds at most `max_restarts` restart attempts. */
  lemma RestartBudget(policy: RestartPolicy, polls: seq<Poll>, from: nat)
    requires ClockAdvances(polls)
    ensures CountIn(Run(policy, polls).log, from, from + policy.window) <= policy.maxRestarts
  {
    RunSound(policy, polls);
    SpacedCount(Run(policy, polls).log, policy.maxRestarts, policy.window, from);
  }

  lemma GivesUpStep(policy: RestartPolicy, m: Monitor, poll: Poll)
    requires Sound(policy, m) && !m.done && m.now <= poll.now && !poll.exit.WaitFailed?
    ensures Step(policy, m, poll).health.Failed? ==> Step(policy, m, poll).health.failedAfter == policy.maxRestarts
  {
    RecentShrinks(m.log, m.now, poll.now, policy.window);
  }

  /** Unless waiting itself failed, the monitor gives up only when the whole budget is spent. */
  lemma {:induction false} GivesUpOnlyWhenSpent(policy: RestartPolicy, polls: seq<Poll>)
    requires ClockAdvances(polls) && forall i :: 0 <= i < |polls| ==> !polls[i].exit.WaitFailed?
    ensures Run(policy, polls).health.Failed? ==> Run(policy, polls).health.failedAfter == policy.maxRestarts
  {
    if polls != [] {
      var init, last := polls[..|polls| - 1], polls[|polls| - 1];
      GivesUpOnlyWhenSpent(policy, init);
      RunSound(policy, init);
      if !Run(policy, init).done {
        assert init != [] ==> init[|init| - 1] == polls[|polls| - 2];
        GivesUpStep(policy, Run(policy, init), last);
      }
    }
  }

  /** A failed or stopped monitor never changes again. */
  lemma {:induction false} DoneIsFinal(policy: RestartPolicy, polls: seq<Poll>, more: seq<Poll>)
    requires Run(policy, polls).done
    ensures Run(policy, polls + more) == Run(policy, polls)
  {
    if more == [] {
      assert polls + more == polls;
    } else {
      var init := more[..|more| - 1];
      assert (polls + more)[..|polls + more| - 1] == polls + init;
      DoneIsFinal(policy, polls, init);
    }
  }

  // ----- What one more poll does

  /** The attempts that the window ending now still counts. */
  function InWindow(policy: RestartPolicy, log: seq<nat>, now: nat): nat {
    CountIn(log, SatSub(now, policy.window), now)
  }

  lemma {:induction false} RecentCounts(policy: RestartPolicy, log: seq<nat>, now: nat)
    requires forall i :: 0 <= i < |log| ==> log[i] <= now
    ensures |Recent(log, now, policy.window)| == InWindow(policy, log, now)
  {
    if log != [] {
      RecentCounts(policy, log[..|log| - 1], now);
    }
  }

  /** The poll that ends a monitor whose window holds `count` attempts. */
  predicate Ends(policy: RestartPolicy, count: nat, poll: Poll) {
    || poll.stop
    || poll.exit.WaitFailed?
    || (poll.exit.Exited? && count >= policy.maxRestarts)
    || (poll.exit.Exited? && !poll.restarts && count + 1 >= policy.maxRestarts)
  }

  /** One more poll of a monitor that has not ended, and the attempts its window then holds. */
  lemma OneMore(policy: RestartPolicy, polls: seq<Poll>, poll: Poll) returns (count: nat)
    requires ClockAdvances(polls + [poll]) && !Run(policy, polls).done
    ensures count == InWindow(policy, Run(policy, polls).log, poll.now) <= policy.maxRestarts
    ensures |Recent(Run(policy, polls).log, poll.now, policy.window)| == count
    ensures Run(policy, polls).health.Running? ==>
              Run(policy, polls).health.restarts
              == |Recent(Run(policy, polls).log, Run(policy, polls).now, policy.window)|
    ensures Run(policy, polls + [poll]) == Step(policy, Run(policy, polls), poll)
  {
    var before := Run(policy, polls);
    var all := polls + [poll];
    assert all[..|polls|] == polls;
    assert forall i, j :: 0 <= i < j < |polls| ==> all[i].now <= all[j].now;
    RunSound(policy, polls);
    assert polls != [] ==> all[|polls| - 1].now <= all[|polls|].now;
    EarlierStill(before.log, before.now, poll.now);
    RecentShrinks(before.log, before.now, poll.now, policy.window);
    RecentCounts(policy, before.log, poll.now);
    count := InWindow(policy, before.log, poll.now);
  }

  /** A monitor starts with a running engine and no attempt made. */
  lemma StartsRunning(policy: RestartPolicy)
    ensures Run(policy, []).health == Running(0) && Run(policy, []).log == [] && !Run(policy, []).done
  {
  }

  /** A stop request ends the monitor and changes nothing else. */
  lemma StopPoll(policy: RestartPolicy, polls: seq<Poll>, poll: Poll)
    requires ClockAdvances(polls + [poll]) && !Run(policy, polls).done && poll.stop
    ensures Run(policy, polls + [poll]) == Run(policy, polls).(done := true)
  {
    var _ := OneMore(policy, polls, poll);
  }

  /** While the child runs, a running health shows the window's count and any other health stays. */
  lemma QuietPoll(policy: RestartPolicy, polls: seq<Poll>, poll: Poll)
    requires ClockAdvances(polls + [poll]) && !Run(policy, polls).done && !poll.stop && poll.exit.StillRunning?
    ensures var (before, after) := (Run(policy, polls), Run(policy, polls + [poll]));
            && after.log == before.log && after.now == poll.now && !after.done
            && (after.health.Running? <==> before.health.Running?)
            && (if before.health.Running? then after.health.restarts == InWindow(policy, before.log, poll.now)
                else after.health == before.health)
  {
    var _ := OneMore(policy, polls, poll);
  }

  /** When waiting for the child fails, the monitor ends as failed. */
  lemma WaitFailedPoll(policy: RestartPolicy, polls: seq<Poll>, poll: Poll)
    requires ClockAdvances(polls + [poll]) && !Run(policy, polls).done && !poll.stop && poll.exit.WaitFailed?
    ensures var (before, after) := (Run(policy, polls), Run(policy, polls + [poll]));
            && after.log == before.log && after.now == poll.now && after.done
            && after.health.Failed? && after.health.failedAfter == InWindow(policy, before.log, poll.now)
  {
    var _ := OneMore(policy, polls, poll);
  }

  /** An exit with the budget spent ends the monitor as failed, without another attempt. */
  lemma SpentPoll(policy: RestartPolicy, polls: seq<Poll>, poll: Poll)
    requires ClockAdvances(polls + [poll]) && !Run(policy, polls).done && !poll.stop && poll.exit.Exited?
    requires InWindow(policy, Run(policy, polls).log, poll.now) == policy.maxRestarts
    ensures var (before, after) := (Run(policy, polls), Run(policy, polls + [poll]));
            && after.log == before.log && after.now == poll.now && after.done
            && after.health == Failed(policy.maxRestarts)
  {
    var _ := OneMore(policy, polls, poll);
  }

  /** Otherwise an exit is answered by an attempt; if it succeeds, the child runs and the attempt is counted. */
  lemma RestartedPoll(policy: RestartPolicy, polls: seq<Poll>, poll: Poll)
    requires ClockAdvances(polls + [poll]) && !Run(policy, polls).done && !poll.stop && poll.exit.Exited?
    requires InWindow(policy, Run(policy, polls).log, poll.now) < policy.maxRestarts && poll.restarts
    ensures var (before, after) := (Run(policy, polls), Run(policy, polls + [poll]));
            && after.log == before.log + [poll.now] && after.now == poll.now && !after.done
            && after.health == Running(InWindow(policy, before.log, poll.now) + 1)
  {
    var _ := OneMore(policy, polls, poll);
  }

  /** If it fails, it is counted too; the one that spends the budget ends the monitor as failed. */
  lemma RestartFailedPoll(policy: RestartPolicy, polls: seq<Poll>, poll: Poll)
    requires ClockAdvances(polls + [poll]) && !Run(policy, polls).done && !poll.stop && poll.exit.Exited?
    requires InWindow(policy, Run(policy, polls).log, poll.now) < policy.maxRestarts && !poll.restarts
    ensures var (before, after) := (Run(policy, polls), Run(policy, polls + [poll]));
            var attempt := InWindow(policy, before.log, poll.now) + 1;
            && after.log == before.log + [poll.now] && after.now == poll.now
            && (after.done <==> attempt == policy.maxRestarts)
            && after.health == if attempt == policy.maxRestarts then Failed(attempt) else Restarting(attempt)
  {
    var _ := OneMore(policy, polls, poll);
  }

  /** Some poll of the run ended it. */
  ghost predicate Ended(policy: RestartPolicy, polls: seq<Poll>) {
    exists k :: 0 <= k < |polls| && Ends(policy, InWindow(policy, Run(policy, polls[..k]).log, polls[k].now), polls[k])
  }

  lemma EndedSnoc(policy: RestartPolicy, polls: seq<Poll>, poll: Poll)
    ensures Ended(policy, polls + [poll]) <==>
            Ended(policy, polls) || Ends(policy, InWindow(policy, Run(policy, polls).log, poll.now), poll)
  {
    var all := polls + [poll];
    assert all[..|polls|] == polls;
    assert forall k :: 0 <= k < |polls| ==> all[..k] == polls[..k] && all[k] == polls[k];
    if Ended(policy, polls) {
      var k :| 0 <= k < |polls| && Ends(policy, InWindow(policy, Run(policy, polls[..k]).log, polls[k].now), polls[k]);
      assert Ends(policy, InWindow(policy, Run(policy, all[..k]).log, all[k].now), all[k]);
    }
    if Ends(policy, InWindow(policy, Run(policy, polls).log, poll.now), poll) {
      assert all[|polls|] == poll;
    }
  }

  lemma StepEnds(policy: RestartPolicy, m: Monitor, poll: Poll, count: nat)
    requires !m.done && count == |Recent(m.log, poll.now, policy.window)| <= policy.maxRestarts
    ensures Step(policy, m, poll).done <==> Ends(policy, count, poll)
  {
  }

  lemma EndsNow(policy: RestartPolicy, polls: seq<Poll>, poll: Poll)
    requires ClockAdvances(polls + [poll])
    ensures Run(policy, polls + [poll]).done <==>
            Run(policy, polls).done || Ends(policy, InWindow(policy, Run(policy, polls).log, poll.now), poll)
  {
    if !Run(policy, polls).done {
      var count := OneMore(policy, polls, poll);
      StepEnds(policy, Run(policy, polls), poll, count);
    } else {
      assert (polls + [poll])[..|polls|] == polls;
    }
  }

  /**
   A monitor has ended exactly when it was stopped, waiting failed, the child exited with the budget spent, or a
   failed attempt spent it.
   */
  lemma {:induction false} EndsIff(policy: RestartPolicy, polls: seq<Poll>)
    requires ClockAdvances(polls)
    ensures Run(policy, polls).done <==> Ended(policy, polls)
    decreases |polls|
  {
    if polls != [] {
      var init, last := polls[..|polls| - 1], polls[|polls| - 1];
      assert polls == init + [last];
      assert ClockAdvances(init);
      EndsIff(policy, init);
      EndedSnoc(policy, init, last);
      EndsNow(policy, init, last);
    }
  }

  // ----- The monitor loop with its pruned deque

  /** Pops old attempts off the front; because attempts are in time order this is the whole filter. */
  method PruneFront(restarts: seq<nat>, ghost log: seq<nat>, ghost before: nat, now: nat, window: nat)
    returns (kept: seq<nat>)
    requires Ascending(log) && before <= now && restarts == Recent(log, before, window)
    ensures kept == Recent(log, now, window)
  {
    kept := restarts;
    RecentIsSuffix(log, before, window);
    RecentIsSuffix(log, now, window);
    RecentShrinks(log, before, now, window);
    while kept != [] && Since(now, kept[0]) > window
      invariant |kept| <= |log| && kept == log[|log| - |kept|..]
      invariant |Recent(log, now, window)| <= |kept|
    {
      assert kept[0] == log[|log| - |kept|];
      kept := kept[1..];
    }
    if kept != [] {
      assert kept[0] == log[|log| - |kept|];
    }
  }

  /** One turn of the loop. */
  method PollOnce(policy: RestartPolicy, ghost m: Monitor, deque: seq<nat>, current: Health, poll: Poll)
    returns (restarts: seq<nat>, health: Health, done: bool)
    requires Sound(policy, m) && !m.done && m.now <= poll.now
    requires deque == Recent(m.log, m.now, policy.window) && current == m.health
    ensures var next := Step(policy, m, poll);
            restarts == Recent(next.log, next.now, policy.window) && health == next.health && done == next.done
  {
    restarts, health, done := deque, current, false;
    if poll.stop {
      done := true;
      return;
    }
    var previousCount := |restarts|;
    restarts := PruneFront(restarts, m.log, m.now, poll.now, policy.window);
    if |restarts| != previousCount && health.Running? {
      health := Running(Sat32(|restarts|));
    }
    var count := Sat32(|restarts|);
    match poll.exit {
      case WaitFailed =>
        health, done := Failed(count), true;
      case StillRunning =>
      case Exited =>
        if count >= policy.maxRestarts {
          health, done := Failed(count), true;
          return;
        }
        var attempt := Sat32(count + 1);
        health := Restarting(attempt);
        RecentSnoc(m.log, poll.now, policy.window);
        restarts := restarts + [poll.now];
        if poll.restarts {
          health := Running(Sat32(|restarts|));
        } else if attempt >= policy.maxRestarts {
          health, done := Failed(attempt), true;
        }
    }
  }

  method MonitorLocalEngine(policy: RestartPolicy, polls: seq<Poll>)
    returns (restarts: seq<nat>, health: Health, done: bool)
    requires ClockAdvances(polls)
    ensures var m := Run(policy, polls);
            restarts == Recent(m.log, m.now, policy.window) && health == m.health && done == m.done
  {
    restarts, health, done := [], Running(0), false;
    var k := 0;
    while k < |polls| && !done
      invariant k <= |polls|
      invariant var m := Run(policy, polls[..k]);
                restarts == Recent(m.log, m.now, policy.window) && health == m.health && done == m.done
    {
      ghost var m := Run(policy, polls[..k]);
      assert polls[..k + 1][..k] == polls[..k];
      RunSound(policy, polls[..k]);
      RecentSnoc(m.log, polls[k].now, policy.window);
      restarts, health, done := PollOnce(policy, m, restarts, health, polls[k]);
      k := k + 1;
    }
    if done {
      DoneIsFinal(policy, polls[..k], polls[k..]);
      assert polls[..k] + polls[k..] == polls;
    } else {
      assert polls[..k] == polls;
    }
  }
}
