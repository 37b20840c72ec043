/** When the watchdog recovers (scripts/orion_ops_daemon.py), told by the polls alone: a recovery happens exactly when
    it is due, whatever the daemon keeps in its counters and lists. */
module WatchdogRuns {
  import opened Watchdog

  /** Poll `n` makes a recovery: it fails, and so do enough polls before it, without a successful recovery among them;
      every earlier recovery is at least the cool-down ago; and fewer than the maximum were made in the last hour. */
  ghost predicate Due(cfg: Config, polls: seq<Poll>, n: nat)
    requires n < |polls|
    decreases n, 1
  {
    var now := polls[n].now;
    && cfg.enabled && !polls[n].healthy && now >= 0
    && n + 1 >= cfg.threshold
    && (forall i: nat :: n + 1 - cfg.threshold <= i < n ==> Bad(cfg, polls, i))
    && (forall i: nat :: i < n && Due(cfg, polls, i) ==> polls[i].now + cfg.cooldown <= now)
    && CountIn(Times(cfg, polls, n), now - HOUR, now) < cfg.maxPerHour
  }

  /** The times of the recoveries among the first `n` polls. */
  ghost function Times(cfg: Config, polls: seq<Poll>, n: nat): (ts: seq<int>)
    requires n <= |polls|
    decreases n, 0
  {
    if n == 0 then []
    else Times(cfg, polls, n - 1) + if Due(cfg, polls, n - 1) then [polls[n - 1].now] else []
  }

  /** A failing poll without a successful recovery. */
  ghost predicate Bad(cfg: Config, polls: seq<Poll>, i: nat)
    requires i < |polls|
    decreases i, 2
  {
    !polls[i].healthy && !(Due(cfg, polls, i) && polls[i].startOk)
  }

  /** The `failures` polls before poll `n` are bad, and the one before them, if any, is not. */
  ghost predicate Streak(cfg: Config, polls: seq<Poll>, n: nat, failures: nat)
    requires n <= |polls|
  {
    && failures <= n
    && (forall i: nat :: n - failures <= i < n ==> Bad(cfg, polls, i))
    && (failures < n ==> !Bad(cfg, polls, n - failures - 1))
  }

  lemma {:induction false} StreakIsLong(cfg: Config, polls: seq<Poll>, n: nat, failures: nat, k: nat)
    requires n <= |polls| && Streak(cfg, polls, n, failures)
    ensures failures >= k <==> k <= n && forall i: nat :: n - k <= i < n ==> Bad(cfg, polls, i)
  {
    if failures < k <= n {
      var i: nat := n - failures - 1;
      assert n - k <= i < n && !Bad(cfg, polls, i);
    }
  }

  lemma {:induction false} StreakGrows(cfg: Config, polls: seq<Poll>, n: nat, failures: nat)
    requires n < |polls| && Streak(cfg, polls, n, failures)
    ensures Streak(cfg, polls, n + 1, if Bad(cfg, polls, n) then failures + 1 else 0)
  {
  }

  /** Every time in the list is that of an earlier recovery, and the other way round. */
  lemma {:induction false} TimesMean(cfg: Config, polls: seq<Poll>, n: nat, t: int)
    requires n <= |polls|
    ensures t in Times(cfg, polls, n) <==> exists i: nat :: i < n && Due(cfg, polls, i) && polls[i].now == t
  {
    if n > 0 {
      TimesMean(cfg, polls, n - 1, t);
      if t in Times(cfg, polls, n - 1) {
        var i: nat :| i < n - 1 && Due(cfg, polls, i) && polls[i].now == t;
        assert i < n;
      }
      if Due(cfg, polls, n - 1) && polls[n - 1].now == t {
        assert n - 1 < n;
      }
    }
  }

  /** The recoveries of the last hour. */
  lemma {:induction false} SinceCounts(h: seq<int>, cutoff: int, now: int)
    requires forall t :: t in h ==> t <= now
    ensures |Since(h, cutoff)| == CountIn(h, cutoff, now)
  {
    if h != [] {
      var front := h[..|h| - 1];
      assert forall t :: t in front ==> t in h;
      SinceCounts(front, cutoff, now);
      assert h[|h| - 1] in h;
    }
  }

  /** All earlier recoveries are a cool-down ago if the last one is. */
  lemma {:induction false} CoolsDown(cfg: Config, polls: seq<Poll>, n: nat, h: seq<int>, now: int)
    requires n <= |polls| && h == Times(cfg, polls, n) && Sorted(h)
    ensures (h != [] ==> h[|h| - 1] + cfg.cooldown <= now) <==>
            forall i: nat :: i < n && Due(cfg, polls, i) ==> polls[i].now + cfg.cooldown <= now
  {
    forall i: nat | i < n && Due(cfg, polls, i) ensures h != [] && polls[i].now <= h[|h| - 1] {
      TimesMean(cfg, polls, n, polls[i].now);
      var k :| 0 <= k < |h| && h[k] == polls[i].now;
    }
    if h != [] {
      TimesMean(cfg, polls, n, h[|h| - 1]);
    }
  }

  /** What the daemon keeps after `n` polls is what the polls say. */
  ghost predicate Matches(cfg: Config, polls: seq<Poll>, n: nat)
    requires n <= |polls|
  {
    var (s, h) := Run(cfg, polls[..n]);
    h == Times(cfg, polls, n) && Streak(cfg, polls, n, s.consecutiveFailures)
  }

  lemma {:induction false} PrefixIsMonotone(polls: seq<Poll>, n: nat)
    requires Monotone(polls) && n <= |polls|
    ensures Monotone(polls[..n])
  {
  }

  /** What the daemon sees at poll `n`. */
  lemma {:induction false} ProbedKnows(cfg: Config, polls: seq<Poll>, n: nat)
    requires Valid(cfg) && Monotone(polls) && n < |polls|
    ensures var (s, h) := Run(cfg, polls[..n]);
            var now := polls[n].now;
            var probed := Probed(s, polls[n]);
            && Sorted(h) && probed.attemptsLastHour == CountIn(h, now - HOUR, now)
            && probed.nextRecoveryAt == if h == [] then 0 else h[|h| - 1] + cfg.cooldown
  {
    var before := polls[..n];
    var (s, h) := Run(cfg, before);
    var now := polls[n].now;
    PrefixIsMonotone(polls, n);
    RunKeepsInv(cfg, before);
    if n > 0 {
      assert before[n - 1] == polls[n - 1] && polls[n - 1].now <= now;
      ProbedMatches(cfg, polls[n - 1].now, s, h, polls[n]);
      assert forall t :: t in h ==> t <= now by {
        forall t | t in h ensures t <= now {
          var k :| 0 <= k < |h| && h[k] == t;
          assert h[k] <= h[|h| - 1];
        }
      }
    }
    SinceCounts(h, now - HOUR, now);
  }

  lemma {:induction false} MatchRecovers(cfg: Config, polls: seq<Poll>, n: nat)
    requires Valid(cfg) && Monotone(polls) && n < |polls| && Matches(cfg, polls, n)
    ensures Recovers(cfg, Probed(Run(cfg, polls[..n]).0, polls[n]), polls[n]) <==> Due(cfg, polls, n)
  {
    var (s, h) := Run(cfg, polls[..n]);
    ProbedKnows(cfg, polls, n);
    CoolsDown(cfg, polls, n, h, polls[n].now);
    StreakIsLong(cfg, polls, n, s.consecutiveFailures, cfg.threshold - 1);
    if h != [] {
      TimesMean(cfg, polls, n, h[|h| - 1]);
    }
  }

  lemma {:induction false} RunMatches(cfg: Config, polls: seq<Poll>, n: nat)
    requires Valid(cfg) && Monotone(polls) && n <= |polls|
    ensures Matches(cfg, polls, n)
  {
    if n > 0 {
      RunMatches(cfg, polls, n - 1);
      MatchRecovers(cfg, polls, n - 1);
      assert polls[..n][..n - 1] == polls[..n - 1];
      StreakGrows(cfg, polls, n - 1, Run(cfg, polls[..n - 1]).0.consecutiveFailures);
    }
  }

  /** A poll makes a recovery if and only if one is due: enough failing polls in a row, the cool-down over, and fewer
      recoveries in the last hour than the maximum. The history is the list of the polls that were due. */
  lemma {:induction false} RecoversExactly(cfg: Config, polls: seq<Poll>, n: nat)
    requires Valid(cfg) && Monotone(polls) && n < |polls|
    ensures Recovers(cfg, Probed(Run(cfg, polls[..n]).0, polls[n]), polls[n]) <==> Due(cfg, polls, n)
    ensures Run(cfg, polls).1 == Times(cfg, polls, |polls|)
    ensures Run(cfg, polls).0.attemptsTotal == |Times(cfg, polls, |polls|)|
  {
    RunMatches(cfg, polls, n);
    MatchRecovers(cfg, polls, n);
    RunMatches(cfg, polls, |polls|);
    RunKeepsInv(cfg, polls);
    assert polls[..|polls|] == polls;
  }
}
