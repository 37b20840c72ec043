/** The watchdog of the ops daemon (scripts/orion_ops_daemon.py): it probes the services, and after enough failing
    probes in a row starts them again, but not before a cool-down has passed and not more often than a maximum per
    hour. Times are whole seconds; the clock never runs backwards. */
module Watchdog {

  const HOUR := 3600

  datatype Config = Config(enabled: bool, threshold: nat, cooldown: nat, maxPerHour: nat)

  /** The bounds that the daemon imposes on its settings. */
  predicate Valid(cfg: Config) {
    1 <= cfg.threshold <= 20 && 5 <= cfg.cooldown <= 3600 && 1 <= cfg.maxPerHour <= 100
  }

  datatype State = State(
    timestamps: seq<int>,       // recoveries of the last hour
    attemptsLastHour: nat,
    attemptsTotal: nat,
    consecutiveFailures: nat,
    nextRecoveryAt: int)

  const START := State([], 0, 0, 0, 0)

  /** One turn of the loop: the time, the probe's verdict, and whether starting the services would succeed. */
  datatype Poll = Poll(now: int, healthy: bool, startOk: bool)

  /** The entries of `ts` not older than `cutoff`, in order. */
  function Since(ts: seq<int>, cutoff: int): (r: seq<int>) {
    if ts == [] then []
    else
      var front := Since(ts[..|ts| - 1], cutoff);
      if ts[|ts| - 1] >= cutoff then front + [ts[|ts| - 1]] else front
  }

  function Probed(s: State, p: Poll): (r: State) {
    var ts := Since(s.timestamps, p.now - HOUR);
    s.(consecutiveFailures := if p.healthy then 0 else s.consecutiveFailures + 1,
       timestamps := ts, attemptsLastHour := |ts|)
  }

  predicate Recovers(cfg: Config, s: State, p: Poll) {
    && cfg.enabled && !p.healthy
    && s.consecutiveFailures >= cfg.threshold
    && p.now >= s.nextRecoveryAt
    && s.attemptsLastHour < cfg.maxPerHour
  }

  function Recovered(cfg: Config, s: State, p: Poll): (r: State) {
    var ts := s.timestamps + [p.now];
    s.(timestamps := ts, attemptsLastHour := |ts|, attemptsTotal := s.attemptsTotal + 1,
       nextRecoveryAt := p.now + cfg.cooldown,
       consecutiveFailures := if p.startOk then 0 else s.consecutiveFailures)
  }

  function Step(cfg: Config, s: State, p: Poll): (r: State) {
    var probed := Probed(s, p);
    if Recovers(cfg, probed, p) then Recovered(cfg, probed, p) else probed
  }

  /** The state after a sequence of polls, and the times of all recoveries ever made. */
  function Run(cfg: Config, polls: seq<Poll>): (r: (State, seq<int>)) {
    if polls == [] then (START, [])
    else
      var (s, history) := Run(cfg, polls[..|polls| - 1]);
      var p := polls[|polls| - 1];
      (Step(cfg, s, p), if Recovers(cfg, Probed(s, p), p) then history + [p.now] else history)
  }

  ghost predicate Monotone(polls: seq<Poll>) {
    forall i, j :: 0 <= i < j < |polls| ==> polls[i].now <= polls[j].now
  }

  // ---- the daemon's state object ----

  class WatchdogState {
    var timestamps: seq<int>
    var attemptsLastHour: nat
    var attemptsTotal: nat
    var consecutiveFailures: nat
    var nextRecoveryAt: int

    ghost function View(): State
      reads this
    {
      State(timestamps, attemptsLastHour, attemptsTotal, consecutiveFailures, nextRecoveryAt)
    }

    constructor ()
      ensures View() == START
    {
      timestamps, attemptsLastHour, attemptsTotal, consecutiveFailures, nextRecoveryAt := [], 0, 0, 0, 0;
    }

    method Prune(now: int)
      modifies this`timestamps, this`attemptsLastHour
      ensures timestamps == Since(old(timestamps), now - HOUR) && attemptsLastHour == |timestamps|
    {
      var kept: seq<int> := [];
      for i := 0 to |timestamps|
        invariant kept == Since(timestamps[..i], now - HOUR)
      {
        assert timestamps[..i + 1][..i] == timestamps[..i];
        if timestamps[i] >= now - HOUR {
          kept := kept + [timestamps[i]];
        }
      }
      assert timestamps[..|timestamps|] == timestamps;
      timestamps, attemptsLastHour := kept, |kept|;
    }

    method RecordRecovery(cfg: Config, now: int)
      modifies this`timestamps, this`attemptsLastHour, this`attemptsTotal, this`nextRecoveryAt
      ensures timestamps == old(timestamps) + [now] && attemptsLastHour == |timestamps|
      ensures attemptsTotal == old(attemptsTotal) + 1 && nextRecoveryAt == now + cfg.cooldown
    {
      timestamps := timestamps + [now];
      attemptsTotal, attemptsLastHour, nextRecoveryAt := attemptsTotal + 1, |timestamps|, now + cfg.cooldown;
    }

    method Turn(cfg: Config, p: Poll) returns (recovered: bool)
      modifies this
      ensures View() == Step(cfg, old(View()), p)
      ensures recovered <==> Recovers(cfg, Probed(old(View()), p), p)
    {
      consecutiveFailures := if p.healthy then 0 else consecutiveFailures + 1;
      Prune(p.now);
      recovered := false;
      if cfg.enabled && !p.healthy {
        var shouldRecover := consecutiveFailures >= cfg.threshold;
        if shouldRecover && p.now >= nextRecoveryAt && attemptsLastHour < cfg.maxPerHour {
          recovered := true;
          RecordRecovery(cfg, p.now);
          if p.startOk {
            consecutiveFailures := 0;
          }
        }
      }
    }

    /** The polling loop; `history` collects the times of all recoveries. */
    method Loop(cfg: Config, polls: seq<Poll>) returns (history: seq<int>)
      requires View() == START
      modifies this
      ensures (View(), history) == Run(cfg, polls)
    {
      history := [];
      for i := 0 to |polls|
        invariant (View(), history) == Run(cfg, polls[..i])
      {
        assert polls[..i + 1][..i] == polls[..i];
        var recovered := Turn(cfg, polls[i]);
        if recovered {
          history := history + [polls[i].now];
        }
      }
      assert polls[..|polls|] == polls;
    }
  }

  // ---- the sliding window ----

  ghost predicate Sorted(ts: seq<int>) {
    forall i, j :: 0 <= i < j < |ts| ==> ts[i] <= ts[j]
  }

  /** Where the cutoff stands in a sorted list. */
  ghost predicate CutsAt(ts: seq<int>, cutoff: int, k: nat) {
    && k <= |ts|
    && (forall i :: 0 <= i < k ==> ts[i] < cutoff)
    && (forall i :: k <= i < |ts| ==> ts[i] >= cutoff)
  }

  lemma {:induction false} CutAdvances(ts: seq<int>, cutoff: int, k: nat)
    requires Sorted(ts) && ts != [] && CutsAt(ts[..|ts| - 1], cutoff, k)
    ensures ts[|ts| - 1] < cutoff ==> k == |ts| - 1 && CutsAt(ts, cutoff, k + 1)
    ensures ts[|ts| - 1] >= cutoff ==> CutsAt(ts, cutoff, k) && ts[k..] == ts[..|ts| - 1][k..] + [ts[|ts| - 1]]
  {
    assert k < |ts| - 1 ==> ts[..|ts| - 1][k] == ts[k];
    assert forall i :: 0 <= i < |ts| - 1 ==> ts[..|ts| - 1][i] == ts[i];
  }

  /** On a sorted list the pruned form is the suffix that starts at the cutoff. */
  lemma {:induction false} SinceIsSuffix(ts: seq<int>, cutoff: int)
    requires Sorted(ts)
    ensures |Since(ts, cutoff)| <= |ts|
    ensures var k := |ts| - |Since(ts, cutoff)|; Since(ts, cutoff) == ts[k..] && CutsAt(ts, cutoff, k)
  {
    if ts != [] {
      var front := ts[..|ts| - 1];
      SinceIsSuffix(front, cutoff);
      CutAdvances(ts, cutoff, |front| - |Since(front, cutoff)|);
    }
  }

  lemma {:induction false} SinceTwice(ts: seq<int>, c: int, c': int)
    requires c <= c'
    ensures Since(Since(ts, c), c') == Since(ts, c')
  {
    if ts != [] {
      SinceTwice(ts[..|ts| - 1], c, c');
      var front := Since(ts[..|ts| - 1], c);
      if ts[|ts| - 1] >= c {
        assert (front + [ts[|ts| - 1]])[..|front|] == front;
      }
    }
  }

  ghost predicate Apart(cooldown: nat, h: seq<int>) {
    forall i :: 1 <= i < |h| ==> h[i - 1] + cooldown <= h[i]
  }

  /** Any `max + 1` entries in a row span more than an hour. */
  ghost predicate Sparse(max: nat, h: seq<int>) {
    forall j :: max <= j < |h| ==> h[j - max] + HOUR < h[j]
  }

  ghost predicate WellSpaced(cfg: Config, h: seq<int>) {
    Sorted(h) && Apart(cfg.cooldown, h) && Sparse(cfg.maxPerHour, h)
  }

  /** The state against the history `h` of all recoveries, at time `now`. */
  ghost predicate StateMatches(cfg: Config, now: int, s: State, h: seq<int>) {
    && s.timestamps == Since(h, now - HOUR)
    && s.attemptsLastHour == |s.timestamps| && s.attemptsTotal == |h|
    && s.nextRecoveryAt == (if h == [] then 0 else h[|h| - 1] + cfg.cooldown)
    && (h != [] ==> h[|h| - 1] <= now)
  }

  /** The last `consecutiveFailures` probes failed. */
  ghost predicate StreakMatches(polls: seq<Poll>, failures: nat) {
    failures <= |polls| && forall i :: |polls| - failures <= i < |polls| ==> !polls[i].healthy
  }

  ghost predicate Inv(cfg: Config, polls: seq<Poll>, s: State, h: seq<int>) {
    && WellSpaced(cfg, h)
    && (if polls == [] then s == START && h == [] else StateMatches(cfg, polls[|polls| - 1].now, s, h))
    && StreakMatches(polls, s.consecutiveFailures)
  }

  lemma {:induction false} ProbedMatches(cfg: Config, then': int, s: State, h: seq<int>, p: Poll)
    requires StateMatches(cfg, then', s, h) && then' <= p.now
    ensures StateMatches(cfg, p.now, Probed(s, p), h)
  {
    SinceTwice(h, then' - HOUR, p.now - HOUR);
  }

  lemma {:induction false} ApartExtends(cooldown: nat, h: seq<int>, now: int)
    requires Apart(cooldown, h) && Sorted(h) && (h != [] ==> h[|h| - 1] + cooldown <= now)
    ensures Apart(cooldown, h + [now]) && Sorted(h + [now])
  {
    var h' := h + [now];
    assert forall i :: 0 <= i < |h| ==> h[i] <= now;
  }

  lemma {:induction false} SparseExtends(max: nat, h: seq<int>, now: int)
    requires Sorted(h) && Sparse(max, h) && |Since(h, now - HOUR)| < max
    ensures Sparse(max, h + [now])
  {
    SinceIsSuffix(h, now - HOUR);
    var h' := h + [now];
    forall j | max <= j < |h'| ensures h'[j - max] + HOUR < h'[j] {
      if j == |h| {
        assert h[j - max] < now - HOUR;
      }
    }
  }

  lemma {:induction false} RecoveredMatches(cfg: Config, s: State, h: seq<int>, p: Poll)
    requires StateMatches(cfg, p.now, s, h)
    ensures StateMatches(cfg, p.now, Recovered(cfg, s, p), h + [p.now])
  {
    assert (h + [p.now])[..|h|] == h;
  }

  lemma {:induction false} StreakExtends(polls: seq<Poll>, failures: nat, p: Poll)
    requires StreakMatches(polls, failures)
    ensures StreakMatches(polls + [p], if p.healthy then 0 else failures + 1)
  {
  }

  lemma {:induction false} StepKeepsInv(cfg: Config, before: seq<Poll>, p: Poll, s: State, h: seq<int>)
    requires Valid(cfg) && Inv(cfg, before, s, h)
    requires before != [] ==> before[|before| - 1].now <= p.now
    ensures Inv(cfg, before + [p], Step(cfg, s, p), if Recovers(cfg, Probed(s, p), p) then h + [p.now] else h)
  {
    var probed := Probed(s, p);
    ProbedMatches(cfg, if before == [] then p.now else before[|before| - 1].now, s, h, p);
    StreakExtends(before, s.consecutiveFailures, p);
    if Recovers(cfg, probed, p) {
      ApartExtends(cfg.cooldown, h, p.now);
      SparseExtends(cfg.maxPerHour, h, p.now);
      RecoveredMatches(cfg, probed, h, p);
    }
  }

  lemma {:induction false} RunKeepsInv(cfg: Config, polls: seq<Poll>)
    requires Valid(cfg) && Monotone(polls)
    ensures Inv(cfg, polls, Run(cfg, polls).0, Run(cfg, polls).1)
  {
    if polls != [] {
      var before, p := polls[..|polls| - 1], polls[|polls| - 1];
      RunKeepsInv(cfg, before);
      StepKeepsInv(cfg, before, p, Run(cfg, before).0, Run(cfg, before).1);
      assert polls == before + [p];
    }
  }

  /** The pruned list always equals the full history cut to the last hour, and the counter is its length. */
  lemma {:induction false} TimestampsAreLastHour(cfg: Config, polls: seq<Poll>)
    requires Valid(cfg) && Monotone(polls) && polls != []
    ensures var (s, h) := Run(cfg, polls);
            s.timestamps == Since(h, polls[|polls| - 1].now - HOUR) && s.attemptsLastHour == |s.timestamps|
  {
    RunKeepsInv(cfg, polls);
  }

  lemma {:induction false} ApartAddsUp(cooldown: nat, h: seq<int>, i: nat, j: nat)
    requires Apart(cooldown, h) && i <= j < |h|
    ensures h[i] + (j - i) * cooldown <= h[j]
    decreases j
  {
    if i < j {
      ApartAddsUp(cooldown, h, i, j - 1);
      assert (j - i) * cooldown == (j - 1 - i) * cooldown + cooldown;
    }
  }

  /** Successive recoveries are at least the cool-down apart; so the i-th and the j-th are `j - i` cool-downs apart. */
  lemma {:induction false} CooldownHolds(cfg: Config, polls: seq<Poll>, i: nat, j: nat)
    requires Valid(cfg) && Monotone(polls) && i <= j < |Run(cfg, polls).1|
    ensures Run(cfg, polls).1[i] + (j - i) * cfg.cooldown <= Run(cfg, polls).1[j]
  {
    RunKeepsInv(cfg, polls);
    ApartAddsUp(cfg.cooldown, Run(cfg, polls).1, i, j);
  }

  /** A recovery happens only when the probe and the `threshold - 1` probes before it all failed. */
  lemma {:induction false} RecoveryNeedsFailures(cfg: Config, polls: seq<Poll>, p: Poll)
    requires Valid(cfg) && Monotone(polls) && Recovers(cfg, Probed(Run(cfg, polls).0, p), p)
    ensures !p.healthy && |polls| + 1 >= cfg.threshold
    ensures forall i :: |polls| + 1 - cfg.threshold <= i < |polls| ==> !polls[i].healthy
  {
    RunKeepsInv(cfg, polls);
  }

  /** The number of entries in the closed interval [lo, hi]. */
  function CountIn(ts: seq<int>, lo: int, hi: int): (n: nat) {
    if ts == [] then 0
    else CountIn(ts[..|ts| - 1], lo, hi) + (if lo <= ts[|ts| - 1] <= hi then 1 else 0)
  }

  /** On a sorted list the entries in an interval are consecutive: they are the ones just below index `e`. */
  lemma {:induction false} CountIsContiguous(ts: seq<int>, lo: int, hi: int) returns (e: nat)
    requires Sorted(ts)
    ensures CountIn(ts, lo, hi) <= e <= |ts|
    ensures forall i :: e - CountIn(ts, lo, hi) <= i < e ==> lo <= ts[i] <= hi
    ensures forall i :: e <= i < |ts| ==> ts[i] > hi
  {
    if ts == [] {
      e := 0;
    } else {
      var last := ts[|ts| - 1];
      var front := ts[..|ts| - 1];
      e := CountIsContiguous(front, lo, hi);
      if last <= hi {
        e := |ts|;
      }
    }
  }

  lemma {:induction false} ShortSpanHoldsFew(max: nat, h: seq<int>, i: nat, j: nat)
    requires Sorted(h) && Sparse(max, h) && i <= j < |h| && h[j] <= h[i] + HOUR
    ensures j - i < max
  {
    if max <= j {
      assert h[j - max] + HOUR < h[j];
    }
  }

  lemma {:induction false} HourHoldsAtMost(cfg: Config, h: seq<int>, lo: int, hi: int)
    requires WellSpaced(cfg, h) && hi <= lo + HOUR
    ensures CountIn(h, lo, hi) <= cfg.maxPerHour
  {
    var c := CountIn(h, lo, hi);
    var e := CountIsContiguous(h, lo, hi);
    if c > 0 {
      ShortSpanHoldsFew(cfg.maxPerHour, h, e - c, e - 1);
    }
  }

  lemma {:induction false} CountSplits(ts: seq<int>, lo: int, mid: int, hi: int)
    requires lo <= mid <= hi
    ensures CountIn(ts, lo, hi) == CountIn(ts, lo, mid) + CountIn(ts, mid + 1, hi)
  {
    if ts != [] {
      CountSplits(ts[..|ts| - 1], lo, mid, hi);
    }
  }

  lemma {:induction false} HoursAddUp(max: nat, span: nat)
    requires span > HOUR
    ensures max * ((span - HOUR - 1) / HOUR + 1) + max <= max * (span / HOUR + 1)
  {
    var q, q' := (span - HOUR - 1) / HOUR, span / HOUR;
    assert q + 1 <= q';
    assert max * (q + 1) <= max * q';
  }

  lemma {:induction false} SpanHoldsAtMost(cfg: Config, h: seq<int>, lo: int, span: nat)
    requires WellSpaced(cfg, h)
    ensures CountIn(h, lo, lo + span) <= cfg.maxPerHour * (span / HOUR + 1)
    decreases span
  {
    if span <= HOUR {
      HourHoldsAtMost(cfg, h, lo, lo + span);
      assert 1 <= span / HOUR + 1;
      assert cfg.maxPerHour * 1 <= cfg.maxPerHour * (span / HOUR + 1);
    } else {
      CountSplits(h, lo, lo + HOUR, lo + span);
      HourHoldsAtMost(cfg, h, lo, lo + HOUR);
      SpanHoldsAtMost(cfg, h, lo + HOUR + 1, span - HOUR - 1);
      HoursAddUp(cfg.maxPerHour, span);
    }
  }

  /** The rate limit: in every run, any closed window of an hour holds at most `maxPerHour` recoveries, and any
      `span` seconds hold at most `maxPerHour * (span / 3600 + 1)`. */
  lemma {:induction false} RateLimitHolds(cfg: Config, polls: seq<Poll>, lo: int, span: nat)
    requires Valid(cfg) && Monotone(polls)
    ensures CountIn(Run(cfg, polls).1, lo, lo + span) <= cfg.maxPerHour * (span / HOUR + 1)
    ensures span <= HOUR ==> CountIn(Run(cfg, polls).1, lo, lo + span) <= cfg.maxPerHour
  {
    RunKeepsInv(cfg, polls);
    SpanHoldsAtMost(cfg, Run(cfg, polls).1, lo, span);
    if span <= HOUR {
      HourHoldsAtMost(cfg, Run(cfg, polls).1, lo, lo + span);
    }
  }
}
