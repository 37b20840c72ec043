/** Which operations a chain of pauses and resumes can finish, and with which browser checkpoint it comes to them
    (scripts/orion_local_worker_execution.py, server_modules/browser_checkpoint_service.py). The checkpoint of a browser
    operation stays attached to the run, so the next browser operation starts from it too; what can happen is described
    from the plan alone and compared with all chains. */
module ResumeChains {
  import opened LocalExecution
  import opened Text

  // ---- a chain, turn by turn ----

  /** The checkpoint after a pause: its own, or the one attached before. */
  function Attached(browser: Option<nat>, from: nat): (v: nat) {
    if browser.Some? then browser.value else from
  }

  /** The checkpoint that a turn leaves attached. */
  function Leaving(v: Verdict, from: nat): (r: nat) {
    if v.Pause? then Attached(v.browser, from) else from
  }

  /** A chain after one turn: `paused` is what follows a pause, `next` what follows otherwise. */
  function AfterTurn(continueOnError: bool, i: nat, log: seq<Event>, v: Verdict, paused: Report,
                     next: Report): (r: Report) {
    if v.Pause? then Before(log, paused)
    else if v.Error? && !continueOnError then Report(log, Stopped(i))
    else Before(log, next)
  }

  lemma {:induction false} ChainUnfolds(plan: seq<Operation>, continueOnError: bool, envs: seq<Env>, from: nat, i: nat)
    requires envs != [] && i < |plan|
    ensures var (log, verdict) := Turn(plan[i], envs[0], i, from);
            Chain(plan, continueOnError, envs, from, i) ==
            AfterTurn(continueOnError, i, log, verdict,
                      Chain(plan, continueOnError, envs[1..], Leaving(verdict, from), i),
                      Chain(plan, continueOnError, envs, from, i + 1))
  {
    var (log, verdict) := Turn(plan[i], envs[0], i, from);
    var rest := Session(plan, continueOnError, envs[0], from, i + 1);
    if rest.ending.Paused? {
      var b := Attached(rest.ending.browser, from);
      ConcatAssoc(log, rest.log, Chain(plan, continueOnError, envs[1..], b, rest.ending.next).log);
    }
  }

  lemma {:induction false} TurnIsAbout(op: Operation, env: Env, i: nat, from: nat)
    ensures forall e :: e in Turn(op, env, i, from).0 ==> e.op == i
    ensures Finished(i) in Turn(op, env, i, from).0 <==> Turn(op, env, i, from).1.Ok?
  {
    if op.tool.Browser? {
      BrowseIsPaced(op.tool.actions, env, i, from);
    }
  }

  ghost predicate Ahead(log: seq<Event>, i: nat) {
    forall e :: e in log ==> e.op >= i
  }

  lemma {:induction false} AheadJoins(a: seq<Event>, b: seq<Event>, i: nat)
    requires Ahead(a, i) && Ahead(b, i)
    ensures Ahead(a + b, i)
  {
  }

  /** A chain never goes back. */
  lemma {:induction false} ChainStaysAhead(plan: seq<Operation>, continueOnError: bool, envs: seq<Env>, from: nat,
                                           i: nat)
    requires i <= |plan|
    ensures Ahead(Chain(plan, continueOnError, envs, from, i).log, i)
    decreases |envs|, |plan| - i
  {
    if envs != [] && i < |plan| {
      ChainUnfolds(plan, continueOnError, envs, from, i);
      TurnIsAbout(plan[i], envs[0], i, from);
      var (log, verdict) := Turn(plan[i], envs[0], i, from);
      if verdict.Pause? {
        var v := Attached(verdict.browser, from);
        ChainStaysAhead(plan, continueOnError, envs[1..], v, i);
        AheadJoins(log, Chain(plan, continueOnError, envs[1..], v, i).log, i);
      } else {
        ChainStaysAhead(plan, continueOnError, envs, from, i + 1);
        AheadJoins(log, Chain(plan, continueOnError, envs, from, i + 1).log, i);
      }
    }
  }

  // ---- what can happen, from the plan alone ----

  /** The actions from `v` up to `k` are none of them human pauses. */
  ghost predicate ActsUpTo(actions: seq<Action>, v: nat, k: nat) {
    forall h :: v <= h < k && h < |actions| ==> actions[h].Act?
  }

  /** The operation can finish when it is entered with checkpoint `v`. */
  ghost predicate Finishable(op: Operation, v: nat) {
    !op.tool.Unsupported? && (op.tool.Browser? ==> ActsUpTo(op.tool.actions, v, |op.tool.actions|))
  }

  /** A plan can get past the operation, entered with checkpoint `v`, and have checkpoint `x` attached afterwards. */
  ghost predicate Leaves(op: Operation, continueOnError: bool, v: nat, x: nat) {
    && (continueOnError || Finishable(op, v))
    && (x == v || (op.tool.Browser? && v < x < |op.tool.actions| && ActsUpTo(op.tool.actions, v, x)))
  }

  /** From operation `i` with checkpoint `v` a chain can come to operation `j` with checkpoint `u`. */
  ghost predicate Comes(plan: seq<Operation>, continueOnError: bool, i: nat, v: nat, j: nat, u: nat)
    requires i <= j <= |plan|
    decreases j - i
  {
    if i == j then u == v
    else exists x: nat :: Leaves(plan[i], continueOnError, v, x) && Comes(plan, continueOnError, i + 1, x, j, u)
  }

  // ---- no chain does anything else ----

  lemma {:induction false} BrowseWaitsInside(actions: seq<Action>, env: Env, op: nat, k: nat)
    ensures var outcome := Browse(actions, env, op, k).1; outcome.Waits? ==> k <= outcome.next < |actions|
    decreases |actions| - k
  {
    if k < |actions| && !env.during(op, k).pause && !actions[k].PauseForHuman? && !env.actionRaises(op, k) {
      BrowseWaitsInside(actions, env, op, k + 1);
    }
  }

  /** A pause of operation `i` performs the actions up to the checkpoint that it leaves. */
  lemma {:induction false} PauseActs(op: Operation, env: Env, i: nat, from: nat)
    requires Turn(op, env, i, from).1.Pause?
    ensures var (log, verdict) := Turn(op, env, i, from);
            var v := Attached(verdict.browser, from);
            && (v != from ==> op.tool.Browser? && from < v < |op.tool.actions| && ActsUpTo(op.tool.actions, from, v))
            && (op.tool.Browser? ==> Actions(log, i) == Range(from, v))
  {
    EmptyRange(from);
    if op.tool.Browser? {
      BrowseWaitsInside(op.tool.actions, env, i, from);
      if from <= |op.tool.actions| {
        var m := TurnActs(op, env, i, from);
      } else {
        BrowseIsPaced(op.tool.actions, env, i, from);
        NoActions(Turn(op, env, i, from).0, i);
      }
    }
  }

  /** An operation that finishes was finishable and performed the actions from its checkpoint on. */
  lemma {:induction false} FinishActs(op: Operation, env: Env, i: nat, from: nat)
    requires Turn(op, env, i, from).1.Ok?
    ensures Finishable(op, from)
    ensures op.tool.Browser? ==> Actions(Turn(op, env, i, from).0, i) == Range(from, |op.tool.actions|)
  {
    if op.tool.Browser? {
      FinishedBrowserOpPerforms(op, env, i, from);
      if from <= |op.tool.actions| {
        var m := TurnActs(op, env, i, from);
      }
    }
  }

  lemma {:induction false} LeavesEarlier(op: Operation, continueOnError: bool, from: nat, v: nat, x: nat)
    requires Leaves(op, continueOnError, v, x)
    requires v != from ==> op.tool.Browser? && from < v < |op.tool.actions| && ActsUpTo(op.tool.actions, from, v)
    ensures Leaves(op, continueOnError, from, x)
  {
  }

  lemma {:induction false} ComesEarlier(plan: seq<Operation>, continueOnError: bool, i: nat, from: nat, v: nat, j: nat,
                                        u: nat)
    requires i < j <= |plan| && Comes(plan, continueOnError, i, v, j, u)
    requires v != from ==> plan[i].tool.Browser? && from < v < |plan[i].tool.actions|
                           && ActsUpTo(plan[i].tool.actions, from, v)
    ensures Comes(plan, continueOnError, i, from, j, u)
  {
    var x: nat :| Leaves(plan[i], continueOnError, v, x) && Comes(plan, continueOnError, i + 1, x, j, u);
    LeavesEarlier(plan[i], continueOnError, from, v, x);
  }

  /** What a chain that finishes `b` has done to it. */
  ghost predicate FinishedFrom(plan: seq<Operation>, log: seq<Event>, b: nat, u: nat)
    requires b < |plan|
  {
    && Finishable(plan[b], u)
    && (plan[b].tool.Browser? ==> Actions(log, b) == Range(u, |plan[b].tool.actions|))
  }

  lemma {:induction false} ActionsAhead(plan: seq<Operation>, continueOnError: bool, envs: seq<Env>, from: nat, b: nat)
    requires b < |plan|
    ensures var log := Chain(plan, continueOnError, envs, from, b + 1).log; Actions(log, b) == [] && Finished(b) !in log
  {
    ChainStaysAhead(plan, continueOnError, envs, from, b + 1);
    NoActions(Chain(plan, continueOnError, envs, from, b + 1).log, b);
  }

  /** The operation itself, turn by turn: suspended any number of times, and then finished. */
  lemma {:induction false} OwnTurn(plan: seq<Operation>, continueOnError: bool, envs: seq<Env>, from: nat, b: nat)
    requires envs != [] && b < |plan| && Finished(b) in Chain(plan, continueOnError, envs, from, b).log
    requires var (log, verdict) := Turn(plan[b], envs[0], b, from);
             var v := Attached(if verdict.Pause? then verdict.browser else None, from);
             verdict.Pause? ==> FinishedFrom(plan, Chain(plan, continueOnError, envs[1..], v, b).log, b, v)
    ensures FinishedFrom(plan, Chain(plan, continueOnError, envs, from, b).log, b, from)
  {
    ChainUnfolds(plan, continueOnError, envs, from, b);
    TurnIsAbout(plan[b], envs[0], b, from);
    var (log, verdict) := Turn(plan[b], envs[0], b, from);
    if verdict.Pause? {
      var v := Attached(verdict.browser, from);
      PauseActs(plan[b], envs[0], b, from);
      var rest := Chain(plan, continueOnError, envs[1..], v, b).log;
      ActionsConcat(log, rest, b);
      if plan[b].tool.Browser? && from < v {
        RangeJoins(from, v, |plan[b].tool.actions|);
      } else {
        EmptyRange(from);
      }
    } else {
      ActionsAhead(plan, continueOnError, envs, from, b);
      var rest := Chain(plan, continueOnError, envs, from, b + 1).log;
      FinishActs(plan[b], envs[0], b, from);
      ActionsConcat(log, rest, b);
    }
  }

  /** Whatever happens, a chain that finishes `b` came to it with a checkpoint that the plan allows, and performed its
      actions from there on. */
  lemma {:induction false} ChainComes(plan: seq<Operation>, continueOnError: bool, envs: seq<Env>, from: nat, i: nat,
                                      b: nat)
      returns (u: nat)
    requires i <= b < |plan| && Finished(b) in Chain(plan, continueOnError, envs, from, i).log
    ensures Comes(plan, continueOnError, i, from, b, u)
    ensures FinishedFrom(plan, Chain(plan, continueOnError, envs, from, i).log, b, u)
    decreases |envs|, |plan| - i
  {
    ChainUnfolds(plan, continueOnError, envs, from, i);
    TurnIsAbout(plan[i], envs[0], i, from);
    var (log, verdict) := Turn(plan[i], envs[0], i, from);
    if verdict.Pause? {
      var v := Attached(verdict.browser, from);
      u := ChainComes(plan, continueOnError, envs[1..], v, i, b);
      if i == b {
        OwnTurn(plan, continueOnError, envs, from, b);
        u := from;
      } else {
        PauseActs(plan[i], envs[0], i, from);
        ComesEarlier(plan, continueOnError, i, from, v, b, u);
        SkipTurn(plan, envs[0], from, i, b, Chain(plan, continueOnError, envs[1..], v, i).log);
      }
    } else if i == b {
      OwnTurn(plan, continueOnError, envs, from, b);
      u := from;
    } else {
      u := ChainComes(plan, continueOnError, envs, from, i + 1, b);
      if verdict.Ok? {
        FinishActs(plan[i], envs[0], i, from);
      }
      assert Leaves(plan[i], continueOnError, from, from);
      SkipTurn(plan, envs[0], from, i, b, Chain(plan, continueOnError, envs, from, i + 1).log);
    }
  }

  /** The turn of another operation does nothing to `b`. */
  lemma {:induction false} SkipTurn(plan: seq<Operation>, env: Env, from: nat, i: nat, b: nat, rest: seq<Event>)
    requires i < b < |plan|
    ensures Actions(Turn(plan[i], env, i, from).0 + rest, b) == Actions(rest, b)
  {
    OtherTurnsDoNotAct(plan[i], env, i, from, b);
    ActionsConcat(Turn(plan[i], env, i, from).0, rest, b);
  }

  // ---- everything that the plan allows happens in some chain ----

  /** Readings that report a pause only before operation `before` or before action `action` of operation `inside`; the
      body of operation `failing` raises, everything else goes well. */
  function Quiet(before: int, inside: int, action: int, failing: int): (env: Env) {
    Env((i: nat) => Reading(i == before, false), (i: nat) => Reading(false, false),
        (i: nat, k: nat) => Reading(i == inside && k == action, false), (i: nat, k: nat) => false,
        (i: nat) => if i == failing then RaisesEarly else Fine)
  }

  lemma {:induction false} QuietBrowse(actions: seq<Action>, env: Env, op: nat, k: nat, stop: nat)
    requires k <= stop <= |actions| && ActsUpTo(actions, k, stop)
    requires forall h: nat :: !env.actionRaises(op, h) && (env.during(op, h).pause <==> h == stop && stop < |actions|)
    ensures Browse(actions, env, op, k).1 == if stop < |actions| then Waits(stop) else Through
    decreases |actions| - k
  {
    if k < stop {
      QuietBrowse(actions, env, op, k + 1, stop);
    }
  }

  /** A finishable operation finishes in a quiet environment. */
  lemma {:induction false} QuietTurn(op: Operation, i: nat, from: nat, before: int)
    requires Finishable(op, from) && before != i
    ensures Turn(op, Quiet(before, -1, -1, -1), i, from).1.Ok?
  {
    if op.tool.Browser? && from <= |op.tool.actions| {
      QuietBrowse(op.tool.actions, Quiet(before, -1, -1, -1), i, from, |op.tool.actions|);
    }
  }

  /** An operation whose body raises fails. */
  lemma {:induction false} FailingTurn(op: Operation, i: nat, from: nat, before: int)
    requires before != i
    ensures Turn(op, Quiet(before, -1, -1, i), i, from).1.Error?
  {
  }

  lemma {:induction false} PausingTurn(op: Operation, i: nat, from: nat, x: nat)
    requires op.tool.Browser? && from < x < |op.tool.actions| && ActsUpTo(op.tool.actions, from, x)
    ensures Turn(op, Quiet(-1, i, x, -1), i, from).1 == Pause(Some(x))
  {
    QuietBrowse(op.tool.actions, Quiet(-1, i, x, -1), i, from, x);
  }

  /** A chain that gets to operation `b` and finishes it. */
  lemma {:induction false} CanFinish(plan: seq<Operation>, continueOnError: bool, from: nat, i: nat, b: nat, u: nat)
      returns (envs: seq<Env>)
    requires i <= b < |plan| && Comes(plan, continueOnError, i, from, b, u) && Finishable(plan[b], u)
    ensures Finished(b) in Chain(plan, continueOnError, envs, from, i).log
    ensures FinishedFrom(plan, Chain(plan, continueOnError, envs, from, i).log, b, u)
    decreases b - i
  {
    if i == b {
      envs := [Quiet(-1, -1, -1, -1)];
      ChainUnfolds(plan, continueOnError, envs, from, b);
      QuietTurn(plan[b], b, from, -1);
      TurnIsAbout(plan[b], envs[0], b, from);
      OwnTurn(plan, continueOnError, envs, from, b);
    } else {
      var x: nat :| Leaves(plan[i], continueOnError, from, x) && Comes(plan, continueOnError, i + 1, x, b, u);
      var rest := CanFinish(plan, continueOnError, x, i + 1, b, u);
      if x == from {
        envs := PassOne(plan, continueOnError, from, i, b, u, rest);
      } else {
        LeavesLater(plan[i], continueOnError, from, x);
        var later := PassOne(plan, continueOnError, x, i, b, u, rest);
        envs := [Quiet(-1, i, x, -1)] + later;
        assert envs[1..] == later;
        PausingTurn(plan[i], i, from, x);
        ChainUnfolds(plan, continueOnError, envs, from, i);
        SkipTurn(plan, envs[0], from, i, b, Chain(plan, continueOnError, later, x, i).log);
      }
    }
  }

  lemma {:induction false} LeavesLater(op: Operation, continueOnError: bool, from: nat, x: nat)
    requires Leaves(op, continueOnError, from, x)
    ensures Leaves(op, continueOnError, x, x)
  {
  }

  /** Settles operation `i` and pauses before the next one. */
  lemma {:induction false} PassOne(plan: seq<Operation>, continueOnError: bool, v: nat, i: nat, b: nat, u: nat,
                                   rest: seq<Env>) returns (envs: seq<Env>)
    requires i < b < |plan| && Leaves(plan[i], continueOnError, v, v)
    requires Finished(b) in Chain(plan, continueOnError, rest, v, i + 1).log
    requires FinishedFrom(plan, Chain(plan, continueOnError, rest, v, i + 1).log, b, u)
    ensures Finished(b) in Chain(plan, continueOnError, envs, v, i).log
    ensures FinishedFrom(plan, Chain(plan, continueOnError, envs, v, i).log, b, u)
  {
    var env := Quiet(i + 1, -1, -1, if Finishable(plan[i], v) then -1 else i);
    envs := [env] + rest;
    assert envs[1..] == rest;
    if Finishable(plan[i], v) {
      QuietTurn(plan[i], i, v, i + 1);
    } else {
      FailingTurn(plan[i], i, v, i + 1);
    }
    ChainUnfolds(plan, continueOnError, envs, v, i);
    ChainUnfolds(plan, continueOnError, envs, v, i + 1);
    assert Turn(plan[i + 1], env, i + 1, v) == ([Suspended(i + 1, false)], Pause(None));
    var tail := Chain(plan, continueOnError, rest, v, i + 1).log;
    NoActions([Suspended(i + 1, false)], b);
    ActionsConcat([Suspended(i + 1, false)], tail, b);
    SkipTurn(plan, env, v, i, b, [Suspended(i + 1, false)] + tail);
  }

  // ---- the theorems ----

  /** Some chain finishes an operation if and only if the plan lets it come there with a checkpoint behind which there
      is no human pause. */
  lemma {:induction false} FinishesExactly(plan: seq<Operation>, continueOnError: bool, from: nat, b: nat)
    requires b < |plan|
    ensures (exists envs :: Finished(b) in Chain(plan, continueOnError, envs, from, 0).log)
            <==> exists u :: Comes(plan, continueOnError, 0, from, b, u) && Finishable(plan[b], u)
  {
    if envs :| Finished(b) in Chain(plan, continueOnError, envs, from, 0).log {
      var u := ChainComes(plan, continueOnError, envs, from, 0, b);
    }
    if u :| Comes(plan, continueOnError, 0, from, b, u) && Finishable(plan[b], u) {
      var envs := CanFinish(plan, continueOnError, from, 0, b, u);
    }
  }

  lemma {:induction false} OneBrowserComes(plan: seq<Operation>, continueOnError: bool, from: nat, i: nat, o: nat,
                                           u: nat)
    requires OnlyBrowserOp(plan, o) && i <= o
    ensures Comes(plan, continueOnError, i, from, o, u) <==>
            u == from && (continueOnError || forall j :: i <= j < o ==> !plan[j].tool.Unsupported?)
    decreases o - i
  {
    if i < o {
      OneBrowserComes(plan, continueOnError, from, i + 1, o, u);
      assert forall x :: Leaves(plan[i], continueOnError, from, x) ==> x == from;
      assert Leaves(plan[i], continueOnError, from, from) <==> continueOnError || !plan[i].tool.Unsupported?;
    }
  }

  /** A `pause_for_human` action saves its own index, so every resume pauses there again. For plans with one browser
      operation: some chain finishes it if and only if no human pause stands at or behind the checkpoint, and no
      unsupported operation stands before it unless errors are passed over. */
  lemma {:induction false} HumanPauseIsNeverPassed(plan: seq<Operation>, continueOnError: bool, from: nat, o: nat)
    requires OnlyBrowserOp(plan, o)
    ensures (exists envs :: Finished(o) in Chain(plan, continueOnError, envs, from, 0).log) <==>
            && (forall h :: from <= h < |plan[o].tool.actions| ==> plan[o].tool.actions[h].Act?)
            && (continueOnError || forall j :: 0 <= j < o ==> !plan[j].tool.Unsupported?)
  {
    FinishesExactly(plan, continueOnError, from, o);
    OneBrowserComes(plan, continueOnError, from, 0, o, from);
    forall u | Comes(plan, continueOnError, 0, from, o, u) ensures u == from {
      OneBrowserComes(plan, continueOnError, from, 0, o, u);
    }
  }

  const HUMAN_PAGE := Operation(Browser([Act("open"), PauseForHuman, Act("read")]), "browser", "browser", "")

  /** A page with a human pause: no chain finishes it, however often it is resumed. */
  lemma {:induction false} HumanPageIsNeverFinished(continueOnError: bool, envs: seq<Env>)
    ensures Finished(0) !in Chain([HUMAN_PAGE], continueOnError, envs, 0, 0).log
  {
    assert OnlyBrowserOp([HUMAN_PAGE], 0);
    assert [HUMAN_PAGE][0].tool.actions[1].PauseForHuman?;
    HumanPauseIsNeverPassed([HUMAN_PAGE], continueOnError, 0, 0);
  }

  /** The chain finishes the browser operation without performing its whole list. */
  ghost predicate Skips(plan: seq<Operation>, log: seq<Event>, b: nat) {
    && b < |plan| && plan[b].tool.Browser?
    && Finished(b) in log && Actions(log, b) != Range(0, |plan[b].tool.actions|)
  }

  lemma {:induction false} RangesDiffer(u: nat, n: nat)
    ensures Range(u, n) != Range(0, n) <==> u > 0 && n > 0
  {
    RangeMember(u, n, 0);
    RangeMember(0, n, 0);
    if n == 0 {
      EmptyRange(0);
    }
  }

  /** The attached checkpoint makes a browser operation skip actions in some chain if and only if the plan lets a chain
      come to it with a checkpoint above 0 behind which it has no human pause, and it has any actions; in all other
      plans, every browser operation that a chain finishes has performed its whole list. */
  lemma {:induction false} SkipsExactly(plan: seq<Operation>, continueOnError: bool, b: nat)
    requires b < |plan| && plan[b].tool.Browser?
    ensures (exists envs :: Skips(plan, Chain(plan, continueOnError, envs, 0, 0).log, b)) <==>
            exists u :: u > 0 && plan[b].tool.actions != []
                        && Comes(plan, continueOnError, 0, 0, b, u) && Finishable(plan[b], u)
  {
    var n := |plan[b].tool.actions|;
    if envs :| Skips(plan, Chain(plan, continueOnError, envs, 0, 0).log, b) {
      var u := ChainComes(plan, continueOnError, envs, 0, 0, b);
      RangesDiffer(u, n);
    }
    if u :| u > 0 && n > 0 && Comes(plan, continueOnError, 0, 0, b, u) && Finishable(plan[b], u) {
      var envs := CanFinish(plan, continueOnError, 0, 0, b, u);
      RangesDiffer(u, n);
      assert Skips(plan, Chain(plan, continueOnError, envs, 0, 0).log, b);
    }
  }

  const FIRST_PAGE := Operation(Browser([Act("open"), Act("read")]), "browser", "browser", "")
  const SECOND_PAGE := Operation(Browser([Act("open")]), "browser", "browser", "")

  /** Two pages, paused in the first before its second action and resumed: the second page is finished without its
      action 0. */
  lemma {:induction false} SecondPageIsSkipped()
    ensures var log := Chain([FIRST_PAGE, SECOND_PAGE], false, [Quiet(-1, 0, 1, -1), Quiet(-1, -1, -1, -1)], 0, 0).log;
            Finished(1) in log && Actions(log, 1) == []
  {
    var plan := [FIRST_PAGE, SECOND_PAGE];
    var pausing, quiet := Quiet(-1, 0, 1, -1), Quiet(-1, -1, -1, -1);
    assert [pausing, quiet][1..] == [quiet];
    PausingTurn(plan[0], 0, 0, 1);
    ChainUnfolds(plan, false, [pausing, quiet], 0, 0);
    QuietTurn(plan[0], 0, 1, -1);
    ChainUnfolds(plan, false, [quiet], 1, 0);
    QuietTurn(plan[1], 1, 1, -1);
    ChainUnfolds(plan, false, [quiet], 1, 1);
    TurnIsAbout(plan[1], quiet, 1, 1);
    EmptyRange(1);
    OwnTurn(plan, false, [quiet], 1, 1);
    SkipTurn(plan, quiet, 1, 0, 1, Chain(plan, false, [quiet], 1, 1).log);
    SkipTurn(plan, pausing, 0, 0, 1, Chain(plan, false, [quiet], 1, 0).log);
  }
}
