/** Interrupts and execution together (scripts/orion_local_worker.py, scripts/orion_local_worker_execution.py): the
    order in which a chain of sessions takes its control readings and starts the bodies of its operations, and what
    follows when the readings come from the interrupt controller. */
module InterruptedExecution {
  import opened LocalExecution
  import opened ResumeChains
  import opened Text
  import I = Interrupts
  import T = TurnOutcomes

  /** A control reading, or the start of an operation's body. */
  datatype Mark = Read(reading: Reading) | Start(op: nat)

  // ---- readings and starts, in order ----

  /** The readings of the browser's action loop. */
  function BrowseMarks(actions: seq<Action>, env: Env, op: nat, k: nat): (ms: seq<Mark>)
    decreases |actions| - k
  {
    if k >= |actions| then []
    else
      [Read(env.during(op, k))] +
      if env.during(op, k).pause || actions[k].PauseForHuman? || env.actionRaises(op, k) then []
      else BrowseMarks(actions, env, op, k + 1)
  }

  function BodyMarks(op: Operation, env: Env, i: nat, from: nat): (ms: seq<Mark>) {
    if op.tool.Unsupported? then []
    else if env.body(i).RaisesEarly? then [Start(i)]
    else if op.tool.Guarded? then [Start(i), Read(env.inside(i))]
    else if op.tool.Browser? then [Start(i)] + BrowseMarks(op.tool.actions, env, i, from)
    else [Start(i)]
  }

  function TurnMarks(op: Operation, env: Env, i: nat, from: nat): (ms: seq<Mark>) {
    [Read(env.before(i))] + if env.before(i).interrupt || env.before(i).pause then [] else BodyMarks(op, env, i, from)
  }

  /** The marks after one turn: `paused` is what follows a pause, `next` what follows otherwise. */
  function MarksAfter(continueOnError: bool, ms: seq<Mark>, v: Verdict, paused: seq<Mark>,
                      next: seq<Mark>): (r: seq<Mark>) {
    ms + if v.Pause? then paused else if v.Error? && !continueOnError then [] else next
  }

  /** The marks of a whole chain. */
  function ChainMarks(plan: seq<Operation>, continueOnError: bool, envs: seq<Env>, from: nat, i: nat): (ms: seq<Mark>)
    decreases |envs|, |plan| - i
  {
    if envs == [] || i >= |plan| then []
    else
      var verdict := Turn(plan[i], envs[0], i, from).1;
      MarksAfter(continueOnError, TurnMarks(plan[i], envs[0], i, from), verdict,
                 ChainMarks(plan, continueOnError, envs[1..], Leaving(verdict, from), i),
                 ChainMarks(plan, continueOnError, envs, from, i + 1))
  }

  // ---- which readings are taken ----

  /** The browser loop takes the reading of each action that it comes to, in order, and no other: of the first, and of
      the next as long as actions are performed. */
  lemma {:induction false} BrowseReadsExactly(actions: seq<Action>, env: Env, op: nat, k: nat, j: nat)
    ensures var ms := BrowseMarks(actions, env, op, k);
            && (j < |ms| <==> k + j < |actions| && T.PerformsAll(actions, env, op, k, k + j))
            && (j < |ms| ==> ms[j] == Read(env.during(op, k + j)))
    decreases |actions| - k
  {
    if k < |actions| {
      if j > 0 {
        if T.Performs(actions, env, op, k) {
          BrowseReadsExactly(actions, env, op, k + 1, j - 1);
          T.PerformsOneMore(actions, env, op, k, k + j);
        } else {
          assert !T.PerformsAll(actions, env, op, k, k + j);
        }
      }
    }
  }

  /** A turn takes the reading before its operation; if it starts, the body follows, and in it one more reading of a
      guarded tool, or those of the browser loop, unless the body raises at once. */
  lemma {:induction false} TurnReadsExactly(op: Operation, env: Env, i: nat, from: nat)
    ensures var ms := TurnMarks(op, env, i, from);
            && ms != [] && ms[0] == Read(env.before(i))
            && (|ms| > 1 <==> T.Starts(op, env, i)) && (|ms| > 1 ==> ms[1] == Start(i))
            && (T.Starts(op, env, i) && !env.body(i).RaisesEarly? ==>
                  match op.tool
                  case Guarded => ms[2..] == [Read(env.inside(i))]
                  case Browser(actions) => ms[2..] == BrowseMarks(actions, env, i, from)
                  case _ => ms[2..] == [])
            && (T.Starts(op, env, i) && env.body(i).RaisesEarly? ==> |ms| == 2)
  {
  }

  // ---- the starts are those of the log ----

  function Starts(ms: seq<Mark>): (ops: seq<nat>) {
    if ms == [] then [] else (if ms[0].Start? then [ms[0].op] else []) + Starts(ms[1..])
  }

  function Begans(log: seq<Event>): (ops: seq<nat>) {
    if log == [] then [] else (if log[0].Began? then [log[0].op] else []) + Begans(log[1..])
  }

  lemma {:induction false} StartsConcat(a: seq<Mark>, b: seq<Mark>)
    ensures Starts(a + b) == Starts(a) + Starts(b)
  {
    if a == [] {
      assert a + b == b;
    } else {
      StartsConcat(a[1..], b);
      assert (a + b)[1..] == a[1..] + b;
      ConcatAssoc(if a[0].Start? then [a[0].op] else [], Starts(a[1..]), Starts(b));
    }
  }

  lemma {:induction false} BegansConcat(a: seq<Event>, b: seq<Event>)
    ensures Begans(a + b) == Begans(a) + Begans(b)
  {
    if a == [] {
      assert a + b == b;
    } else {
      BegansConcat(a[1..], b);
      assert (a + b)[1..] == a[1..] + b;
      ConcatAssoc(if a[0].Began? then [a[0].op] else [], Begans(a[1..]), Begans(b));
    }
  }

  lemma {:induction false} NoStarts(ms: seq<Mark>)
    requires forall m :: m in ms ==> m.Read?
    ensures Starts(ms) == []
  {
    if ms != [] {
      assert ms[0] in ms;
      NoStarts(ms[1..]);
    }
  }

  lemma {:induction false} NoBegans(log: seq<Event>)
    requires forall e :: e in log ==> !e.Began?
    ensures Begans(log) == []
  {
    if log != [] {
      NoBegans(log[1..]);
    }
  }

  lemma {:induction false} BrowseMarksRead(actions: seq<Action>, env: Env, op: nat, k: nat)
    ensures forall m :: m in BrowseMarks(actions, env, op, k) ==> m.Read?
    decreases |actions| - k
  {
    if k < |actions| {
      BrowseMarksRead(actions, env, op, k + 1);
    }
  }

  /** One start, then readings; one begin, then other events. */
  lemma {:induction false} OneStart(i: nat, ms: seq<Mark>)
    requires forall m :: m in ms ==> m.Read?
    ensures Starts([Start(i)] + ms) == [i]
  {
    NoStarts(ms);
    assert ([Start(i)] + ms)[1..] == ms;
  }

  lemma {:induction false} OneBegan(i: nat, log: seq<Event>)
    requires forall e :: e in log ==> !e.Began?
    ensures Begans([Began(i)] + log) == [i]
  {
    NoBegans(log);
    assert ([Began(i)] + log)[1..] == log;
  }

  lemma {:induction false} BodyStarts(op: Operation, env: Env, i: nat, from: nat)
    ensures Starts(BodyMarks(op, env, i, from)) == (if op.tool.Unsupported? then [] else [i])
    ensures Begans(BodyOf(op, env, i, from).0) == (if op.tool.Unsupported? then [] else [i])
  {
    var log := BodyOf(op, env, i, from).0;
    if op.tool.Unsupported? {
      NoBegans(log);
    } else {
      if op.tool.Browser? {
        BrowseMarksRead(op.tool.actions, env, i, from);
        BrowseIsPaced(op.tool.actions, env, i, from);
      }
      var ms := BodyMarks(op, env, i, from);
      assert ms == [Start(i)] + ms[1..];
      OneStart(i, ms[1..]);
      assert log == [Began(i)] + log[1..];
      OneBegan(i, log[1..]);
    }
  }

  lemma {:induction false} TurnStarts(op: Operation, env: Env, i: nat, from: nat)
    ensures Starts(TurnMarks(op, env, i, from)) == Begans(Turn(op, env, i, from).0)
  {
    BodyStarts(op, env, i, from);
    var body := if env.before(i).interrupt || env.before(i).pause then [] else BodyMarks(op, env, i, from);
    assert TurnMarks(op, env, i, from)[1..] == body;
    if env.before(i).interrupt || env.before(i).pause {
      NoBegans(Turn(op, env, i, from).0);
    }
  }

  lemma {:induction false} MarksJoin(ms: seq<Mark>, rest: seq<Mark>, log: seq<Event>, more: seq<Event>)
    requires Starts(ms) == Begans(log) && Starts(rest) == Begans(more)
    ensures Starts(ms + rest) == Begans(log + more)
  {
    StartsConcat(ms, rest);
    BegansConcat(log, more);
  }

  /** One turn and what follows it, whichever way the turn ends. */
  lemma {:induction false} MarksStep(continueOnError: bool, i: nat, v: Verdict, ms: seq<Mark>, log: seq<Event>,
                                     paused: seq<Mark>, pausedReport: Report, next: seq<Mark>, nextReport: Report)
    requires Starts(ms) == Begans(log)
    requires Starts(paused) == Begans(pausedReport.log) && Starts(next) == Begans(nextReport.log)
    ensures Starts(MarksAfter(continueOnError, ms, v, paused, next)) ==
            Begans(AfterTurn(continueOnError, i, log, v, pausedReport, nextReport).log)
  {
    MarksJoin(ms, paused, log, pausedReport.log);
    MarksJoin(ms, next, log, nextReport.log);
    assert ms + [] == ms;
  }

  /** The starts among the marks are the begins of the log, in the same order. */
  ghost predicate Faithful(plan: seq<Operation>, continueOnError: bool, envs: seq<Env>, from: nat, i: nat) {
    Starts(ChainMarks(plan, continueOnError, envs, from, i)) == Begans(Chain(plan, continueOnError, envs, from, i).log)
  }

  lemma {:induction false} NothingLeft(plan: seq<Operation>, continueOnError: bool, envs: seq<Env>, from: nat, i: nat)
    requires envs == [] || i == |plan|
    ensures Faithful(plan, continueOnError, envs, from, i)
  {
  }

  lemma {:induction false} OneTurn(plan: seq<Operation>, continueOnError: bool, envs: seq<Env>, from: nat, i: nat)
    requires envs != [] && i < |plan|
    requires Faithful(plan, continueOnError, envs[1..], Leaving(Turn(plan[i], envs[0], i, from).1, from), i)
    requires Faithful(plan, continueOnError, envs, from, i + 1)
    ensures Faithful(plan, continueOnError, envs, from, i)
  {
    var (log, verdict) := Turn(plan[i], envs[0], i, from);
    var v := Leaving(verdict, from);
    ChainUnfolds(plan, continueOnError, envs, from, i);
    TurnStarts(plan[i], envs[0], i, from);
    MarksStep(continueOnError, i, verdict, TurnMarks(plan[i], envs[0], i, from), log,
              ChainMarks(plan, continueOnError, envs[1..], v, i), Chain(plan, continueOnError, envs[1..], v, i),
              ChainMarks(plan, continueOnError, envs, from, i + 1), Chain(plan, continueOnError, envs, from, i + 1));
  }

  /** `q` holds of a chain if it holds after the turn, in the same session and in every next one. */
  ghost predicate Inductive(total: nat, q: (seq<Env>, nat, nat) -> bool, envs: seq<Env>, from: nat, i: nat) {
    envs != [] && i < total && (forall u: nat :: q(envs[1..], u, i)) && q(envs, from, i + 1) ==> q(envs, from, i)
  }

  /** Induction over chains: turn by turn, and from each pause to the next session. */
  lemma {:induction false} ChainInduction(total: nat, q: (seq<Env>, nat, nat) -> bool, envs: seq<Env>, from: nat,
                                          i: nat)
    requires i <= total
    requires forall es, v: nat :: q(es, v, total)
    requires forall v: nat, k: nat :: q([], v, k)
    requires forall es, v: nat, k: nat :: Inductive(total, q, es, v, k)
    ensures q(envs, from, i)
    decreases |envs|, total - i
  {
    if envs != [] && i < total {
      forall u: nat ensures q(envs[1..], u, i) {
        ChainInduction(total, q, envs[1..], u, i);
      }
      ChainInduction(total, q, envs, from, i + 1);
      assert Inductive(total, q, envs, from, i);
    }
  }

  lemma {:induction false} MarksAreTrue(plan: seq<Operation>, continueOnError: bool, envs: seq<Env>, from: nat, i: nat)
    requires i <= |plan|
    ensures Faithful(plan, continueOnError, envs, from, i)
  {
    var q := (es: seq<Env>, v: nat, k: nat) => Faithful(plan, continueOnError, es, v, k);
    forall es, v: nat ensures q(es, v, |plan|) {
      NothingLeft(plan, continueOnError, es, v, |plan|);
    }
    forall v: nat, k: nat ensures q([], v, k) {
      NothingLeft(plan, continueOnError, [], v, k);
    }
    forall es, v: nat, k: nat ensures Inductive(|plan|, q, es, v, k) {
      if es != [] && k < |plan| && (forall u: nat :: q(es[1..], u, k)) && q(es, v, k + 1) {
        assert q(es[1..], Leaving(Turn(plan[k], es[0], k, v).1, v), k);
        OneTurn(plan, continueOnError, es, v, k);
      }
    }
    ChainInduction(|plan|, q, envs, from, i);
  }

  // ---- a body starts only right after a clear reading ----

  ghost predicate Guarded(ms: seq<Mark>) {
    forall j :: 0 <= j < |ms| && ms[j].Start? ==> j > 0 && ms[j - 1] == Read(Reading(false, false))
  }

  lemma {:induction false} GuardedConcat(a: seq<Mark>, b: seq<Mark>)
    requires Guarded(a) && Guarded(b)
    ensures Guarded(a + b)
  {
    var ms := a + b;
    forall j | 0 <= j < |ms| && ms[j].Start? ensures j > 0 && ms[j - 1] == Read(Reading(false, false)) {
      if j >= |a| {
        assert b[j - |a|].Start?;
      }
    }
  }

  lemma {:induction false} TurnIsGuarded(op: Operation, env: Env, i: nat, from: nat)
    ensures Guarded(TurnMarks(op, env, i, from))
  {
    if op.tool.Browser? {
      BrowseMarksRead(op.tool.actions, env, i, from);
    }
    var ms, body := TurnMarks(op, env, i, from), BodyMarks(op, env, i, from);
    assert forall j :: 1 <= j < |body| ==> body[j].Read?;
  }

  lemma {:induction false} ChainIsGuarded(plan: seq<Operation>, continueOnError: bool, envs: seq<Env>, from: nat,
                                          i: nat)
    ensures Guarded(ChainMarks(plan, continueOnError, envs, from, i))
    decreases |envs|, |plan| - i
  {
    if envs != [] && i < |plan| {
      var v := Leaving(Turn(plan[i], envs[0], i, from).1, from);
      var ms := TurnMarks(plan[i], envs[0], i, from);
      TurnIsGuarded(plan[i], envs[0], i, from);
      ChainIsGuarded(plan, continueOnError, envs[1..], v, i);
      ChainIsGuarded(plan, continueOnError, envs, from, i + 1);
      GuardedConcat(ms, ChainMarks(plan, continueOnError, envs[1..], v, i));
      GuardedConcat(ms, ChainMarks(plan, continueOnError, envs, from, i + 1));
      assert ms + [] == ms;
    }
  }

  /** From the first reading that reports an interrupt, whether it is taken before an operation, inside one or between
      browser actions, and while all later readings report it, no further body starts, over a whole chain of sessions
      and with `continue_on_error` on or off. */
  lemma {:induction false} InterruptStopsBodies(plan: seq<Operation>, continueOnError: bool, envs: seq<Env>, from: nat,
                                                i: nat, r: nat)
    requires var ms := ChainMarks(plan, continueOnError, envs, from, i);
             && r < |ms| && ms[r].Read?
             && forall j :: r <= j < |ms| && ms[j].Read? ==> ms[j].reading.interrupt
    ensures var ms := ChainMarks(plan, continueOnError, envs, from, i);
            forall j :: r <= j < |ms| ==> !ms[j].Start?
  {
    ChainIsGuarded(plan, continueOnError, envs, from, i);
    var ms := ChainMarks(plan, continueOnError, envs, from, i);
    forall j | r < j < |ms| ensures !ms[j].Start? {
      assert ms[j - 1].Read? ==> ms[j - 1].reading.interrupt;
    }
  }

  // ---- readings taken from the controller ----

  /** `moment` says after how many steps of the controller each reading of the chain is taken: it reports an interrupt
      at least if the controller has one for the run. */
  ghost predicate ReadsController(ms: seq<Mark>, runId: string, steps: seq<I.Step>, moment: nat -> nat) {
    forall j: nat :: j < |ms| && ms[j].Read? ==>
      && moment(j) <= |steps|
      && (I.Reports(I.Run(steps[..moment(j)]).ctl, runId) ==> ms[j].reading.interrupt)
  }

  /** Between the machine-wide request handled as step `r` and moment `n`, nothing replaces or removes it. */
  ghost predicate Stands(steps: seq<I.Step>, r: nat, n: nat) {
    && r < n <= |steps| && steps[r].Request? && I.IsMachine(steps[r].s)
    && forall k :: r < k < n ==> !I.CanLift(steps[k])
  }

  lemma {:induction false} RequestStores(steps: seq<I.Step>, r: nat)
    requires r < |steps| && steps[r].Request?
    ensures I.Run(steps[..r + 1]).ctl.snapshot == Some(steps[r].s)
  {
    I.RunOneMore(steps, r + 1);
  }

  lemma {:induction false} StandingIsReported(steps: seq<I.Step>, r: nat, n: nat, runId: string)
    requires Stands(steps, r, n)
    ensures I.Run(steps[..n]).ctl.snapshot == Some(steps[r].s) && I.Reports(I.Run(steps[..n]).ctl, runId)
  {
    RequestStores(steps, r);
    I.MachineInterruptPersists(steps, r + 1, n, runId);
  }

  /** The joint guarantee. From a handled hard kill until it is lifted: a body starts in any session only if its reading
      was taken before the hard kill was handled, or after it was lifted; and the active process, whatever its run, has
      a kill pending or has been killed, has exited, or the system refused to kill it. */
  lemma {:induction false} HardKillStopsTheWorker(plan: seq<Operation>, continueOnError: bool, envs: seq<Env>,
                                                  from: nat,
                                                  i: nat, runId: string, steps: seq<I.Step>, moment: nat -> nat,
                                                  r: nat, n: nat)
    requires ReadsController(ChainMarks(plan, continueOnError, envs, from, i), runId, steps, moment)
    requires Stands(steps, r, n)
    ensures var ms := ChainMarks(plan, continueOnError, envs, from, i);
            forall j: nat :: j < |ms| && ms[j].Start? ==> j > 0 && (moment(j - 1) <= r || moment(j - 1) > n)
    ensures var w := I.Run(steps[..n]);
            forall p :: w.ctl.process == Some(p) ==> I.Answered(w, p) || I.Kill(p) in w.pending
  {
    ChainIsGuarded(plan, continueOnError, envs, from, i);
    var ms := ChainMarks(plan, continueOnError, envs, from, i);
    forall j: nat | j < |ms| && ms[j].Start? ensures j > 0 && (moment(j - 1) <= r || moment(j - 1) > n) {
      assert ms[j - 1] == Read(Reading(false, false));
      if r < moment(j - 1) <= n {
        StandingIsReported(steps, r, moment(j - 1), runId);
      }
    }
    StandingIsReported(steps, r, n, runId);
    I.NoKillIsLost(steps[..n]);
    var w := I.Run(steps[..n]);
    forall p | w.ctl.process == Some(p) ensures I.Hit(w.ctl, p) {
    }
  }
}
