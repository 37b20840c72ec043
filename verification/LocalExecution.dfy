/** Checkpointed local execution (scripts/orion_local_worker_execution.py).

    A plan of operations runs from a saved index. Before and inside an operation the worker reads its control state;
    it may pause, fail or be interrupted at any of them, and a paused run is resumed later from the checkpoint it
    sent. `Session` is one run of the pack loop, `Chain` any number of sessions joined by pauses.

    Everything outside the worker (control readings, tools that fail) is an `Env`: one answer per place it is asked. */
module LocalExecution {
  import opened Text

  /** What `_control_state` returns: the two flags the worker looks at. */
  datatype Reading = Reading(pause: bool, interrupt: bool)

  datatype Action = PauseForHuman | Act(name: string)

  datatype Tool =
    | Direct                         // shell.execute, filesystem.read_write, browser modes without actions
    | Guarded                        // screenshot.capture, computer_control: read the control state once more
    | Browser(actions: seq<Action>)  // browser_automation.interactive in capture_page mode
    | Unsupported

  datatype Operation = Operation(tool: Tool, primaryId: string, genericId: string, dynamicDecision: string)

  /** How the body of an operation behaves: it may raise before or after its effect. */
  datatype Body = Fine | RaisesEarly | RaisesLate

  datatype Env = Env(
    before: nat -> Reading,           // reading taken before operation i
    inside: nat -> Reading,           // second reading of a guarded operation i
    during: (nat, nat) -> Reading,    // reading before browser action k of operation i
    actionRaises: (nat, nat) -> bool,
    body: nat -> Body)

  /** What happened, in order. `Began` marks the start of an operation's body. */
  datatype Event =
    | Began(op: nat)
    | Acted(op: nat, action: nat)
    | Finished(op: nat)
    | Failed(op: nat)
    | Suspended(op: nat, inBrowser: bool)

  datatype Ending =
    | Completed
    | Paused(next: nat, browser: Option<nat>)  // checkpoint: next_operation_index, browser next_action_index
    | Stopped(at: nat)

  datatype Report = Report(log: seq<Event>, ending: Ending)

  // ---- one browser operation ----

  datatype Browsed = Through | Waits(next: nat) | Raises

  /** The action loop of a capture_page operation, from action `k`. */
  function Browse(actions: seq<Action>, env: Env, op: nat, k: nat): (r: (seq<Event>, Browsed))
    decreases |actions| - k
  {
    if k >= |actions| then ([], Through)
    else if env.during(op, k).pause || actions[k].PauseForHuman? then ([], Waits(k))
    else if env.actionRaises(op, k) then ([], Raises)
    else
      var r := Browse(actions, env, op, k + 1);
      ([Acted(op, k)] + r.0, r.1)
  }

  method BrowserCapture(actions: seq<Action>, env: Env, op: nat, resumeFrom: nat)
    returns (log: seq<Event>, outcome: Browsed)
    ensures (log, outcome) == Browse(actions, env, op, resumeFrom)
  {
    log, outcome := [], Through;
    var k := resumeFrom;
    assert [] + Browse(actions, env, op, k).0 == Browse(actions, env, op, k).0;
    while k < |actions|
      invariant resumeFrom <= k && outcome == Through
      invariant k <= |actions| || k == resumeFrom
      invariant Browse(actions, env, op, resumeFrom)
                == (log + Browse(actions, env, op, k).0, Browse(actions, env, op, k).1)
    {
      assert log + [] == log;
      if env.during(op, k).pause {
        outcome := Waits(k);
        return;
      }
      if actions[k].PauseForHuman? {
        outcome := Waits(k);
        return;
      }
      if env.actionRaises(op, k) {
        outcome := Raises;
        return;
      }
      ghost var rest := Browse(actions, env, op, k + 1).0;
      assert log + ([Acted(op, k)] + rest) == (log + [Acted(op, k)]) + rest;
      log := log + [Acted(op, k)];
      k := k + 1;
    }
    assert log + [] == log;
  }

  // ---- one session of the pack loop ----

  datatype Verdict = Ok | Error | Pause(browser: Option<nat>)

  function BrowserOp(actions: seq<Action>, env: Env, op: nat, browserFrom: nat): (r: (seq<Event>, Verdict)) {
    var (acts, outcome) := Browse(actions, env, op, browserFrom);
    if outcome.Raises? || env.body(op) != Fine then ([Began(op)] + acts + [Failed(op)], Error)
    else if outcome.Waits? then ([Began(op)] + acts + [Suspended(op, true)], Pause(Some(outcome.next)))
    else ([Began(op)] + acts + [Finished(op)], Ok)
  }

  function BodyOf(op: Operation, env: Env, i: nat, browserFrom: nat): (r: (seq<Event>, Verdict)) {
    if op.tool.Unsupported? then ([Failed(i)], Error)
    else if env.body(i).RaisesEarly? then ([Began(i), Failed(i)], Error)
    else if op.tool.Guarded? && env.inside(i).interrupt then ([Began(i), Failed(i)], Error)
    else if op.tool.Guarded? && env.inside(i).pause then ([Began(i), Suspended(i, false)], Pause(None))
    else if op.tool.Browser? then BrowserOp(op.tool.actions, env, i, browserFrom)
    else if env.body(i).RaisesLate? then ([Began(i), Failed(i)], Error)
    else ([Began(i), Finished(i)], Ok)
  }

  /** One turn of the loop: an interrupt counts as an error of the operation, a pause ends the session. */
  function Turn(op: Operation, env: Env, i: nat, browserFrom: nat): (r: (seq<Event>, Verdict)) {
    if env.before(i).interrupt then ([Failed(i)], Error)
    else if env.before(i).pause then ([Suspended(i, false)], Pause(None))
    else BodyOf(op, env, i, browserFrom)
  }

  /** The pack loop from operation `i` on. */
  function Session(plan: seq<Operation>, continueOnError: bool, env: Env, browserFrom: nat, i: nat): (r: Report)
    decreases |plan| - i
  {
    if i >= |plan| then Report([], Completed)
    else
      var (log, verdict) := Turn(plan[i], env, i, browserFrom);
      Continue(continueOnError, i, log, verdict, Session(plan, continueOnError, env, browserFrom, i + 1))
  }

  /** A turn followed by the rest of the session, if the turn lets it come to that. */
  function Continue(continueOnError: bool, i: nat, log: seq<Event>, verdict: Verdict, rest: Report): (r: Report) {
    match verdict
    case Pause(browser) => Report(log, Paused(i, browser))
    case Error => if !continueOnError then Report(log, Stopped(i)) else Report(log + rest.log, rest.ending)
    case Ok => Report(log + rest.log, rest.ending)
  }

  /** `_normalized_resume_operation_index` */
  function ResumeIndex(saved: int, total: nat): (i: nat)
    ensures i <= total
    ensures 0 <= saved <= total ==> i == saved
  {
    if saved < 0 then 0 else if saved > total then total else saved
  }

  datatype StepRow = StepRow(index: nat, completed: bool)

  /** The `steps` rows a log leaves behind; an operation that waits in the browser is listed as completed. */
  function StepRows(log: seq<Event>): (rows: seq<StepRow>) {
    if log == [] then []
    else
      var e := log[|log| - 1];
      StepRows(log[..|log| - 1]) + RowsFor(e)
  }

  function RowsFor(e: Event): (rows: seq<StepRow>) {
    match e
    case Finished(i) => [StepRow(i, true)]
    case Failed(i) => [StepRow(i, false)]
    case Suspended(i, true) => [StepRow(i, true)]
    case _ => []
  }

  lemma {:induction false} RowsOneMore(log: seq<Event>, e: Event)
    ensures StepRows(log + [e]) == StepRows(log) + RowsFor(e)
    ensures ErrorRows(log + [e]) == ErrorRows(log) + if e.Failed? then [e.op] else []
  {
    assert (log + [e])[..|log|] == log;
  }

  // ---- the policy gate ----

  datatype Item = Item(toolId: string, decision: string)

  datatype Gate = Cleared | Blocked(tools: set<string>) | NeedsApproval(tools: set<string>)

  /** The last decision recorded for a tool; "" if there is none. */
  function DecisionFor(items: seq<Item>, tool: string): (d: string) {
    if items == [] then ""
    else
      var last := items[|items| - 1];
      if last.toolId == tool && tool != "" && last.decision != "" then last.decision
      else DecisionFor(items[..|items| - 1], tool)
  }

  /** Item `k` is the last one that decides on the tool. */
  ghost predicate DecidesLast(items: seq<Item>, tool: string, k: nat) {
    && k < |items| && tool != "" && items[k].toolId == tool && items[k].decision != ""
    && forall j :: k < j < |items| ==> items[j].toolId != tool || items[j].decision == ""
  }

  /** The decision for a tool is that of the last item that names the tool and decides; without one there is none. */
  lemma {:induction false} DecisionIsLast(items: seq<Item>, tool: string)
    ensures DecisionFor(items, tool) != "" <==> exists k: nat :: DecidesLast(items, tool, k)
    ensures forall k: nat :: DecidesLast(items, tool, k) ==> DecisionFor(items, tool) == items[k].decision
  {
    if items != [] {
      var n := |items| - 1;
      DecisionIsLast(items[..n], tool);
      if items[n].toolId == tool && tool != "" && items[n].decision != "" {
        assert DecidesLast(items, tool, n);
      } else {
        forall k: nat ensures DecidesLast(items, tool, k) <==> DecidesLast(items[..n], tool, k) {
          if DecidesLast(items[..n], tool, k) {
            assert forall j :: k < j < n ==> items[..n][j] == items[j];
          }
          if DecidesLast(items, tool, k) {
            assert items[..n][k] == items[k];
          }
        }
      }
    }
  }

  /** Some rule gives `op` the verdict `word`, or the evaluation at run time gives it `dynamicWord`. */
  predicate Condemned(items: seq<Item>, op: Operation, word: string, dynamicWord: string) {
    && op.primaryId != ""
    && (|| DecisionFor(items, op.primaryId) == word
        || DecisionFor(items, op.genericId) == word
        || (&& DecisionFor(items, op.primaryId) == "" && DecisionFor(items, op.genericId) == ""
            && op.dynamicDecision == dynamicWord))
  }

  predicate IsBlocked(items: seq<Item>, op: Operation) {
    Condemned(items, op, "blocked", "deny")
  }

  predicate WantsApproval(items: seq<Item>, op: Operation) {
    Condemned(items, op, "approval_required", "require_confirmation")
  }

  ghost predicate DecidedAs(items: seq<Item>, tool: string, word: string) {
    exists k: nat :: DecidesLast(items, tool, k) && items[k].decision == word
  }

  ghost predicate Undecided(items: seq<Item>, op: Operation) {
    forall k: nat :: !DecidesLast(items, op.primaryId, k) && !DecidesLast(items, op.genericId, k)
  }

  /** An operation is blocked or withheld exactly if the last rule for its capability or for its tool says so, or if no
      rule decides on either of them and the evaluation at run time says so. */
  lemma {:induction false} GateRules(items: seq<Item>, op: Operation)
    ensures IsBlocked(items, op) <==>
            && op.primaryId != ""
            && (|| DecidedAs(items, op.primaryId, "blocked") || DecidedAs(items, op.genericId, "blocked")
                || (Undecided(items, op) && op.dynamicDecision == "deny"))
    ensures WantsApproval(items, op) <==>
            && op.primaryId != ""
            && (|| DecidedAs(items, op.primaryId, "approval_required")
                || DecidedAs(items, op.genericId, "approval_required")
                || (Undecided(items, op) && op.dynamicDecision == "require_confirmation"))
  {
    DecisionIsLast(items, op.primaryId);
    DecisionIsLast(items, op.genericId);
  }

  /** Decisions by tool, later items winning. */
  method ReadDecisions(items: seq<Item>) returns (decisions: map<string, string>)
    ensures forall t :: DecisionFor(items, t) == if t in decisions then decisions[t] else ""
  {
    decisions := map[];
    for i := 0 to |items|
      invariant forall t :: t in decisions ==> decisions[t] != ""
      invariant forall t :: DecisionFor(items[..i], t) == if t in decisions then decisions[t] else ""
    {
      assert items[..i + 1][..i] == items[..i];
      if items[i].toolId != "" && items[i].decision != "" {
        decisions := decisions[items[i].toolId := items[i].decision];
      }
    }
    assert items[..|items|] == items;
  }

  ghost predicate Names(items: seq<Item>, plan: seq<Operation>, word: string, dynamicWord: string, tools: set<string>) {
    && (forall i :: 0 <= i < |plan| && Condemned(items, plan[i], word, dynamicWord) ==> plan[i].primaryId in tools)
    && (forall t :: t in tools ==>
          exists i :: 0 <= i < |plan| && Condemned(items, plan[i], word, dynamicWord) && plan[i].primaryId == t)
  }

  method Offenders(ghost items: seq<Item>, decisions: map<string, string>, plan: seq<Operation>,
                   word: string, dynamicWord: string)
    returns (tools: set<string>)
    requires word != ""
    requires forall t :: DecisionFor(items, t) == if t in decisions then decisions[t] else ""
    ensures Names(items, plan, word, dynamicWord, tools)
  {
    tools := {};
    for i := 0 to |plan|
      invariant Names(items, plan[..i], word, dynamicWord, tools)
    {
      var op := plan[i];
      var byPrimary := if op.primaryId in decisions then decisions[op.primaryId] else "";
      var byGeneric := if op.genericId in decisions then decisions[op.genericId] else "";
      assert byPrimary == DecisionFor(items, op.primaryId) && byGeneric == DecisionFor(items, op.genericId);
      ghost var was := tools;
      if op.primaryId != ""
         && (byPrimary == word || byGeneric == word
             || (byPrimary == "" && byGeneric == "" && op.dynamicDecision == dynamicWord)) {
        tools := tools + {op.primaryId};
      }
      NamesExtends(items, plan, i, word, dynamicWord, was, tools);
    }
    assert plan[..|plan|] == plan;
  }

  lemma {:induction false} NamesExtends(items: seq<Item>, plan: seq<Operation>, i: nat, word: string,
                                        dynamicWord: string,
                     was: set<string>, tools: set<string>)
    requires i < |plan| && Names(items, plan[..i], word, dynamicWord, was)
    requires tools == was + if Condemned(items, plan[i], word, dynamicWord) then {plan[i].primaryId} else {}
    ensures Names(items, plan[..i + 1], word, dynamicWord, tools)
  {
    var longer := plan[..i + 1];
    forall t | t in tools
      ensures exists j ::
                0 <= j < |longer| && Condemned(items, longer[j], word, dynamicWord) && longer[j].primaryId == t
    {
      if t in was {
        var j :| 0 <= j < i && Condemned(items, plan[..i][j], word, dynamicWord) && plan[..i][j].primaryId == t;
        assert longer[j] == plan[..i][j];
      } else {
        assert longer[i] == plan[i];
      }
    }
    forall j | 0 <= j < |longer| && Condemned(items, longer[j], word, dynamicWord)
      ensures longer[j].primaryId in tools
    {
      if j < i {
        assert longer[j] == plan[..i][j];
      }
    }
  }

  /** The gate clears a plan exactly when it neither blocks nor withholds any operation of the whole plan; blocking
      wins over approval, and the tools named are exactly the offending ones. */
  method PolicyGate(items: seq<Item>, plan: seq<Operation>) returns (gate: Gate)
    ensures gate.Blocked? <==> exists i :: 0 <= i < |plan| && IsBlocked(items, plan[i])
    ensures gate.Cleared? <==>
            forall i :: 0 <= i < |plan| ==> !IsBlocked(items, plan[i]) && !WantsApproval(items, plan[i])
    ensures gate.Blocked? ==> Names(items, plan, "blocked", "deny", gate.tools)
    ensures gate.NeedsApproval? ==> Names(items, plan, "approval_required", "require_confirmation", gate.tools)
  {
    var decisions := ReadDecisions(items);
    var blocked := Offenders(items, decisions, plan, "blocked", "deny");
    var approval := Offenders(items, decisions, plan, "approval_required", "require_confirmation");
    gate := if blocked != {} then Blocked(blocked)
            else if approval != {} then NeedsApproval(approval)
            else Cleared;
    if blocked != {} {
      var t :| t in blocked;
      assert exists i :: 0 <= i < |plan| && IsBlocked(items, plan[i]) && plan[i].primaryId == t;
    } else if approval != {} {
      var t :| t in approval;
      assert exists i :: 0 <= i < |plan| && WantsApproval(items, plan[i]) && plan[i].primaryId == t;
    }
  }

  datatype PackResult =
    | Refused(gate: Gate)
    | Ran(log: seq<Event>, steps: seq<StepRow>, errors: seq<nat>, ending: Ending)

  function ErrorRows(log: seq<Event>): (rows: seq<nat>) {
    if log == [] then []
    else
      ErrorRows(log[..|log| - 1]) + (if log[|log| - 1].Failed? then [log[|log| - 1].op] else [])
  }

  /** The pack loop. Nothing at all happens unless the gate clears the whole plan; otherwise the loop does what
      `Session` says from the normalised resume index. */
  method BuildLocalExecutionPackResult(items: seq<Item>, plan: seq<Operation>, continueOnError: bool, env: Env,
                                       savedIndex: int, browserFrom: nat)
    returns (result: PackResult)
    ensures result.Refused? <==>
            exists i :: 0 <= i < |plan| && (IsBlocked(items, plan[i]) || WantsApproval(items, plan[i]))
    ensures result.Ran? ==>
              Report(result.log, result.ending)
              == Session(plan, continueOnError, env, browserFrom, ResumeIndex(savedIndex, |plan|))
    ensures result.Ran? ==> result.steps == StepRows(result.log) && result.errors == ErrorRows(result.log)
  {
    var gate := PolicyGate(items, plan);
    if !gate.Cleared? {
      return Refused(gate);
    }
    var log, steps, errors, ending := RunPlan(plan, continueOnError, env, browserFrom, ResumeIndex(savedIndex, |plan|));
    result := Ran(log, steps, errors, ending);
  }

  method RunPlan(plan: seq<Operation>, continueOnError: bool, env: Env, browserFrom: nat, start: nat)
    returns (log: seq<Event>, steps: seq<StepRow>, errors: seq<nat>, ending: Ending)
    requires start <= |plan|
    ensures Report(log, ending) == Session(plan, continueOnError, env, browserFrom, start)
    ensures steps == StepRows(log) && errors == ErrorRows(log)
  {
    log, steps, errors, ending := [], [], [], Completed;
    ghost var all := Session(plan, continueOnError, env, browserFrom, start);
    var i := start;
    while i < |plan|
      invariant start <= i <= |plan| && ending == Completed
      invariant steps == StepRows(log) && errors == ErrorRows(log)
      invariant all == Before(log, Session(plan, continueOnError, env, browserFrom, i))
    {
      var events, verdict := RunTurn(plan[i], env, i, browserFrom);
      SessionUnfolds(plan, continueOnError, env, browserFrom, i, log, events, verdict);
      log, steps, errors := Record(log, steps, errors, events);
      if verdict.Pause? {
        return log, steps, errors, Paused(i, verdict.browser);
      }
      if verdict.Error? && !continueOnError {
        return log, steps, errors, Stopped(i);
      }
      i := i + 1;
    }
    assert log + [] == log;
  }

  /** The session from operation `i` on, after the events `log`. */
  lemma {:induction false} SessionUnfolds(plan: seq<Operation>, continueOnError: bool, env: Env, browserFrom: nat,
                                          i: nat, log: seq<Event>, events: seq<Event>, verdict: Verdict)
    requires i < |plan| && (events, verdict) == Turn(plan[i], env, i, browserFrom)
    ensures Before(log, Session(plan, continueOnError, env, browserFrom, i)) ==
            if verdict.Pause? then Report(log + events, Paused(i, verdict.browser))
            else if verdict.Error? && !continueOnError then Report(log + events, Stopped(i))
            else Before(log + events, Session(plan, continueOnError, env, browserFrom, i + 1))
  {
    ContinueAfter(continueOnError, i, log, events, verdict, Session(plan, continueOnError, env, browserFrom, i + 1));
  }

  /** A report with earlier events in front. */
  function Before(log: seq<Event>, r: Report): (b: Report) {
    Report(log + r.log, r.ending)
  }

  lemma {:induction false} ContinueAfter(continueOnError: bool, i: nat, log: seq<Event>, events: seq<Event>,
                                         verdict: Verdict, rest: Report)
    ensures Before(log, Continue(continueOnError, i, events, verdict, rest)) ==
            if verdict.Pause? then Report(log + events, Paused(i, verdict.browser))
            else if verdict.Error? && !continueOnError then Report(log + events, Stopped(i))
            else Before(log + events, rest)
  {
    ConcatAssoc(log, events, rest.log);
  }

  method RunTurn(op: Operation, env: Env, i: nat, browserFrom: nat) returns (events: seq<Event>, verdict: Verdict)
    ensures (events, verdict) == Turn(op, env, i, browserFrom)
  {
    if env.before(i).interrupt {
      return [Failed(i)], Error;
    }
    if env.before(i).pause {
      return [Suspended(i, false)], Pause(None);
    }
    if op.tool.Browser? && env.body(i) != RaisesEarly {
      var acts, outcome := BrowserCapture(op.tool.actions, env, i, browserFrom);
      if outcome.Raises? || env.body(i).RaisesLate? {
        return [Began(i)] + acts + [Failed(i)], Error;
      } else if outcome.Waits? {
        return [Began(i)] + acts + [Suspended(i, true)], Pause(Some(outcome.next));
      }
      return [Began(i)] + acts + [Finished(i)], Ok;
    }
    var r := BodyOf(op, env, i, browserFrom);
    return r.0, r.1;
  }

  method Record(log: seq<Event>, steps: seq<StepRow>, errors: seq<nat>, events: seq<Event>)
    returns (log': seq<Event>, steps': seq<StepRow>, errors': seq<nat>)
    requires steps == StepRows(log) && errors == ErrorRows(log)
    ensures log' == log + events && steps' == StepRows(log') && errors' == ErrorRows(log')
  {
    log', steps', errors' := log, steps, errors;
    for k := 0 to |events|
      invariant log' == log + events[..k] && steps' == StepRows(log') && errors' == ErrorRows(log')
    {
      RowsOneMore(log', events[k]);
      steps' := steps' + RowsFor(events[k]);
      if events[k].Failed? {
        errors' := errors' + [events[k].op];
      }
      log' := log' + [events[k]];
      ConcatAssoc(log, events[..k], [events[k]]);
      assert events[..k + 1] == events[..k] + [events[k]];
    }
    assert events[..|events|] == events;
  }

  // ---- chains of sessions ----

  /** Runs the plan from `i`, resuming after each pause with the next environment of `envs`. The checkpoint comes
      back as it was sent; a pause without a browser checkpoint leaves the previous one attached. */
  function Chain(plan: seq<Operation>, continueOnError: bool, envs: seq<Env>, browserFrom: nat, i: nat): (r: Report)
    decreases |envs|
  {
    if envs == [] then Report([], Paused(i, Some(browserFrom)))
    else
      var first := Session(plan, continueOnError, envs[0], browserFrom, ResumeIndex(i, |plan|));
      if !first.ending.Paused? then first
      else
        var b := if first.ending.browser.Some? then first.ending.browser.value else browserFrom;
        var rest := Chain(plan, continueOnError, envs[1..], b, first.ending.next);
        Report(first.log + rest.log, rest.ending)
  }

  /** The operations that were settled (finished or recorded as failed), in order. */
  function Settled(log: seq<Event>): (ops: seq<nat>) {
    if log == [] then []
    else (if Settles(log[0]) then [log[0].op] else []) + Settled(log[1..])
  }

  function Range(lo: nat, hi: nat): (r: seq<nat>)
    decreases hi - lo
  {
    if lo >= hi then [] else [lo] + Range(lo + 1, hi)
  }

  lemma {:induction false} RangeJoins(a: nat, b: nat, c: nat)
    requires a <= b <= c
    ensures Range(a, b) + Range(b, c) == Range(a, c)
    decreases b - a
  {
    if a < b {
      RangeJoins(a + 1, b, c);
      ConcatAssoc([a], Range(a + 1, b), Range(b, c));
    }
  }

  lemma {:induction false} SettledConcat(a: seq<Event>, b: seq<Event>)
    ensures Settled(a + b) == Settled(a) + Settled(b)
  {
    if a == [] {
      assert a + b == b;
    } else {
      SettledConcat(a[1..], b);
      assert (a + b)[1..] == a[1..] + b;
      ConcatAssoc(if Settles(a[0]) then [a[0].op] else [], Settled(a[1..]), Settled(b));
    }
  }

  /** Where an ending leaves the plan: the first index that is not settled. */
  function Reached(e: Ending, total: nat): (i: nat) {
    match e
    case Completed => total
    case Paused(next, _) => next
    case Stopped(at) => at + 1
  }

  lemma {:induction false} BrowseSettlesNothing(actions: seq<Action>, env: Env, op: nat, k: nat)
    ensures Settled(Browse(actions, env, op, k).0) == []
    decreases |actions| - k
  {
    if k < |actions| && !env.during(op, k).pause && !actions[k].PauseForHuman? && !env.actionRaises(op, k) {
      BrowseSettlesNothing(actions, env, op, k + 1);
      var rest := Browse(actions, env, op, k + 1).0;
      assert ([Acted(op, k)] + rest)[1..] == rest;
    }
  }

  lemma {:induction false} SettledSingleton(e: Event)
    ensures Settled([e]) == if Settles(e) then [e.op] else []
  {
    assert [e][1..] == [];
  }

  lemma {:induction false} SettledFramed(first: Event, mid: seq<Event>, last: Event)
    requires Settled(mid) == []
    ensures Settled([first] + mid + [last]) == Settled([first]) + Settled([last])
  {
    SettledConcat([first] + mid, [last]);
    SettledConcat([first], mid);
  }

  /** A body that starts and ends settles what its last event settles. */
  lemma {:induction false} BeganSettles(i: nat, mid: seq<Event>, last: Event)
    requires Settled(mid) == []
    ensures Settled([Began(i)] + mid + [last]) == if Settles(last) then [last.op] else []
  {
    SettledFramed(Began(i), mid, last);
    SettledSingleton(Began(i));
    SettledSingleton(last);
  }

  lemma {:induction false} PairSettles(i: nat, last: Event)
    ensures Settled([Began(i), last]) == if Settles(last) then [last.op] else []
  {
    BeganSettles(i, [], last);
    assert [Began(i)] + [] + [last] == [Began(i), last];
  }

  lemma {:induction false} BrowserOpSettles(actions: seq<Action>, env: Env, i: nat, browserFrom: nat)
    ensures var (log, verdict) := BrowserOp(actions, env, i, browserFrom);
            Settled(log) == if verdict.Pause? then [] else [i]
  {
    var acts := Browse(actions, env, i, browserFrom).0;
    BrowseSettlesNothing(actions, env, i, browserFrom);
    BeganSettles(i, acts, Failed(i));
    BeganSettles(i, acts, Finished(i));
    BeganSettles(i, acts, Suspended(i, true));
  }

  lemma {:induction false} TurnSettles(op: Operation, env: Env, i: nat, browserFrom: nat)
    ensures var (log, verdict) := Turn(op, env, i, browserFrom);
            Settled(log) == if verdict.Pause? then [] else [i]
  {
    SettledSingleton(Failed(i));
    SettledSingleton(Suspended(i, false));
    PairSettles(i, Failed(i));
    PairSettles(i, Finished(i));
    PairSettles(i, Suspended(i, false));
    if op.tool.Browser? {
      BrowserOpSettles(op.tool.actions, env, i, browserFrom);
    }
  }

  lemma {:induction false} SessionSettles(plan: seq<Operation>, continueOnError: bool, env: Env, browserFrom: nat,
                                          i: nat)
    requires i <= |plan|
    ensures var r := Session(plan, continueOnError, env, browserFrom, i);
            i <= Reached(r.ending, |plan|) <= |plan| && Settled(r.log) == Range(i, Reached(r.ending, |plan|))
    decreases |plan| - i
  {
    if i < |plan| {
      var (log, verdict) := Turn(plan[i], env, i, browserFrom);
      TurnSettles(plan[i], env, i, browserFrom);
      assert Range(i, i + 1) == [i];
      if verdict.Ok? || (verdict.Error? && continueOnError) {
        SessionSettles(plan, continueOnError, env, browserFrom, i + 1);
        SettledConcat(log, Session(plan, continueOnError, env, browserFrom, i + 1).log);
        RangeJoins(i, i + 1, Reached(Session(plan, continueOnError, env, browserFrom, i + 1).ending, |plan|));
      }
    }
  }

  /** Exactly once, in order: over any chain of pauses and resumes, with any mix of successes, failures and
      interrupts, the settled operations are `i, i+1, ...` with none skipped and none repeated, up to where the
      chain stands; a chain that completes has settled the whole plan. */
  lemma {:induction false} ChainSettlesOnceInOrder(plan: seq<Operation>, continueOnError: bool, envs: seq<Env>,
                                                   browserFrom: nat, i: nat)
    requires i <= |plan|
    ensures var r := Chain(plan, continueOnError, envs, browserFrom, i);
            i <= Reached(r.ending, |plan|) <= |plan| && Settled(r.log) == Range(i, Reached(r.ending, |plan|))
    decreases |envs|
  {
    if envs != [] {
      SessionSettles(plan, continueOnError, envs[0], browserFrom, i);
      var first := Session(plan, continueOnError, envs[0], browserFrom, i);
      if first.ending.Paused? {
        var b := if first.ending.browser.Some? then first.ending.browser.value else browserFrom;
        ChainSettlesOnceInOrder(plan, continueOnError, envs[1..], b, first.ending.next);
        var rest := Chain(plan, continueOnError, envs[1..], b, first.ending.next);
        SettledConcat(first.log, rest.log);
        RangeJoins(i, first.ending.next, Reached(rest.ending, |plan|));
      }
    }
  }

  // ---- pacing: what may follow what ----

  predicate Opens(e: Event, i: nat) {
    e.op == i && (e.Began? || e.Suspended? || e.Failed?)
  }

  predicate Settles(e: Event) {
    e.Finished? || e.Failed?
  }

  /** Event `b` may come right after event `a`. */
  predicate Follows(a: Event, b: Event) {
    match a
    case Began(i) => b.op == i && !b.Began?
    case Acted(i, k) => b.op == i && !b.Began? && (b.Acted? ==> b.action == k + 1)
    case Suspended(i, _) => Opens(b, i)
    case _ => Opens(b, a.op + 1)
  }

  ghost predicate Paced(log: seq<Event>) {
    forall k :: 0 <= k < |log| - 1 ==> Follows(log[k], log[k + 1])
  }

  lemma {:induction false} PacedConcat(a: seq<Event>, b: seq<Event>)
    requires Paced(a) && Paced(b)
    requires a != [] && b != [] ==> Follows(a[|a| - 1], b[0])
    ensures Paced(a + b)
  {
    forall k | 0 <= k < |a + b| - 1 ensures Follows((a + b)[k], (a + b)[k + 1]) {
      if k >= |a| {
        assert Follows(b[k - |a|], b[k - |a| + 1]);
      }
    }
  }

  lemma {:induction false} BrowseIsPaced(actions: seq<Action>, env: Env, op: nat, k: nat)
    ensures var log := Browse(actions, env, op, k).0;
            Paced(log) && (log != [] ==> log[0] == Acted(op, k)) && forall e :: e in log ==> e.Acted? && e.op == op
    decreases |actions| - k
  {
    if k < |actions| && !env.during(op, k).pause && !actions[k].PauseForHuman? && !env.actionRaises(op, k) {
      BrowseIsPaced(actions, env, op, k + 1);
      PacedConcat([Acted(op, k)], Browse(actions, env, op, k + 1).0);
    }
  }

  lemma {:induction false} FramedIsPaced(i: nat, acts: seq<Event>, last: Event)
    requires Paced(acts) && forall e :: e in acts ==> e.Acted? && e.op == i
    requires last.op == i && !last.Began? && !last.Acted?
    ensures Paced([Began(i)] + acts + [last])
  {
    PacedConcat([Began(i)], acts);
    var front := [Began(i)] + acts;
    assert front[|front| - 1] == Began(i) || front[|front| - 1] in acts;
    PacedConcat(front, [last]);
  }

  lemma {:induction false} TurnIsPaced(op: Operation, env: Env, i: nat, browserFrom: nat)
    ensures var (log, verdict) := Turn(op, env, i, browserFrom);
            && log != [] && Opens(log[0], i) && Paced(log) && log[|log| - 1].op == i
            && (if verdict.Pause? then log[|log| - 1].Suspended? else Settles(log[|log| - 1]))
  {
    if op.tool.Browser? {
      var acts := Browse(op.tool.actions, env, i, browserFrom).0;
      BrowseIsPaced(op.tool.actions, env, i, browserFrom);
      FramedIsPaced(i, acts, Failed(i));
      FramedIsPaced(i, acts, Finished(i));
      FramedIsPaced(i, acts, Suspended(i, true));
    }
  }

  ghost predicate PacedFrom(log: seq<Event>, i: nat, e: Ending, total: nat) {
    && Paced(log)
    && (log != [] ==> Opens(log[0], i))
    && (log == [] ==> Reached(e, total) == i)
    && (log != [] && e.Paused? ==> log[|log| - 1].op == e.next && log[|log| - 1].Suspended?)
  }

  lemma {:induction false} SessionIsPaced(plan: seq<Operation>, continueOnError: bool, env: Env, browserFrom: nat,
                                          i: nat)
    requires i <= |plan|
    ensures var r := Session(plan, continueOnError, env, browserFrom, i);
            PacedFrom(r.log, i, r.ending, |plan|)
    decreases |plan| - i
  {
    if i < |plan| {
      var (log, verdict) := Turn(plan[i], env, i, browserFrom);
      TurnIsPaced(plan[i], env, i, browserFrom);
      if verdict.Ok? || (verdict.Error? && continueOnError) {
        SessionIsPaced(plan, continueOnError, env, browserFrom, i + 1);
        var rest := Session(plan, continueOnError, env, browserFrom, i + 1);
        PacedConcat(log, rest.log);
        if rest.log == [] {
          if i + 1 < |plan| {
            TurnIsPaced(plan[i + 1], env, i + 1, browserFrom);
          }
          assert rest.ending.Completed?;
        }
      }
    }
  }

  lemma {:induction false} PacedFromJoins(log: seq<Event>, i: nat, paused: Ending, rest: seq<Event>, e: Ending,
                                          total: nat)
    requires paused.Paused? && PacedFrom(log, i, paused, total) && PacedFrom(rest, paused.next, e, total)
    ensures PacedFrom(log + rest, i, e, total)
  {
    PacedConcat(log, rest);
  }

  /** The whole history of a chain is paced: an operation is entered again only at its own index and only right after
      it was suspended, and the next operation is entered only right after this one is settled. */
  lemma {:induction false} ChainIsPaced(plan: seq<Operation>, continueOnError: bool, envs: seq<Env>,
                                        browserFrom: nat, i: nat)
    requires i <= |plan|
    ensures var r := Chain(plan, continueOnError, envs, browserFrom, i);
            PacedFrom(r.log, i, r.ending, |plan|)
    decreases |envs|
  {
    if envs != [] {
      SessionIsPaced(plan, continueOnError, envs[0], browserFrom, i);
      SessionSettles(plan, continueOnError, envs[0], browserFrom, i);
      var first := Session(plan, continueOnError, envs[0], browserFrom, i);
      if first.ending.Paused? {
        var b := if first.ending.browser.Some? then first.ending.browser.value else browserFrom;
        ChainIsPaced(plan, continueOnError, envs[1..], b, first.ending.next);
        var rest := Chain(plan, continueOnError, envs[1..], b, first.ending.next);
        PacedFromJoins(first.log, i, first.ending, rest.log, rest.ending, |plan|);
      }
    }
  }

  /** In a paced history nothing about an operation happens after it is settled, operations only move forward, and
      two starts of one body always have a suspension of that operation between them. */
  lemma {:induction false} PacedMeansOnce(log: seq<Event>, j: nat, k: nat)
    requires Paced(log) && j < k < |log|
    ensures log[j].op <= log[k].op
    ensures Settles(log[j]) ==> log[j].op < log[k].op
    ensures log[j].op == log[k].op && log[k].Began? ==>
              exists s :: j <= s < k && log[s].Suspended? && log[s].op == log[k].op
    decreases k - j
  {
    assert Follows(log[k - 1], log[k]);
    if j < k - 1 {
      PacedMeansOnce(log, j, k - 1);
    }
    if log[j].op == log[k].op && log[k].Began? {
      assert log[k - 1].Suspended?;
    }
  }

  // ---- control readings and the bodies that start ----

  /** A body starts only right after a reading that reports neither an interrupt nor a pause, with
      `continue_on_error` on or off; so while readings report an interrupt, no further body starts. */
  lemma {:induction false} BodyNeedsClearReading(plan: seq<Operation>, continueOnError: bool, env: Env,
                                                 browserFrom: nat, i: nat, e: Event)
    requires e in Session(plan, continueOnError, env, browserFrom, i).log
    ensures i <= e.op < |plan|
    ensures e.Began? || e.Acted? || e.Finished? ==> env.before(e.op) == Reading(false, false)
    decreases |plan| - i
  {
    var (log, verdict) := Turn(plan[i], env, i, browserFrom);
    if e in log {
      if plan[i].tool.Browser? {
        BrowseIsPaced(plan[i].tool.actions, env, i, browserFrom);
      }
    } else {
      BodyNeedsClearReading(plan, continueOnError, env, browserFrom, i + 1, e);
    }
  }

  // ---- browser actions ----

  /** The browser actions of operation `op` performed in a log, in order. */
  function Actions(log: seq<Event>, op: nat): (r: seq<nat>) {
    if log == [] then []
    else (if log[0].Acted? && log[0].op == op then [log[0].action] else []) + Actions(log[1..], op)
  }

  lemma {:induction false} ActionsConcat(a: seq<Event>, b: seq<Event>, op: nat)
    ensures Actions(a + b, op) == Actions(a, op) + Actions(b, op)
  {
    if a == [] {
      assert a + b == b;
    } else {
      ActionsConcat(a[1..], b, op);
      assert (a + b)[1..] == a[1..] + b;
      ConcatAssoc(if a[0].Acted? && a[0].op == op then [a[0].action] else [], Actions(a[1..], op), Actions(b, op));
    }
  }

  lemma {:induction false} NoActions(log: seq<Event>, op: nat)
    requires forall e :: e in log ==> !(e.Acted? && e.op == op)
    ensures Actions(log, op) == []
  {
    if log != [] {
      NoActions(log[1..], op);
    }
  }

  /** The actions one turn of the browser loop performs: consecutive from where it starts, none of them a human
      pause, all of them if it gets through, and up to the saved index if it waits. */
  lemma {:induction false} BrowseActs(actions: seq<Action>, env: Env, op: nat, k: nat) returns (m: nat)
    requires k <= |actions|
    ensures k <= m <= |actions|
    ensures var (log, outcome) := Browse(actions, env, op, k);
            && Actions(log, op) == Range(k, m)
            && (outcome.Through? ==> m == |actions|)
            && (outcome.Waits? ==> outcome.next == m)
    ensures forall h :: k <= h < m ==> actions[h].Act?
    decreases |actions| - k
  {
    if k < |actions| && !env.during(op, k).pause && !actions[k].PauseForHuman? && !env.actionRaises(op, k) {
      m := BrowseActs(actions, env, op, k + 1);
      var rest := Browse(actions, env, op, k + 1).0;
      assert ([Acted(op, k)] + rest)[1..] == rest;
    } else {
      m := k;
    }
  }

  lemma {:induction false} FramedActs(i: nat, acts: seq<Event>, last: Event)
    requires !last.Acted?
    ensures Actions([Began(i)] + acts + [last], i) == Actions(acts, i)
  {
    ActionsConcat([Began(i)] + acts, [last], i);
    ActionsConcat([Began(i)], acts, i);
    NoActions([Began(i)], i);
    NoActions([last], i);
  }

  /** The actions one turn of operation `i` performs, when its browser checkpoint lies within its action list. */
  lemma {:induction false} TurnActs(op: Operation, env: Env, i: nat, browserFrom: nat) returns (m: nat)
    requires op.tool.Browser? && browserFrom <= |op.tool.actions|
    ensures browserFrom <= m <= |op.tool.actions|
    ensures var (log, verdict) := Turn(op, env, i, browserFrom);
            && Actions(log, i) == Range(browserFrom, m)
            && (verdict.Ok? ==> m == |op.tool.actions|)
            && (verdict.Pause? ==> m == if verdict.browser.Some? then verdict.browser.value else browserFrom)
            && (Finished(i) in log ==> verdict.Ok?)
    ensures forall h :: browserFrom <= h < m ==> op.tool.actions[h].Act?
  {
    var (log, verdict) := Turn(op, env, i, browserFrom);
    var acts := Browse(op.tool.actions, env, i, browserFrom).0;
    BrowseIsPaced(op.tool.actions, env, i, browserFrom);
    if log == [Began(i)] + acts + [log[|log| - 1]] {
      m := BrowseActs(op.tool.actions, env, i, browserFrom);
      FramedActs(i, acts, log[|log| - 1]);
      if acts == [] && !verdict.Ok? {
        assert Range(browserFrom, m) == [];
        m := browserFrom;
      }
    } else {
      m := browserFrom;
      NoActions(log, i);
    }
  }

  ghost predicate OnlyBrowserOp(plan: seq<Operation>, o: nat) {
    && o < |plan| && plan[o].tool.Browser?
    && forall i :: 0 <= i < |plan| && i != o ==> !plan[i].tool.Browser?
  }

  /** What a session or chain started at `i` with checkpoint `from` has done to the one browser operation `o`. */
  ghost predicate ActsWithin(plan: seq<Operation>, o: nat, log: seq<Event>, i: nat, from: nat, m: nat)
    requires OnlyBrowserOp(plan, o)
  {
    && from <= m <= |plan[o].tool.actions|
    && Actions(log, o) == (if i <= o then Range(from, m) else [])
    && (forall h :: i <= o && from <= h < m ==> plan[o].tool.actions[h].Act?)
    && (i <= o && Finished(o) in log ==> m == |plan[o].tool.actions|)
  }

  lemma {:induction false} OtherTurnsDoNotAct(op: Operation, env: Env, i: nat, browserFrom: nat, o: nat)
    requires i != o
    ensures Actions(Turn(op, env, i, browserFrom).0, o) == []
    ensures Finished(o) !in Turn(op, env, i, browserFrom).0
  {
    if op.tool.Browser? {
      BrowseIsPaced(op.tool.actions, env, i, browserFrom);
    }
    NoActions(Turn(op, env, i, browserFrom).0, o);
  }

  /** Behind an operation, nothing about it happens any more. */
  lemma {:induction false} LaterSession(plan: seq<Operation>, continueOnError: bool, env: Env, from: nat, i: nat,
                                        o: nat)
    requires i < |plan|
    ensures var rest := Session(plan, continueOnError, env, from, i + 1);
            && (rest.ending.Paused? ==> rest.ending.next > i)
            && (i == o ==> Finished(o) !in rest.log)
  {
    SessionSettles(plan, continueOnError, env, from, i + 1);
    if i == o && Finished(o) in Session(plan, continueOnError, env, from, i + 1).log {
      BodyNeedsClearReading(plan, continueOnError, env, from, i + 1, Finished(o));
    }
  }

  /** What a session's ending says about the browser checkpoint of operation `o`. */
  ghost predicate EndsAt(e: Ending, o: nat, from: nat, m: nat) {
    && (e.Paused? && e.next <= o ==> m == if e.browser.Some? then e.browser.value else from)
    && (e.Paused? && e.next > o ==> e.browser.None?)
  }

  lemma {:induction false} OtherTurnPausesOutside(op: Operation, env: Env, i: nat, from: nat)
    requires !op.tool.Browser? && Turn(op, env, i, from).1.Pause?
    ensures Turn(op, env, i, from).1.browser.None?
  {
  }

  /** What one turn at `i` has done to the browser operation `o`. */
  ghost predicate TurnWithin(plan: seq<Operation>, o: nat, log: seq<Event>, v: Verdict, i: nat, from: nat, m: nat)
    requires OnlyBrowserOp(plan, o)
  {
    && from <= m <= |plan[o].tool.actions|
    && Actions(log, o) == (if i == o then Range(from, m) else [])
    && (forall h :: from <= h < m ==> plan[o].tool.actions[h].Act?)
    && (Finished(o) in log ==> i == o && m == |plan[o].tool.actions|)
    && (i != o ==> m == from && (v.Pause? ==> v.browser.None?))
    && (i == o && v.Pause? ==> m == if v.browser.Some? then v.browser.value else from)
  }

  lemma {:induction false} TurnActsWithin(plan: seq<Operation>, env: Env, from: nat, i: nat, o: nat) returns (m: nat)
    requires OnlyBrowserOp(plan, o) && from <= |plan[o].tool.actions| && i < |plan|
    ensures TurnWithin(plan, o, Turn(plan[i], env, i, from).0, Turn(plan[i], env, i, from).1, i, from, m)
  {
    if i == o {
      m := TurnActs(plan[i], env, i, from);
    } else {
      m := from;
      OtherTurnsDoNotAct(plan[i], env, i, from, o);
      if Turn(plan[i], env, i, from).1.Pause? {
        OtherTurnPausesOutside(plan[i], env, i, from);
      }
    }
  }

  lemma {:induction false} EmptyRange(n: nat)
    ensures Range(n, n) == []
  {
  }

  /** What a session that starts at `i` has done to the browser operation `o`. */
  ghost predicate Acts(plan: seq<Operation>, o: nat, r: Report, i: nat, from: nat, m: nat)
    requires OnlyBrowserOp(plan, o)
  {
    ActsWithin(plan, o, r.log, i, from, m) && EndsAt(r.ending, o, from, m)
  }

  /** A turn that ends the session. */
  lemma {:induction false} LastTurnActs(plan: seq<Operation>, o: nat, log: seq<Event>, v: Verdict, i: nat, from: nat,
                                        m: nat)
    requires OnlyBrowserOp(plan, o) && TurnWithin(plan, o, log, v, i, from, m)
    ensures ActsWithin(plan, o, log, i, from, m)
    ensures v.Pause? ==> EndsAt(Paused(i, v.browser), o, from, m)
  {
    EmptyRange(from);
  }

  /** A turn and the session that follows it. */
  lemma {:induction false} TurnThenSession(plan: seq<Operation>, o: nat, log: seq<Event>, v: Verdict, rest: Report,
                                           i: nat, from: nat, m: nat, m': nat)
    requires OnlyBrowserOp(plan, o) && TurnWithin(plan, o, log, v, i, from, m) && Acts(plan, o, rest, i + 1, from, m')
    requires rest.ending.Paused? ==> rest.ending.next > i
    requires i == o ==> Finished(o) !in rest.log
    ensures Acts(plan, o, Report(log + rest.log, rest.ending), i, from, if i == o then m else m')
  {
    ActionsConcat(log, rest.log, o);
  }

  lemma {:induction false} ContinueActs(plan: seq<Operation>, continueOnError: bool, o: nat, log: seq<Event>,
                                        v: Verdict,
                                        rest: Report, i: nat, from: nat, m: nat, m': nat) returns (k: nat)
    requires OnlyBrowserOp(plan, o) && TurnWithin(plan, o, log, v, i, from, m) && Acts(plan, o, rest, i + 1, from, m')
    requires rest.ending.Paused? ==> rest.ending.next > i
    requires i == o ==> Finished(o) !in rest.log
    ensures Acts(plan, o, Continue(continueOnError, i, log, v, rest), i, from, k)
  {
    if v.Ok? || (v.Error? && continueOnError) {
      TurnThenSession(plan, o, log, v, rest, i, from, m, m');
      k := if i == o then m else m';
    } else {
      LastTurnActs(plan, o, log, v, i, from, m);
      k := m;
    }
  }

  lemma {:induction false} SessionActs(plan: seq<Operation>, continueOnError: bool, env: Env, from: nat, i: nat, o: nat)
    returns (m: nat)
    requires OnlyBrowserOp(plan, o) && from <= |plan[o].tool.actions| && i <= |plan|
    ensures Acts(plan, o, Session(plan, continueOnError, env, from, i), i, from, m)
    decreases |plan| - i
  {
    if i >= |plan| {
      m := from;
      EmptyRange(from);
    } else {
      var (log, verdict) := Turn(plan[i], env, i, from);
      var turn := TurnActsWithin(plan, env, from, i, o);
      var rest := SessionActs(plan, continueOnError, env, from, i + 1, o);
      LaterSession(plan, continueOnError, env, from, i, o);
      m := ContinueActs(plan, continueOnError, o, log, verdict, Session(plan, continueOnError, env, from, i + 1),
                        i, from, turn, rest);
    }
  }

  /** Action level, for plans with one capture_page operation: over any chain its browser actions are performed
      consecutively, each once and in order, and all of them if it finishes. */
  lemma {:induction false} ChainActsOnceInOrder(plan: seq<Operation>, continueOnError: bool, envs: seq<Env>,
                                                from: nat, i: nat, o: nat)
    returns (m: nat)
    requires OnlyBrowserOp(plan, o) && from <= |plan[o].tool.actions| && i <= |plan|
    ensures ActsWithin(plan, o, Chain(plan, continueOnError, envs, from, i).log, i, from, m)
    decreases |envs|
  {
    m := from;
    if envs == [] {
      return;
    }
    m := SessionActs(plan, continueOnError, envs[0], from, i, o);
    SessionSettles(plan, continueOnError, envs[0], from, i);
    var first := Session(plan, continueOnError, envs[0], from, i);
    if first.ending.Paused? {
      var next := first.ending.next;
      var b := if first.ending.browser.Some? then first.ending.browser.value else from;
      var m' := ChainActsOnceInOrder(plan, continueOnError, envs[1..], b, next, o);
      var rest := Chain(plan, continueOnError, envs[1..], b, next);
      ActionsConcat(first.log, rest.log, o);
      if i <= o && next <= o {
        RangeJoins(from, m, m');
        if Finished(o) in first.log {
          SettledHas(first.log, o);
          RangeMember(i, next, o);
        }
        m := m';
      } else if Finished(o) in rest.log {
        ChainSettlesOnceInOrder(plan, continueOnError, envs[1..], b, next);
        SettledHas(rest.log, o);
        RangeMember(next, Reached(rest.ending, |plan|), o);
      }
    }
  }

  lemma {:induction false} SettledHas(log: seq<Event>, o: nat)
    requires Finished(o) in log
    ensures o in Settled(log)
  {
    if log[0] != Finished(o) {
      SettledHas(log[1..], o);
    }
  }

  lemma {:induction false} RangeMember(lo: nat, hi: nat, x: nat)
    ensures x in Range(lo, hi) <==> lo <= x < hi
    decreases hi - lo
  {
    if lo < hi {
      RangeMember(lo + 1, hi, x);
    }
  }

  /** A `pause_for_human` action saves its own index, so every resume pauses there again: no chain, however long,
      performs it or anything behind it, and the operation never finishes. */
  lemma {:induction false} NothingBehindHumanPause(plan: seq<Operation>, continueOnError: bool, envs: seq<Env>,
                                                   from: nat, o: nat, h: nat)
    requires OnlyBrowserOp(plan, o) && from <= h < |plan[o].tool.actions| && plan[o].tool.actions[h].PauseForHuman?
    ensures var log := Chain(plan, continueOnError, envs, from, 0).log;
            Finished(o) !in log && forall a :: a in Actions(log, o) ==> a < h
  {
    var log := Chain(plan, continueOnError, envs, from, 0).log;
    var m := ChainActsOnceInOrder(plan, continueOnError, envs, from, 0, o);
    forall a | a in Actions(log, o) ensures a < h {
      RangeMember(from, m, a);
    }
  }

  /** The browser checkpoint is attached to every operation, also to those it was not taken in: a browser operation
      that finishes skips as many leading actions as the attached checkpoint says, so it performs its whole list
      exactly when the checkpoint is 0 or the list is empty. */
  lemma {:induction false} FinishedBrowserOpPerforms(op: Operation, env: Env, i: nat, browserFrom: nat)
    requires op.tool.Browser? && Turn(op, env, i, browserFrom).1.Ok?
    ensures var n := |op.tool.actions|;
            && Actions(Turn(op, env, i, browserFrom).0, i) == Range(browserFrom, n)
            && (Actions(Turn(op, env, i, browserFrom).0, i) == Range(0, n) <==> browserFrom == 0 || n == 0)
  {
    var n := |op.tool.actions|;
    if browserFrom <= n {
      var m := TurnActs(op, env, i, browserFrom);
    } else {
      BrowseIsPaced(op.tool.actions, env, i, browserFrom);
      NoActions(Turn(op, env, i, browserFrom).0, i);
    }
    RangeMember(0, n, 0);
    RangeMember(browserFrom, n, 0);
  }
}
