/** How operations end (scripts/orion_local_worker_execution.py), told from the plan and the environment alone: which
    events a turn, a session and a chain of sessions record, and which rows the result lists. */
module TurnOutcomes {
  import opened LocalExecution
  import opened Text

  const CLEAR := Reading(false, false)

  // ---- one operation ----

  /** Browser action `k` is performed when the loop comes to it. */
  predicate Performs(actions: seq<Action>, env: Env, i: nat, k: nat)
    requires k < |actions|
  {
    !env.during(i, k).pause && actions[k].Act? && !env.actionRaises(i, k)
  }

  /** All actions from `from` up to, not including, `to` are performed. */
  ghost predicate PerformsAll(actions: seq<Action>, env: Env, i: nat, from: nat, to: nat) {
    forall k :: from <= k < to && k < |actions| ==> Performs(actions, env, i, k)
  }

  /** The loop comes to action `k`, and a pause or a human pause stops it there. */
  ghost predicate WaitsAt(actions: seq<Action>, env: Env, i: nat, from: nat, k: nat) {
    && from <= k < |actions| && PerformsAll(actions, env, i, from, k)
    && (env.during(i, k).pause || actions[k].PauseForHuman?)
  }

  /** The loop comes to action `k`, and the action raises. */
  ghost predicate RaisesAt(actions: seq<Action>, env: Env, i: nat, from: nat, k: nat) {
    && from <= k < |actions| && PerformsAll(actions, env, i, from, k)
    && !env.during(i, k).pause && actions[k].Act? && env.actionRaises(i, k)
  }

  predicate Starts(op: Operation, env: Env, i: nat) {
    env.before(i) == CLEAR && !op.tool.Unsupported?
  }

  /** The operation finishes: it may start, its body is fine, a guarded tool reads a clear state once more, and all
      browser actions from the checkpoint on are performed. */
  ghost predicate Finishes(op: Operation, env: Env, i: nat, from: nat) {
    && Starts(op, env, i) && env.body(i).Fine?
    && (op.tool.Guarded? ==> env.inside(i) == CLEAR)
    && (op.tool.Browser? ==> PerformsAll(op.tool.actions, env, i, from, |op.tool.actions|))
  }

  /** It waits in the browser, at action `k`. */
  ghost predicate WaitsInBrowser(op: Operation, env: Env, i: nat, from: nat, k: nat) {
    Starts(op, env, i) && env.body(i).Fine? && op.tool.Browser? && WaitsAt(op.tool.actions, env, i, from, k)
  }

  /** It is put off: the reading before it asks for a pause, or the second reading of a guarded tool does. */
  predicate IsPutOff(op: Operation, env: Env, i: nat) {
    || env.before(i) == Reading(true, false)
    || (&& Starts(op, env, i) && op.tool.Guarded? && !env.body(i).RaisesEarly?
        && env.inside(i) == Reading(true, false))
  }

  /** It fails: it is interrupted or not supported, its body raises, or a browser action that it comes to does. */
  ghost predicate Fails(op: Operation, env: Env, i: nat, from: nat) {
    || env.before(i).interrupt
    || (env.before(i) == CLEAR && op.tool.Unsupported?)
    || (&& Starts(op, env, i)
        && (|| env.body(i).RaisesEarly?
            || (op.tool.Guarded? && env.inside(i).interrupt)
            || (env.body(i).RaisesLate? && (op.tool.Guarded? ==> env.inside(i) == CLEAR))
            || (op.tool.Browser? && exists k: nat :: RaisesAt(op.tool.actions, env, i, from, k))))
  }

  /** The turn of operation `i` records the event `e`. */
  ghost predicate Records(op: Operation, env: Env, i: nat, from: nat, e: Event) {
    && e.op == i
    && match e
       case Began(_) => Starts(op, env, i)
       case Acted(_, k) =>
         && Starts(op, env, i) && !env.body(i).RaisesEarly? && op.tool.Browser?
         && from <= k < |op.tool.actions| && PerformsAll(op.tool.actions, env, i, from, k + 1)
       case Finished(_) => Finishes(op, env, i, from)
       case Failed(_) => Fails(op, env, i, from)
       case Suspended(_, inBrowser) =>
         if inBrowser then exists k: nat :: WaitsInBrowser(op, env, i, from, k) else IsPutOff(op, env, i)
  }

  /** What the verdict of a turn means. */
  ghost predicate Means(op: Operation, env: Env, i: nat, from: nat, v: Verdict) {
    match v
    case Ok => Finishes(op, env, i, from)
    case Error => Fails(op, env, i, from)
    case Pause(None) => IsPutOff(op, env, i)
    case Pause(Some(k)) => WaitsInBrowser(op, env, i, from, k)
  }

  // ---- the browser loop ----

  lemma {:induction false} PerformsOneMore(actions: seq<Action>, env: Env, i: nat, from: nat, to: nat)
    requires from < |actions| && from < to
    ensures PerformsAll(actions, env, i, from, to) <==>
            Performs(actions, env, i, from) && PerformsAll(actions, env, i, from + 1, to)
  {
  }

  /** The outcome of the loop. */
  lemma {:induction false} BrowseEnds(actions: seq<Action>, env: Env, i: nat, from: nat)
    ensures match Browse(actions, env, i, from).1
            case Through => PerformsAll(actions, env, i, from, |actions|)
            case Waits(k) => WaitsAt(actions, env, i, from, k)
            case Raises => exists k: nat :: RaisesAt(actions, env, i, from, k)
    decreases |actions| - from
  {
    if from < |actions| {
      if Performs(actions, env, i, from) {
        BrowseEnds(actions, env, i, from + 1);
        var outcome := Browse(actions, env, i, from + 1).1;
        if outcome.Raises? {
          var k: nat :| RaisesAt(actions, env, i, from + 1, k);
          PerformsOneMore(actions, env, i, from, k);
          assert RaisesAt(actions, env, i, from, k);
        } else if outcome.Waits? {
          PerformsOneMore(actions, env, i, from, outcome.next);
        }
      } else if !env.during(i, from).pause && actions[from].Act? {
        assert RaisesAt(actions, env, i, from, from);
      }
    }
  }

  /** The actions that the loop performs. */
  lemma {:induction false} BrowseRecords(actions: seq<Action>, env: Env, i: nat, from: nat, k: nat)
    ensures Acted(i, k) in Browse(actions, env, i, from).0 <==>
            from <= k < |actions| && PerformsAll(actions, env, i, from, k + 1)
    decreases |actions| - from
  {
    if from < |actions| {
      if Performs(actions, env, i, from) {
        BrowseRecords(actions, env, i, from + 1, k);
        if from <= k {
          PerformsOneMore(actions, env, i, from, k + 1);
        }
      } else if from <= k {
        assert !PerformsAll(actions, env, i, from, k + 1);
      }
    }
  }

  /** A loop ends in one way only. */
  lemma {:induction false} OneStop(actions: seq<Action>, env: Env, i: nat, from: nat, j: nat, k: nat)
    requires WaitsAt(actions, env, i, from, j) || RaisesAt(actions, env, i, from, j)
    requires WaitsAt(actions, env, i, from, k) || RaisesAt(actions, env, i, from, k)
    ensures j == k && !PerformsAll(actions, env, i, from, |actions|)
    ensures !(WaitsAt(actions, env, i, from, j) && RaisesAt(actions, env, i, from, k))
  {
    assert !Performs(actions, env, i, j) && !Performs(actions, env, i, k);
  }

  // ---- one turn ----

  /** At most one way of ending applies. */
  lemma {:induction false} OneMeaning(op: Operation, env: Env, i: nat, from: nat, v: Verdict, v': Verdict)
    requires Means(op, env, i, from, v) && Means(op, env, i, from, v')
    ensures v == v'
  {
    if op.tool.Browser? && Starts(op, env, i) && env.body(i).Fine? {
      BrowserMeaning(op, env, i, from, v, v');
    }
  }

  lemma {:induction false} BrowserMeaning(op: Operation, env: Env, i: nat, from: nat, v: Verdict, v': Verdict)
    requires op.tool.Browser? && Starts(op, env, i) && env.body(i).Fine?
    requires Means(op, env, i, from, v) && Means(op, env, i, from, v')
    ensures v == v'
  {
    var actions := op.tool.actions;
    if !v.Ok? && !v'.Ok? {
      var j := StopOf(op, env, i, from, v);
      var k := StopOf(op, env, i, from, v');
      OneStop(actions, env, i, from, j, k);
    } else if v != v' {
      var k := StopOf(op, env, i, from, if v.Ok? then v' else v);
      OneStop(actions, env, i, from, k, k);
    }
  }

  lemma {:induction false} StopOf(op: Operation, env: Env, i: nat, from: nat, v: Verdict) returns (k: nat)
    requires op.tool.Browser? && Starts(op, env, i) && env.body(i).Fine? && Means(op, env, i, from, v) && !v.Ok?
    ensures if v.Pause? then v.browser == Some(k) && WaitsAt(op.tool.actions, env, i, from, k)
            else RaisesAt(op.tool.actions, env, i, from, k)
  {
    if v.Pause? {
      k := v.browser.value;
    } else {
      k :| RaisesAt(op.tool.actions, env, i, from, k);
    }
  }

  lemma {:induction false} TurnMeans(op: Operation, env: Env, i: nat, from: nat)
    ensures Means(op, env, i, from, Turn(op, env, i, from).1)
  {
    if op.tool.Browser? {
      BrowseEnds(op.tool.actions, env, i, from);
    }
  }

  /** The verdict of a turn, from the operation and the environment alone. */
  lemma {:induction false} VerdictExactly(op: Operation, env: Env, i: nat, from: nat, v: Verdict)
    ensures Turn(op, env, i, from).1 == v <==> Means(op, env, i, from, v)
  {
    TurnMeans(op, env, i, from);
    if Means(op, env, i, from, v) {
      OneMeaning(op, env, i, from, v, Turn(op, env, i, from).1);
    }
  }

  /** The event that a verdict leaves behind. */
  function EndOf(i: nat, v: Verdict): (e: Event) {
    match v
    case Ok => Finished(i)
    case Error => Failed(i)
    case Pause(browser) => Suspended(i, browser.Some?)
  }

  predicate IsEnd(e: Event) {
    !e.Began? && !e.Acted?
  }

  /** What a turn records before its end: the start of the body and browser actions. */
  ghost predicate RecordsInside(op: Operation, env: Env, i: nat, from: nat, e: Event) {
    !IsEnd(e) && Records(op, env, i, from, e)
  }

  lemma {:induction false} BrowserTurnRecords(actions: seq<Action>, env: Env, i: nat, from: nat, e: Event)
    ensures var (log, v) := BrowserOp(actions, env, i, from);
            e in log <==>
            || e == Began(i) || e == EndOf(i, v)
            || (&& e.Acted? && e.op == i && from <= e.action < |actions|
                && PerformsAll(actions, env, i, from, e.action + 1))
  {
    var acts := Browse(actions, env, i, from).0;
    BrowseIsPaced(actions, env, i, from);
    if e.Acted? && e.op == i {
      BrowseRecords(actions, env, i, from, e.action);
    }
  }

  /** A turn records its end, and before it what happened inside the body. */
  lemma {:induction false} TurnRecordsParts(op: Operation, env: Env, i: nat, from: nat, e: Event)
    ensures var (log, v) := Turn(op, env, i, from);
            e in log <==> RecordsInside(op, env, i, from, e) || e == EndOf(i, v)
  {
    if Starts(op, env, i) && op.tool.Browser? && !env.body(i).RaisesEarly? {
      BrowserTurnRecords(op.tool.actions, env, i, from, e);
    }
  }

  lemma {:induction false} EndIsMeant(op: Operation, env: Env, i: nat, from: nat, e: Event)
    requires IsEnd(e)
    ensures e == EndOf(i, Turn(op, env, i, from).1) <==> Records(op, env, i, from, e)
  {
    var v := Turn(op, env, i, from).1;
    TurnMeans(op, env, i, from);
    if Records(op, env, i, from, e) {
      var v' :=
        if e.Finished? then Ok else if e.Failed? then Error else if !e.inBrowser then Pause(None)
        else var k: nat :| WaitsInBrowser(op, env, i, from, k); Pause(Some(k));
      OneMeaning(op, env, i, from, v, v');
    }
  }

  /** The events of a turn, from the operation and the environment alone. */
  lemma {:induction false} TurnRecordsExactly(op: Operation, env: Env, i: nat, from: nat, e: Event)
    ensures e in Turn(op, env, i, from).0 <==> Records(op, env, i, from, e)
  {
    TurnRecordsParts(op, env, i, from, e);
    if IsEnd(e) {
      EndIsMeant(op, env, i, from, e);
    }
  }

  // ---- one session ----

  /** The session goes on behind operation `i`. */
  ghost predicate GoesOn(op: Operation, continueOnError: bool, env: Env, i: nat, from: nat) {
    Finishes(op, env, i, from) || (continueOnError && Fails(op, env, i, from))
  }

  /** A session that starts at `i` comes to operation `o`. */
  ghost predicate ComesTo(plan: seq<Operation>, continueOnError: bool, env: Env, from: nat, i: nat, o: nat) {
    i <= o <= |plan| && forall x :: i <= x < o ==> GoesOn(plan[x], continueOnError, env, x, from)
  }

  lemma {:induction false} ComesToLater(plan: seq<Operation>, continueOnError: bool, env: Env, from: nat, i: nat,
                                        o: nat)
    requires i < |plan| && i < o
    ensures ComesTo(plan, continueOnError, env, from, i, o) <==>
            GoesOn(plan[i], continueOnError, env, i, from) && ComesTo(plan, continueOnError, env, from, i + 1, o)
  {
  }

  lemma {:induction false} SessionStep(plan: seq<Operation>, continueOnError: bool, env: Env, from: nat, i: nat)
    requires i < |plan|
    ensures var (log, v) := Turn(plan[i], env, i, from);
            var r := Session(plan, continueOnError, env, from, i);
            var rest := Session(plan, continueOnError, env, from, i + 1);
            if GoesOn(plan[i], continueOnError, env, i, from) then r == Report(log + rest.log, rest.ending)
            else r == Report(log, if v.Pause? then Paused(i, v.browser) else Stopped(i))
  {
    VerdictExactly(plan[i], env, i, from, Ok);
    VerdictExactly(plan[i], env, i, from, Error);
  }

  /** The events of a session: those of the operations that it comes to. */
  lemma {:induction false} SessionRecordsExactly(plan: seq<Operation>, continueOnError: bool, env: Env, from: nat,
                                                 i: nat, e: Event)
    ensures e in Session(plan, continueOnError, env, from, i).log <==>
            && e.op < |plan| && ComesTo(plan, continueOnError, env, from, i, e.op)
            && Records(plan[e.op], env, e.op, from, e)
    decreases |plan| - i
  {
    if i < |plan| {
      SessionStep(plan, continueOnError, env, from, i);
      TurnRecordsExactly(plan[i], env, i, from, e);
      SessionRecordsExactly(plan, continueOnError, env, from, i + 1, e);
      if i < e.op {
        ComesToLater(plan, continueOnError, env, from, i, e.op);
      }
    }
  }

  /** How a session ends: it completes exactly if it goes on to the end, pauses exactly where an operation waits or is
      put off, and stops exactly at a failure that is not passed over. */
  ghost predicate EndsAs(plan: seq<Operation>, continueOnError: bool, env: Env, from: nat, i: nat, e: Ending) {
    match e
    case Completed => i >= |plan| || ComesTo(plan, continueOnError, env, from, i, |plan|)
    case Paused(o, browser) =>
      && o < |plan| && ComesTo(plan, continueOnError, env, from, i, o)
      && Means(plan[o], env, o, from, Pause(browser))
    case Stopped(o) =>
      && o < |plan| && ComesTo(plan, continueOnError, env, from, i, o)
      && !continueOnError && Fails(plan[o], env, o, from)
  }

  lemma {:induction false} SessionEndsExactly(plan: seq<Operation>, continueOnError: bool, env: Env, from: nat, i: nat,
                                              e: Ending)
    ensures Session(plan, continueOnError, env, from, i).ending == e <==>
            EndsAs(plan, continueOnError, env, from, i, e)
    decreases |plan| - i
  {
    if i < |plan| {
      SessionStep(plan, continueOnError, env, from, i);
      SessionEndsExactly(plan, continueOnError, env, from, i + 1, e);
      EndsAsStep(plan, continueOnError, env, from, i, e);
    }
  }

  /** The ending of a session, one operation on. */
  lemma {:induction false} EndsAsStep(plan: seq<Operation>, continueOnError: bool, env: Env, from: nat, i: nat,
                                      e: Ending)
    requires i < |plan|
    ensures var v := Turn(plan[i], env, i, from).1;
            EndsAs(plan, continueOnError, env, from, i, e) <==>
            if GoesOn(plan[i], continueOnError, env, i, from) then EndsAs(plan, continueOnError, env, from, i + 1, e)
            else e == if v.Pause? then Paused(i, v.browser) else Stopped(i)
  {
    var v, goes := Turn(plan[i], env, i, from).1, GoesOn(plan[i], continueOnError, env, i, from);
    TurnMeans(plan[i], env, i, from);
    if goes {
      OneMeaning(plan[i], env, i, from, v, if Finishes(plan[i], env, i, from) then Ok else Error);
    }
    var o := if e.Completed? then |plan| else if e.Paused? then e.next else e.at;
    if i < o {
      ComesToLater(plan, continueOnError, env, from, i, o);
    } else if o == i {
      if e.Paused? && Means(plan[i], env, i, from, Pause(e.browser)) {
        OneMeaning(plan[i], env, i, from, v, Pause(e.browser));
      }
      if e.Stopped? && Fails(plan[i], env, i, from) {
        OneMeaning(plan[i], env, i, from, v, Error);
      }
    }
  }

  // ---- a chain of sessions ----

  /** Session `t` of a chain starts at operation `j` with browser checkpoint `f`: every session before it pauses, at the
      operation and with the checkpoint from which the next one starts. */
  ghost predicate Enters(plan: seq<Operation>, continueOnError: bool, envs: seq<Env>, from: nat, i: nat, t: nat, f: nat,
                         j: nat)
    decreases t
  {
    if t == 0 then f == from && j == i
    else
      envs != [] && exists next: nat, browser: Option<nat> ::
        EndsAs(plan, continueOnError, envs[0], from, i, Paused(next, browser))
        && Enters(plan, continueOnError, envs[1..], if browser.Some? then browser.value else from, next, t - 1, f, j)
  }

  /** Session `t` of the chain records `e`. */
  ghost predicate RecordsAt(plan: seq<Operation>, continueOnError: bool, envs: seq<Env>, from: nat, i: nat, e: Event,
                            t: nat, f: nat, j: nat)
    requires t < |envs|
  {
    && Enters(plan, continueOnError, envs, from, i, t, f, j)
    && e.op < |plan| && ComesTo(plan, continueOnError, envs[t], f, j, e.op)
    && Records(plan[e.op], envs[t], e.op, f, e)
  }

  ghost predicate ChainRecords(plan: seq<Operation>, continueOnError: bool, envs: seq<Env>, from: nat, i: nat, e: Event)
  {
    exists t: nat, f: nat, j: nat :: t < |envs| && RecordsAt(plan, continueOnError, envs, from, i, e, t, f, j)
  }

  lemma {:induction false} LaterEnters(plan: seq<Operation>, continueOnError: bool, envs: seq<Env>, from: nat, i: nat,
                                       t: nat, f: nat, j: nat)
    requires envs != [] && t > 0
    ensures var e := Session(plan, continueOnError, envs[0], from, i).ending;
            Enters(plan, continueOnError, envs, from, i, t, f, j) <==>
            && e.Paused?
            && Enters(plan, continueOnError, envs[1..], if e.browser.Some? then e.browser.value else from, e.next,
                      t - 1, f, j)
  {
    var e := Session(plan, continueOnError, envs[0], from, i).ending;
    if e.Paused? {
      SessionEndsExactly(plan, continueOnError, envs[0], from, i, e);
    }
    if Enters(plan, continueOnError, envs, from, i, t, f, j) {
      var next: nat, browser: Option<nat> :|
        EndsAs(plan, continueOnError, envs[0], from, i, Paused(next, browser))
        && Enters(plan, continueOnError, envs[1..], if browser.Some? then browser.value else from, next, t - 1, f, j);
      SessionEndsExactly(plan, continueOnError, envs[0], from, i, Paused(next, browser));
    }
  }

  lemma {:induction false} LaterRecordsAt(plan: seq<Operation>, continueOnError: bool, envs: seq<Env>, from: nat,
                                          i: nat, e: Event, t: nat, f: nat, j: nat)
    requires 0 < t < |envs|
    ensures var end := Session(plan, continueOnError, envs[0], from, i).ending;
            RecordsAt(plan, continueOnError, envs, from, i, e, t, f, j) <==>
            && end.Paused?
            && RecordsAt(plan, continueOnError, envs[1..], if end.browser.Some? then end.browser.value else from,
                         end.next, e, t - 1, f, j)
  {
    LaterEnters(plan, continueOnError, envs, from, i, t, f, j);
    assert envs[1..][t - 1] == envs[t];
  }

  /** What a chain records, one session on. */
  lemma {:induction false} ChainRecordsStep(plan: seq<Operation>, continueOnError: bool, envs: seq<Env>, from: nat,
                                            i: nat, e: Event)
    requires envs != []
    ensures var first := Session(plan, continueOnError, envs[0], from, i);
            ChainRecords(plan, continueOnError, envs, from, i, e) <==>
            || e in first.log
            || (&& first.ending.Paused?
                && ChainRecords(plan, continueOnError, envs[1..],
                                if first.ending.browser.Some? then first.ending.browser.value else from,
                                first.ending.next, e))
  {
    var first := Session(plan, continueOnError, envs[0], from, i);
    SessionRecordsExactly(plan, continueOnError, envs[0], from, i, e);
    if ChainRecords(plan, continueOnError, envs, from, i, e) {
      var t: nat, f: nat, j: nat :| t < |envs| && RecordsAt(plan, continueOnError, envs, from, i, e, t, f, j);
      if t > 0 {
        LaterRecordsAt(plan, continueOnError, envs, from, i, e, t, f, j);
      }
    }
    if e in first.log {
      assert RecordsAt(plan, continueOnError, envs, from, i, e, 0, from, i);
    }
    if first.ending.Paused? {
      LaterRecords(plan, continueOnError, envs, from, i, e, first.ending);
    }
  }

  lemma {:induction false} LaterRecords(plan: seq<Operation>, continueOnError: bool, envs: seq<Env>, from: nat, i: nat,
                                        e: Event, paused: Ending)
    requires envs != [] && paused.Paused? && Session(plan, continueOnError, envs[0], from, i).ending == paused
    ensures var b := if paused.browser.Some? then paused.browser.value else from;
            ChainRecords(plan, continueOnError, envs[1..], b, paused.next, e) ==>
            ChainRecords(plan, continueOnError, envs, from, i, e)
  {
    var b := if paused.browser.Some? then paused.browser.value else from;
    if ChainRecords(plan, continueOnError, envs[1..], b, paused.next, e) {
      var t: nat, f: nat, j: nat :|
        t < |envs[1..]| && RecordsAt(plan, continueOnError, envs[1..], b, paused.next, e, t, f, j);
      LaterRecordsAt(plan, continueOnError, envs, from, i, e, t + 1, f, j);
    }
  }

  /** The events of a chain, from the plan and the environments alone: an operation is recorded as started, finished,
      failed or suspended exactly if a session that the pauses before it lead to comes to the operation, and the
      operation then starts, finishes, fails, waits or is put off. */
  lemma {:induction false} ChainRecordsExactly(plan: seq<Operation>, continueOnError: bool, envs: seq<Env>, from: nat,
                                               i: nat, e: Event)
    requires i <= |plan|
    ensures e in Chain(plan, continueOnError, envs, from, i).log <==>
            ChainRecords(plan, continueOnError, envs, from, i, e)
    decreases |envs|
  {
    if envs != [] {
      var first := Session(plan, continueOnError, envs[0], from, i);
      ChainRecordsStep(plan, continueOnError, envs, from, i, e);
      if first.ending.Paused? {
        SessionSettles(plan, continueOnError, envs[0], from, i);
        var b := if first.ending.browser.Some? then first.ending.browser.value else from;
        ChainRecordsExactly(plan, continueOnError, envs[1..], b, first.ending.next, e);
      }
    }
  }

  // ---- the rows of the result ----

  /** A step row says completed exactly if its operation finished or waits in the browser, and failed exactly if it
      failed; the error rows are the failed operations. */
  lemma {:induction false} RowsMean(log: seq<Event>, i: nat)
    ensures StepRow(i, true) in StepRows(log) <==> Finished(i) in log || Suspended(i, true) in log
    ensures StepRow(i, false) in StepRows(log) <==> Failed(i) in log
    ensures i in ErrorRows(log) <==> Failed(i) in log
  {
    if log != [] {
      var front, last := log[..|log| - 1], log[|log| - 1];
      RowsMean(front, i);
      assert log == front + [last];
    }
  }

  predicate Ascending(rows: seq<StepRow>) {
    forall a, b :: 0 <= a < b < |rows| ==> rows[a].index < rows[b].index
  }

  /** Only the last event of a session is a suspension. */
  ghost predicate SuspendsLast(log: seq<Event>) {
    forall k :: 0 <= k < |log| - 1 ==> !log[k].Suspended?
  }

  lemma {:induction false} RowsAscend(log: seq<Event>)
    requires Paced(log) && SuspendsLast(log)
    ensures Ascending(StepRows(log))
    ensures log != [] ==>
              forall r :: r in StepRows(log) ==>
                var last := log[|log| - 1]; r.index <= last.op && (r.index == last.op ==> RowsFor(last) != [])
  {
    if log != [] {
      var n := |log| - 1;
      var front, last := log[..n], log[n];
      assert forall k :: 0 <= k < |front| ==> front[k] == log[k];
      RowsAscend(front);
      if n > 0 {
        assert Follows(log[n - 1], last);
        assert front[n - 1] == log[n - 1];
      }
    }
  }

  lemma {:induction false} SuspendsLastConcat(a: seq<Event>, b: seq<Event>)
    requires SuspendsLast(a) && SuspendsLast(b) && (a != [] ==> !a[|a| - 1].Suspended?)
    ensures SuspendsLast(a + b)
  {
    forall k | 0 <= k < |a + b| - 1 ensures !(a + b)[k].Suspended? {
      if k >= |a| {
        assert !b[k - |a|].Suspended?;
      }
    }
  }

  lemma {:induction false} TurnSuspendsLast(op: Operation, env: Env, i: nat, from: nat)
    ensures SuspendsLast(Turn(op, env, i, from).0)
  {
    if op.tool.Browser? {
      BrowseIsPaced(op.tool.actions, env, i, from);
    }
  }

  lemma {:induction false} SessionSuspendsLast(plan: seq<Operation>, continueOnError: bool, env: Env, from: nat, i: nat)
    ensures SuspendsLast(Session(plan, continueOnError, env, from, i).log)
    decreases |plan| - i
  {
    if i < |plan| {
      var (log, v) := Turn(plan[i], env, i, from);
      TurnSuspendsLast(plan[i], env, i, from);
      TurnIsPaced(plan[i], env, i, from);
      if v.Ok? || v.Error? {
        SessionSuspendsLast(plan, continueOnError, env, from, i + 1);
        SuspendsLastConcat(log, Session(plan, continueOnError, env, from, i + 1).log);
      }
    }
  }

  /** The rows of a session, from the plan and the environment alone: one row for each operation that the session comes
      to and that is not put off, in order, marked as completed exactly if the operation finishes or waits in the
      browser. */
  lemma {:induction false} SessionRowsExactly(plan: seq<Operation>, continueOnError: bool, env: Env, from: nat, i: nat,
                                              o: nat)
    requires i <= |plan|
    ensures var rows := StepRows(Session(plan, continueOnError, env, from, i).log);
            var comes := o < |plan| && ComesTo(plan, continueOnError, env, from, i, o);
            && Ascending(rows)
            && (StepRow(o, true) in rows <==>
                  && comes
                  && (Finishes(plan[o], env, o, from) || exists k: nat :: WaitsInBrowser(plan[o], env, o, from, k)))
            && (StepRow(o, false) in rows <==> comes && Fails(plan[o], env, o, from))
    ensures o in ErrorRows(Session(plan, continueOnError, env, from, i).log) <==>
            o < |plan| && ComesTo(plan, continueOnError, env, from, i, o) && Fails(plan[o], env, o, from)
  {
    var log := Session(plan, continueOnError, env, from, i).log;
    SessionIsPaced(plan, continueOnError, env, from, i);
    SessionSuspendsLast(plan, continueOnError, env, from, i);
    RowsAscend(log);
    RowsMean(log, o);
    SessionRecordsExactly(plan, continueOnError, env, from, i, Finished(o));
    SessionRecordsExactly(plan, continueOnError, env, from, i, Failed(o));
    SessionRecordsExactly(plan, continueOnError, env, from, i, Suspended(o, true));
  }
}
