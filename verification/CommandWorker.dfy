/** The pieces of the self-hosted command worker that run on one machine: retrying a request, asking the kernel for
    permission, processing one command and one poll; and the queue object of the cloud
    (scripts/empyralis_self_hosted_command_worker.py, scripts/mock_empyralis_cloud.py). */
module CommandWorker {
  import Q = CommandQueue
  import opened Text

  // ---- retry with exponential backoff ----

  function Pow2(n: nat): (r: nat)
    ensures r >= 1
  {
    if n == 0 then 1 else 2 * Pow2(n - 1)
  }

  /** The index of the first attempt below `attempts` that succeeds, or `attempts`. */
  ghost function FirstSuccess(fails: nat -> bool, attempts: nat, from: nat): (k: nat)
    requires from <= attempts
    ensures from <= k <= attempts
    ensures forall i :: from <= i < k ==> fails(i)
    ensures k < attempts ==> !fails(k)
    decreases attempts - from
  {
    if from == attempts || !fails(from) then from else FirstSuccess(fails, attempts, from + 1)
  }

  /** `HttpClient.retry`: it stops at the first success; a run of failures makes exactly `attempts` requests; before
      attempt `k` it has slept `backoff * (2^k - 1)` in total, and it does not sleep after the last failure. */
  method Retry(fails: nat -> bool, attempts: nat, backoff: real) returns (ok: bool, requests: nat, slept: real)
    ensures ok <==> exists i :: 0 <= i < attempts && !fails(i)
    ensures requests == if ok then FirstSuccess(fails, attempts, 0) + 1 else attempts
    ensures requests == 0 ==> slept == 0.0
    ensures requests > 0 ==> slept == Slept(backoff, requests - 1)
  {
    ok, requests, slept := false, 0, 0.0;
    var i := 0;
    while i < attempts
      invariant 0 <= i <= attempts && requests == i && !ok
      invariant forall j :: 0 <= j < i ==> fails(j)
      invariant slept == Slept(backoff, SleepsBefore(i, attempts))
    {
      requests := requests + 1;
      if !fails(i) {
        ok := true;
        return;
      }
      if i < attempts - 1 {
        SleptOneMore(backoff, i);
        slept := slept + backoff * Pow2(i) as real;
      }
      i := i + 1;
    }
  }

  /** How many times the loop has slept when `i` attempts have failed. */
  ghost function SleepsBefore(i: nat, attempts: nat): (n: nat) {
    if i == attempts && i > 0 then i - 1 else i
  }

  /** The time slept in `n` pauses, each twice as long as the one before. */
  function Slept(backoff: real, n: nat): (r: real) {
    backoff * (Pow2(n) - 1) as real
  }

  ghost function SumOfPauses(backoff: real, n: nat): (r: real) {
    if n == 0 then 0.0 else SumOfPauses(backoff, n - 1) + backoff * Pow2(n - 1) as real
  }

  /** The first pause is `backoff`, and each further one twice as long: together `backoff * (2^n - 1)`. */
  lemma {:induction false} SleptIsSum(backoff: real, n: nat)
    ensures Slept(backoff, n) == SumOfPauses(backoff, n)
  {
    if n > 0 {
      SleptIsSum(backoff, n - 1);
      SleptOneMore(backoff, n - 1);
    }
  }

  lemma {:induction false} SleptOneMore(backoff: real, n: nat)
    ensures Slept(backoff, n) + backoff * Pow2(n) as real == Slept(backoff, n + 1)
  {
    var x := Pow2(n) as real;
    assert (Pow2(n + 1) - 1) as real == (x - 1.0) + x;
    Distribute(backoff, x - 1.0, x);
  }

  lemma {:induction false} Distribute(b: real, x: real, y: real)
    ensures b * x + b * y == b * (x + y)
  {
  }

  // ---- the governance gate ----

  /** A field of the kernel's JSON answer. */
  datatype Field = Missing | Flag(b: bool) | Word(s: string) | Other

  /** What running the kernel binary can lead to. */
  datatype Kernel =
    | Unavailable
    | TimedOut
    | NotExecutable
    | EmptyOutput
    | InvalidJson
    | NotAnObject
    | Answer(exitCode: int, ok: Field, decision: Field)

  datatype Decision = Decision(ok: Field, decision: Field)

  const BLOCK := Decision(Flag(false), Word("block"))

  /** `_run_runtime_kernel`: anything but a well-formed answer becomes a block; a non-zero exit code is accepted only
      together with a refusal, whose missing fields are filled in. */
  function RunRuntimeKernel(k: Kernel): (d: Decision) {
    match k
    case Answer(exitCode, ok, decision) =>
      var ok' := if exitCode != 0 && ok.Missing? then Flag(false) else ok;
      var decision' := if exitCode != 0 && decision.Missing? then Word("block") else decision;
      if exitCode != 0 && (ok' != Flag(false) || decision' != Word("block")) then BLOCK
      else if !ok'.Flag? || !decision'.Word? then BLOCK
      else Decision(ok', decision')
    case _ => BLOCK
  }

  /** `enforce_command_governance` returns normally. */
  predicate Permits(k: Kernel) {
    var d := RunRuntimeKernel(k);
    !k.Unavailable? && d.decision != Word("block") && d.ok != Flag(false)
  }

  /** The answer that the worker goes by: that of a kernel which exits with 0 and answers a flag and a word, and a block
      in every other case. */
  lemma {:induction false} AnswerExactly(k: Kernel)
    ensures RunRuntimeKernel(k) ==
            if k.Answer? && k.exitCode == 0 && k.ok.Flag? && k.decision.Word? then Decision(k.ok, k.decision) else BLOCK
  {
  }

  /** The gate fails closed: it permits a command exactly when the kernel ran, exited with 0, and answered `ok: true`
      with a decision other than "block". */
  lemma {:induction false} GateFailsClosed(k: Kernel)
    ensures Permits(k) <==>
            k.Answer? && k.exitCode == 0 && k.ok == Flag(true) && k.decision.Word? && k.decision.s != "block"
  {
    if k.Answer? && k.exitCode != 0 {
      assert RunRuntimeKernel(k) == BLOCK;
    }
  }

  // ---- one command, one poll ----

  /** How `execute_command` ends: it returns a status, raises, or returns nothing. */
  datatype Execution = Returned(status: string) | Raised | Nothing

  /** A claimed command, the empty string standing for an absent field, together with what the outside world will answer
      about it. */
  datatype Command = Command(idField: string, commandIdField: string, capability: string, kernel: Kernel,
                             execution: Execution, reportArrives: bool)

  /** The id under which a command is processed and first reported on. */
  function IdOf(c: Command): (id: string) {
    Strip(if c.idField != "" then c.idField else c.commandIdField)
  }

  /** The id under which `_poll_cycle` reports on a command whose processing raised. */
  function SecondId(c: Command): (id: string) {
    if c.idField != "" then c.idField else "unknown"
  }

  /** The second report reaches the command exactly if the command carries its id, stripped, in the `id` field (or is
      called "unknown"). */
  lemma {:induction false} SecondReportReaches(c: Command)
    ensures SecondId(c) == IdOf(c) <==>
            if c.idField != "" then Trimmed(IsSpace, c.idField) else Strip(c.commandIdField) == "unknown"
  {
    TrimIsTrimmed(IsSpace, c.idField);
  }

  /** A command that carries its id in the field `command_id` only: it is processed as c1, and the second report is
      about another one. */
  lemma {:induction false} SecondReportGoesAstray(kernel: Kernel, execution: Execution)
    ensures var c := Command("", "c1", "shell", kernel, execution, false); IdOf(c) == "c1" && SecondId(c) == "unknown"
  {
    TrimIsTrimmed(IsSpace, "c1");
  }

  predicate WellFormed(c: Command) {
    IdOf(c) != "" && Strip(c.capability) != ""
  }

  /** The command is executed at all. */
  predicate Executes(c: Command) {
    WellFormed(c) && Permits(c.kernel)
  }

  predicate EndsCompleted(c: Command) {
    Executes(c) && c.execution == Returned("completed")
  }

  /** The worker counts the command as executed: it ran to completion and its result was accepted. */
  predicate Succeeds(c: Command) {
    EndsCompleted(c) && c.reportArrives
  }

  function CountIf(p: Command -> bool, cs: seq<Command>): (n: nat) {
    if cs == [] then 0 else CountIf(p, cs[..|cs| - 1]) + (if p(cs[|cs| - 1]) then 1 else 0)
  }

  datatype Outcome = Done | NotDone | Threw

  class SelfHostedCommandWorker {
    var commandsExecuted: nat
    var commandsFailed: nat
    var executions: seq<string>    // ids passed to `execute_command`, in order
    var reports: seq<(string, bool)>  // results sent, in order

    constructor ()
      ensures commandsExecuted == 0 && commandsFailed == 0 && executions == [] && reports == []
    {
      commandsExecuted, commandsFailed, executions, reports := 0, 0, [], [];
    }

    /** Govern, execute, report. Nothing is executed unless the gate permits it, and a report of success is sent only
        for an execution that ended as completed. A counter is raised only if the report did not throw. */
    method ProcessCommand(c: Command) returns (r: Outcome)
      modifies this
      ensures executions == old(executions) + (if Executes(c) then [IdOf(c)] else [])
      ensures reports == old(reports) + (if WellFormed(c) then [(IdOf(c), EndsCompleted(c))] else [])
      ensures r.Threw? <==> WellFormed(c) && !c.reportArrives
      ensures r.Done? <==> Succeeds(c)
      ensures commandsExecuted == old(commandsExecuted) + (if r.Done? then 1 else 0)
      ensures commandsFailed == old(commandsFailed) + (if WellFormed(c) && r.NotDone? then 1 else 0)
    {
      if IdOf(c) == "" || Strip(c.capability) == "" {
        return NotDone;
      }
      if !Permits(c.kernel) {
        reports := reports + [(IdOf(c), false)];
        if !c.reportArrives {
          return Threw;
        }
        commandsFailed := commandsFailed + 1;
        return NotDone;
      }
      executions := executions + [IdOf(c)];
      var completed := c.execution == Returned("completed");
      reports := reports + [(IdOf(c), completed)];
      if !c.reportArrives {
        return Threw;
      }
      if completed {
        commandsExecuted := commandsExecuted + 1;
        return Done;
      }
      commandsFailed := commandsFailed + 1;
      r := NotDone;
    }

    /** One command of a poll: a report that throws is followed by a report of failure. */
    method PollOne(c: Command) returns (done: bool)
      modifies this
      ensures done == Succeeds(c)
      ensures commandsExecuted == old(commandsExecuted) + (if Succeeds(c) then 1 else 0)
      ensures commandsFailed == old(commandsFailed) + (if WellFormed(c) && !Succeeds(c) then 1 else 0)
      ensures executions == old(executions) + (if Executes(c) then [IdOf(c)] else [])
      ensures reports == old(reports) + ReportsOf(c)
    {
      var r := ProcessCommand(c);
      if r.Threw? {
        reports := reports + [(SecondId(c), false)];
        commandsFailed := commandsFailed + 1;
      }
      done := r.Done?;
    }

    /** One poll over the claimed commands: each well-formed command raises exactly one of the two counters, exactly
        once, also when reporting its result throws; a malformed command raises none. Each well-formed command is
        reported on once, and if that report throws, once more as failed. */
    method PollCycle(claimed: seq<Command>) returns (processed: nat)
      modifies this
      ensures commandsExecuted + commandsFailed
              == old(commandsExecuted) + old(commandsFailed) + CountIf(WellFormed, claimed)
      ensures commandsExecuted == old(commandsExecuted) + CountIf(Succeeds, claimed)
      ensures processed == CountIf(Succeeds, claimed)
      ensures executions == old(executions) + Ids(claimed)
      ensures reports == old(reports) + Reports(claimed)
    {
      processed := 0;
      for i := 0 to |claimed|
        invariant commandsExecuted + commandsFailed
                  == old(commandsExecuted) + old(commandsFailed) + CountIf(WellFormed, claimed[..i])
        invariant commandsExecuted == old(commandsExecuted) + CountIf(Succeeds, claimed[..i])
        invariant processed == CountIf(Succeeds, claimed[..i])
        invariant executions == old(executions) + Ids(claimed[..i])
        invariant reports == old(reports) + Reports(claimed[..i])
      {
        assert claimed[..i + 1][..i] == claimed[..i];
        ConcatAssoc(old(reports), Reports(claimed[..i]), ReportsOf(claimed[i]));
        ConcatAssoc(old(executions), Ids(claimed[..i]), if Executes(claimed[i]) then [IdOf(claimed[i])] else []);
        var done := PollOne(claimed[i]);
        if done {
          processed := processed + 1;
        }
      }
      assert claimed[..|claimed|] == claimed;
    }
  }

  /** The ids of the commands that are executed, in order. */
  function Ids(cs: seq<Command>): (r: seq<string>) {
    if cs == [] then []
    else Ids(cs[..|cs| - 1]) + (if Executes(cs[|cs| - 1]) then [IdOf(cs[|cs| - 1])] else [])
  }

  /** The reports on one command. */
  function ReportsOf(c: Command): (r: seq<(string, bool)>) {
    if !WellFormed(c) then []
    else if c.reportArrives then [(IdOf(c), EndsCompleted(c))]
    else [(IdOf(c), EndsCompleted(c)), (SecondId(c), false)]
  }

  function Reports(cs: seq<Command>): (r: seq<(string, bool)>) {
    if cs == [] then [] else Reports(cs[..|cs| - 1]) + ReportsOf(cs[|cs| - 1])
  }

  // ---- what becomes of commands ----

  /** A command is executed if and only if it carries an id and a capability and the kernel permits it. */
  lemma {:induction false} ExecutesExactly(c: Command)
    ensures Executes(c) <==>
            && Strip(if c.idField == "" then c.commandIdField else c.idField) != "" && Strip(c.capability) != ""
            && c.kernel.Answer? && c.kernel.exitCode == 0 && c.kernel.ok == Flag(true)
            && c.kernel.decision.Word? && c.kernel.decision.s != "block"
  {
    GateFailsClosed(c.kernel);
  }

  /** The reports on a command: none on a malformed one; the first says completed if and only if the command was
      executed and ended as completed; a second one, which says failed, is sent if and only if the first is lost. */
  lemma {:induction false} ReportsExactly(c: Command)
    ensures var formed := Strip(if c.idField == "" then c.commandIdField else c.idField) != ""
                          && Strip(c.capability) != "";
            var rs := ReportsOf(c);
            && (rs != [] <==> formed)
            && (formed ==> rs[0] == (IdOf(c), Executes(c) && c.execution == Returned("completed")))
            && (|rs| > 1 <==> formed && !c.reportArrives)
            && (|rs| > 1 ==> |rs| == 2 && rs[1] == (SecondId(c), false))
    ensures Succeeds(c) <==> Executes(c) && c.execution == Returned("completed") && c.reportArrives
  {
  }

  /** The commands of a poll do not influence each other: what two polls do one after the other, one poll of all their
      commands does. */
  lemma {:induction false} PollsAddUp(a: seq<Command>, b: seq<Command>, p: Command -> bool)
    ensures Ids(a + b) == Ids(a) + Ids(b) && Reports(a + b) == Reports(a) + Reports(b)
    ensures CountIf(p, a + b) == CountIf(p, a) + CountIf(p, b)
  {
    if b == [] {
      assert a + b == a;
    } else {
      var front, last := b[..|b| - 1], b[|b| - 1];
      PollsAddUp(a, front, p);
      assert (a + b)[..|a + b| - 1] == a + front && (a + b)[|a + b| - 1] == last;
      ConcatAssoc(Ids(a), Ids(front), if Executes(last) then [IdOf(last)] else []);
      ConcatAssoc(Reports(a), Reports(front), ReportsOf(last));
    }
  }

  lemma {:induction false} OneCommand(c: Command, p: Command -> bool)
    ensures Ids([c]) == (if Executes(c) then [IdOf(c)] else []) && Reports([c]) == ReportsOf(c)
    ensures CountIf(p, [c]) == if p(c) then 1 else 0
  {
    assert [c][..0] == [];
  }

  // ---- the queue object ----

  predicate IsPending(state: map<Q.CommandId, Q.QueueState>, c: Q.CommandId) {
    c in state && state[c] == Q.Pending
  }

  lemma {:induction false} TakeOneMore(order: seq<Q.CommandId>, state: map<Q.CommandId, Q.QueueState>, i: nat, max: nat,
                                       selected: seq<Q.CommandId>)
    requires i < |order| && max > 0
    ensures IsPending(state, order[i]) ==>
              selected + Q.TakePending(order[i..], state, max)
              == (selected + [order[i]]) + Q.TakePending(order[i + 1..], state, max - 1)
    ensures !IsPending(state, order[i]) ==>
              Q.TakePending(order[i..], state, max) == Q.TakePending(order[i + 1..], state, max)
  {
    assert order[i..][1..] == order[i + 1..];
    ConcatAssoc(selected, [order[i]], Q.TakePending(order[i + 1..], state, max - 1));
  }

  method SelectPending(order: seq<Q.CommandId>, state: map<Q.CommandId, Q.QueueState>, max: nat)
    returns (selected: seq<Q.CommandId>)
    ensures selected == Q.TakePending(order, state, max)
  {
    selected := [];
    var i := 0;
    while i < |order| && |selected| < max
      invariant 0 <= i <= |order| && |selected| <= max
      invariant Q.TakePending(order, state, max) == selected + Q.TakePending(order[i..], state, max - |selected|)
    {
      TakeOneMore(order, state, i, max - |selected|, selected);
      if IsPending(state, order[i]) {
        selected := selected + [order[i]];
      }
      i := i + 1;
    }
    assert selected + [] == selected;
  }

  lemma {:induction false} MarkOneMore(state: map<Q.CommandId, Q.QueueState>, cs: seq<Q.CommandId>, k: nat)
    requires k < |cs| && cs[k] in state
    ensures Q.MarkClaimed(state, cs[..k + 1]) == Q.MarkClaimed(state, cs[..k])[cs[k] := Q.Claimed]
  {
    assert cs[..k + 1] == cs[..k] + [cs[k]];
  }

  /** The cloud's `commands` dictionary: its keys in insertion order and the state of each. */
  class CommandStore {
    var order: seq<Q.CommandId>
    var state: map<Q.CommandId, Q.QueueState>

    ghost predicate Valid()
      reads this
    {
      Q.Distinct(order) && forall c :: c in order <==> c in state
    }

    constructor ()
      ensures Valid() && order == []
    {
      order, state := [], map[];
    }

    /** Hands out the oldest pending commands, at most `max`, and marks exactly those as claimed. */
    method ClaimCommands(max: nat) returns (claimed: seq<Q.CommandId>)
      requires Valid()
      modifies this
      ensures Valid() && order == old(order)
      ensures claimed == Q.TakePending(old(order), old(state), max)
      ensures state == Q.MarkClaimed(old(state), claimed)
      ensures forall c :: c in old(state) ==> state[c] == if c in claimed then Q.Claimed else old(state)[c]
    {
      claimed := SelectPending(order, state, max);
      for k := 0 to |claimed|
        invariant order == old(order) && state.Keys == old(state).Keys
        invariant state == Q.MarkClaimed(old(state), claimed[..k])
      {
        MarkOneMore(old(state), claimed, k);
        state := state[claimed[k] := Q.Claimed];
      }
      assert claimed[..|claimed|] == claimed;
    }

    /** Records a result; an unknown command is answered with an error and changes nothing. */
    method CompleteCommand(c: Q.CommandId, status: string) returns (found: bool)
      requires Valid()
      modifies this
      ensures Valid() && order == old(order)
      ensures found <==> c in old(state)
      ensures state == if found then old(state)[c := if status == "completed" then Q.Completed else Q.Failed]
                       else old(state)
    {
      found := c in state;
      if found {
        state := state[c := if status == "completed" then Q.Completed else Q.Failed];
      }
    }
  }

  /** The cloud's queue is the queue of the protocol: handling one request on the queue object leaves the state and
      gives the reply that `Serve` says; a report on an unknown command gets no acknowledgement. */
  method HandleRequest(store: CommandStore, ghost w: Q.World, ghost m: Q.MessageId, request: Q.Message)
    returns (reply: Option<Q.Reply>)
    requires store.Valid() && store.order == w.order && store.state == w.state
    requires m in w.inflight && w.inflight[m] == request && m !in w.replies
    modifies store
    ensures store.Valid() && store.order == Q.Serve(w, m).order && store.state == Q.Serve(w, m).state
    ensures Q.Serve(w, m).replies == if reply.Some? then w.replies[m := reply.value] else w.replies
  {
    match request {
      case Claim(max) =>
        var cs := store.ClaimCommands(max);
        reply := Some(Q.Commands(cs));
      case Report(c, ok) =>
        var found := store.CompleteCommand(c, if ok then "completed" else "failed");
        reply := if found then Some(Q.Ack) else None;
    }
  }
}
