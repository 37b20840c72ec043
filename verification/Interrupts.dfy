/** The interrupt controller of the local worker (scripts/orion_local_worker_runtime.py).

    A control-listener thread and an execution thread share one controller. Every field change happens in a block
    under the lock; killing a process or calling a supervisor's interrupt function happens after the block, at any
    later moment. Each locked block is one atomic function on `Controller`, and each effect it decides on becomes a
    separate later step of `World`, so that `Run` ranges over all interleavings of the two. */
module Interrupts {
  import opened Text

  /** A stored interrupt request; the empty string stands for an absent field. */
  datatype Snapshot = Snapshot(
    scope: string, eventType: string, reason: string, runId: string,
    machineId: string, requestedAt: string, sequence: Option<int>)

  type Process = nat   // identity of a Popen object
  type Callback = nat  // identity of a supervisor interrupt function

  datatype Controller = Controller(
    snapshot: Option<Snapshot>,
    process: Option<Process>, processRun: string,
    callback: Option<Callback>, callbackRun: string, callbackRequest: string)

  /** What a locked block leaves to be done once the lock is released. */
  datatype Effect = Kill(process: Process) | Call(callback: Callback)
  datatype Locked = Locked(next: Controller, effects: multiset<Effect>)

  const IDLE := Controller(None, None, "", None, "", "")

  function MakeSnapshot(scope: string, eventType: string, reason: string, runId: string,
                        machineId: string, requestedAt: string, sequence: Option<int>): (s: Snapshot)
  {
    Snapshot(Token(scope, "run"), Token(eventType, "hard_kill"), Strip(reason), Strip(runId),
             Strip(machineId), Strip(requestedAt), sequence)
  }

  predicate IsMachine(s: Snapshot) {
    Token(s.scope, "run") == "machine"
  }

  predicate AppliesToRun(snapshot: Option<Snapshot>, runId: string) {
    && snapshot.Some?
    && (IsMachine(snapshot.value) || (Strip(runId) != "" && Strip(snapshot.value.runId) == Strip(runId)))
  }

  // ---- the locked blocks ----

  function KillOf(p: Option<Process>): (e: multiset<Effect>) {
    if p.Some? then multiset{Kill(p.value)} else multiset{}
  }

  function CallOf(f: Option<Callback>): (e: multiset<Effect>) {
    if f.Some? then multiset{Call(f.value)} else multiset{}
  }

  function RequestLocked(c: Controller, s: Snapshot): (r: Locked) {
    Locked(
      c.(snapshot := Some(s)),
      (if AppliesToRun(Some(s), c.processRun) then KillOf(c.process) else multiset{}) +
      (if AppliesToRun(Some(s), c.callbackRun) then CallOf(c.callback) else multiset{}))
  }

  function RegisterProcessLocked(c: Controller, runId: string, p: Process): (r: Locked) {
    Locked(
      c.(process := Some(p), processRun := Strip(runId)),
      if AppliesToRun(c.snapshot, Strip(runId)) then KillOf(Some(p)) else multiset{})
  }

  function ClearProcessLocked(c: Controller, p: Process): (r: Locked) {
    Locked(if c.process == Some(p) then c.(process := None, processRun := "") else c, multiset{})
  }

  function RegisterSupervisorLocked(c: Controller, runId: string, requestId: string, f: Callback): (r: Locked) {
    Locked(
      c.(callback := Some(f), callbackRun := Strip(runId), callbackRequest := Strip(requestId)),
      if AppliesToRun(c.snapshot, Strip(runId)) then CallOf(Some(f)) else multiset{})
  }

  function ClearSupervisorLocked(c: Controller, requestId: string): (r: Locked) {
    var target, active := Strip(requestId), Strip(c.callbackRequest);
    Locked(
      if target != "" && active != "" && target != active then c
      else c.(callback := None, callbackRun := "", callbackRequest := ""),
      multiset{})
  }

  function ClearRunLocked(c: Controller, runId: string): (r: Locked) {
    Locked(
      if Strip(runId) != "" && AppliesToRun(c.snapshot, Strip(runId)) && Token(c.snapshot.value.scope, "run") == "run"
      then c.(snapshot := None) else c,
      multiset{})
  }

  function ClearMachineLocked(c: Controller, machineId: string): (r: Locked) {
    Locked(
      if c.snapshot.None? || Lower(Strip(c.snapshot.value.scope)) != "machine" then c
      else
        var target, stored := Strip(machineId), Strip(c.snapshot.value.machineId);
        if target != "" && stored != "" && stored != target then c else c.(snapshot := None),
      multiset{})
  }

  // ---- the whole system ----

  /** How the operating system answers `_terminate_process`. */
  datatype Outcome = Delivered | Refused

  datatype World = World(
    ctl: Controller,
    pending: multiset<Effect>,   // decided under the lock, not yet carried out
    owed: multiset<Effect>,      // everything ever decided
    done: multiset<Effect>,      // everything carried out
    killed: set<Process>, refused: set<Process>, exited: set<Process>,
    called: set<Callback>)

  datatype Step =
    | Request(s: Snapshot)
    | RegisterProcess(runId: string, p: Process)
    | ClearProcess(p: Process)
    | RegisterSupervisor(runId: string, requestId: string, f: Callback)
    | ClearSupervisor(requestId: string)
    | ClearRun(runId: string)
    | ClearMachine(machineId: string)
    | Perform(e: Effect, outcome: Outcome)
    | Exit(p: Process)

  const START := World(IDLE, multiset{}, multiset{}, multiset{}, {}, {}, {}, {})

  function LockedBlock(c: Controller, step: Step): (r: Locked)
    requires !step.Perform? && !step.Exit?
  {
    match step
    case Request(s) => RequestLocked(c, s)
    case RegisterProcess(run, p) => RegisterProcessLocked(c, run, p)
    case ClearProcess(p) => ClearProcessLocked(c, p)
    case RegisterSupervisor(run, req, f) => RegisterSupervisorLocked(c, run, req, f)
    case ClearSupervisor(req) => ClearSupervisorLocked(c, req)
    case ClearRun(run) => ClearRunLocked(c, run)
    case ClearMachine(m) => ClearMachineLocked(c, m)
  }

  /** Carries out one pending effect; a process that has already stopped is left alone. */
  function Carry(w: World, e: Effect, outcome: Outcome): (r: World) {
    var w' := w.(pending := w.pending - multiset{e}, done := w.done + multiset{e});
    match e
    case Call(f) => w'.(called := w.called + {f})
    case Kill(p) =>
      if p in w.exited || p in w.killed then w'
      else if outcome.Delivered? then w'.(killed := w.killed + {p})
      else w'.(refused := w.refused + {p})
  }

  function Next(w: World, step: Step): (r: World) {
    match step
    case Exit(p) => if p in w.killed then w else w.(exited := w.exited + {p})
    case Perform(e, outcome) => if e in w.pending then Carry(w, e, outcome) else w
    case _ =>
      var l := LockedBlock(w.ctl, step);
      w.(ctl := l.next, pending := w.pending + l.effects, owed := w.owed + l.effects)
  }

  /** The world after any finite interleaving of steps. */
  function Run(steps: seq<Step>): (w: World) {
    if steps == [] then START else Next(Run(steps[..|steps| - 1]), steps[|steps| - 1])
  }

  /** The stored interrupt applies to the run under which `p` is the active process. */
  predicate Hit(c: Controller, p: Process) {
    c.process == Some(p) && AppliesToRun(c.snapshot, c.processRun)
  }

  predicate CallbackHit(c: Controller, f: Callback) {
    c.callback == Some(f) && AppliesToRun(c.snapshot, c.callbackRun)
  }

  /** The process runs no more. */
  predicate Stopped(w: World, p: Process) {
    p in w.killed || p in w.exited
  }

  /** The process has stopped, or the system has refused to kill it. */
  predicate Answered(w: World, p: Process) {
    Stopped(w, p) || p in w.refused
  }

  /** Every current hit has been answered by deciding on its effect. */
  ghost predicate HitsAreOwed(c: Controller, owed: multiset<Effect>) {
    && (forall p :: Hit(c, p) ==> Kill(p) in owed)
    && (forall f :: CallbackHit(c, f) ==> Call(f) in owed)
  }

  /** The visible outcomes are exactly those of the effects carried out. */
  ghost predicate OutcomesMatch(w: World) {
    && (forall p :: Kill(p) in w.done ==> Answered(w, p))
    && (forall p :: p in w.killed || p in w.refused ==> Kill(p) in w.done)
    && (forall f :: Call(f) in w.done <==> f in w.called)
  }

  /** What every interleaving keeps: no effect is lost or invented, and a hit is always answered. */
  ghost predicate Inv(w: World) {
    && w.owed == w.pending + w.done
    && HitsAreOwed(w.ctl, w.owed)
    && OutcomesMatch(w)
  }

  /** A locked block that makes or keeps a hit either owes the kill already or decides on it now. */
  lemma {:induction false} LockedBlockAnswersHits(c: Controller, step: Step)
    requires !step.Perform? && !step.Exit?
    ensures forall p :: Hit(LockedBlock(c, step).next, p) ==>
                          Hit(c, p) || Kill(p) in LockedBlock(c, step).effects
    ensures forall f :: CallbackHit(LockedBlock(c, step).next, f) ==>
                          CallbackHit(c, f) || Call(f) in LockedBlock(c, step).effects
  {
    match step
    case RegisterProcess(run, p) => TrimIsTrimmed(IsSpace, run);
    case RegisterSupervisor(run, req, f) => TrimIsTrimmed(IsSpace, run);
    case _ =>
  }

  /** An effect is decided on only at a hit. */
  lemma {:induction false} LockedBlockOnlyAtHits(c: Controller, step: Step)
    requires !step.Perform? && !step.Exit?
    ensures forall p :: Kill(p) in LockedBlock(c, step).effects ==> Hit(LockedBlock(c, step).next, p)
    ensures forall f :: Call(f) in LockedBlock(c, step).effects ==> CallbackHit(LockedBlock(c, step).next, f)
  {
    match step
    case RegisterProcess(run, p) => TrimIsTrimmed(IsSpace, run);
    case RegisterSupervisor(run, req, f) => TrimIsTrimmed(IsSpace, run);
    case _ =>
  }

  lemma {:induction false} DecidingKeepsInv(w: World, l: Locked)
    requires Inv(w)
    requires forall p :: Hit(l.next, p) ==> Hit(w.ctl, p) || Kill(p) in l.effects
    requires forall f :: CallbackHit(l.next, f) ==> CallbackHit(w.ctl, f) || Call(f) in l.effects
    ensures Inv(w.(ctl := l.next, pending := w.pending + l.effects, owed := w.owed + l.effects))
  {
    var w' := w.(ctl := l.next, pending := w.pending + l.effects, owed := w.owed + l.effects);
    assert w'.owed == w'.pending + w'.done;
    forall p | Hit(l.next, p) ensures Kill(p) in w'.owed {}
    forall f | CallbackHit(l.next, f) ensures Call(f) in w'.owed {}
  }

  lemma {:induction false} CarryMatchesOutcomes(w: World, e: Effect, outcome: Outcome)
    requires OutcomesMatch(w)
    ensures OutcomesMatch(Carry(w, e, outcome))
  {
    var w' := Carry(w, e, outcome);
    assert forall x :: x in w'.done <==> x == e || x in w.done;
  }

  lemma {:induction false} CarryMovesOne(w: World, e: Effect, outcome: Outcome)
    requires e in w.pending
    ensures var w' := Carry(w, e, outcome);
            w'.pending + w'.done == w.pending + w.done && w'.ctl == w.ctl && w'.owed == w.owed
  {
    assert w.pending == (w.pending - multiset{e}) + multiset{e};
  }

  lemma {:induction false} CarryKeepsInv(w: World, e: Effect, outcome: Outcome)
    requires Inv(w) && e in w.pending
    ensures Inv(Carry(w, e, outcome))
  {
    CarryMatchesOutcomes(w, e, outcome);
    CarryMovesOne(w, e, outcome);
  }

  lemma {:induction false} NextKeepsInv(w: World, step: Step)
    requires Inv(w)
    ensures Inv(Next(w, step))
  {
    if step.Perform? {
      if step.e in w.pending {
        CarryKeepsInv(w, step.e, step.outcome);
      }
    } else if !step.Exit? {
      LockedBlockAnswersHits(w.ctl, step);
      DecidingKeepsInv(w, LockedBlock(w.ctl, step));
    }
  }

  lemma {:induction false} RunKeepsInv(steps: seq<Step>)
    ensures Inv(Run(steps))
  {
    if steps != [] {
      RunKeepsInv(steps[..|steps| - 1]);
      NextKeepsInv(Run(steps[..|steps| - 1]), steps[|steps| - 1]);
    }
  }

  /** No interleaving loses a kill: whenever the stored interrupt applies to the active process's run, that process
      has stopped, the system has refused to kill it, or a kill of it is still to be carried out; likewise a
      supervisor's interrupt function has been called or is still to be called. */
  lemma {:induction false} NoKillIsLost(steps: seq<Step>)
    ensures forall p :: Hit(Run(steps).ctl, p) ==> Answered(Run(steps), p) || Kill(p) in Run(steps).pending
    ensures forall f :: CallbackHit(Run(steps).ctl, f) ==> f in Run(steps).called || Call(f) in Run(steps).pending
    ensures Run(steps).owed == Run(steps).pending + Run(steps).done
  {
    RunKeepsInv(steps);
  }

  /** Step `k` makes the process stop: it exits, or a pending kill of it goes through. */
  predicate Stops(steps: seq<Step>, k: nat, p: Process)
    requires k < |steps|
  {
    || steps[k] == Exit(p)
    || (steps[k] == Perform(Kill(p), Delivered) && Kill(p) in Run(steps[..k]).pending)
  }

  lemma {:induction false} NextStops(w: World, step: Step, p: Process)
    ensures Stopped(Next(w, step), p) <==>
            Stopped(w, p) || step == Exit(p) || (step == Perform(Kill(p), Delivered) && Kill(p) in w.pending)
  {
  }

  lemma {:induction false} StaysStopped(steps: seq<Step>, p: Process, k: nat, n: nat)
    requires k <= n <= |steps| && Stopped(Run(steps[..k]), p)
    ensures Stopped(Run(steps[..n]), p)
    decreases n
  {
    if k < n {
      StaysStopped(steps, p, k, n - 1);
      RunOneMore(steps, n);
      NextStops(Run(steps[..n - 1]), steps[n - 1], p);
    }
  }

  /** A process has stopped exactly if it exited or some kill of it went through. */
  lemma {:induction false} StoppedExactly(steps: seq<Step>, p: Process)
    ensures Stopped(Run(steps), p) <==> exists k :: 0 <= k < |steps| && Stops(steps, k, p)
  {
    assert steps[..|steps|] == steps;
    if k :| 0 <= k < |steps| && Stops(steps, k, p) {
      RunOneMore(steps, k + 1);
      NextStops(Run(steps[..k]), steps[k], p);
      StaysStopped(steps, p, k + 1, |steps|);
    }
    if Stopped(Run(steps), p) {
      var k := BecomesTrue((i: nat) => i <= |steps| && Stopped(Run(steps[..i]), p), |steps|);
      RunOneMore(steps, k);
      NextStops(Run(steps[..k - 1]), steps[k - 1], p);
      assert Stops(steps, k - 1, p);
    }
  }

  /** Once nothing is pending, a process that the stored interrupt applies to still runs only if the system refused to
      kill it: it never exited, and no kill of it went through. */
  lemma {:induction false} QuiescentMeansAnswered(steps: seq<Step>, p: Process)
    requires Run(steps).pending == multiset{}
    requires Hit(Run(steps).ctl, p)
    ensures Stopped(Run(steps), p) || p in Run(steps).refused
    ensures Stopped(Run(steps), p) <==> exists k :: 0 <= k < |steps| && Stops(steps, k, p)
  {
    NoKillIsLost(steps);
    StoppedExactly(steps, p);
  }

  predicate EffectHit(c: Controller, e: Effect) {
    match e
    case Kill(p) => Hit(c, p)
    case Call(f) => CallbackHit(c, f)
  }

  lemma {:induction false} NewEffectIsHit(w: World, step: Step, e: Effect)
    requires e in Next(w, step).owed && e !in w.owed
    ensures EffectHit(Next(w, step).ctl, e)
  {
    LockedBlockOnlyAtHits(w.ctl, step);
  }

  /** What is false at 0 and true at `n` becomes true somewhere in between. */
  lemma {:induction false} BecomesTrue(q: nat -> bool, n: nat) returns (k: nat)
    requires !q(0) && q(n)
    ensures 0 < k <= n && !q(k - 1) && q(k)
  {
    if q(n - 1) {
      k := BecomesTrue(q, n - 1);
    } else {
      k := n;
    }
  }

  lemma {:induction false} RunOneMore(steps: seq<Step>, k: nat)
    requires 0 < k <= |steps|
    ensures Run(steps[..k]) == Next(Run(steps[..k - 1]), steps[k - 1])
  {
    assert steps[..k][..k - 1] == steps[..k - 1];
  }

  /** No process is killed, and no interrupt function called, without cause: at some earlier moment it was the active
      one and the interrupt then stored applied to the run it was registered under. */
  lemma {:induction false} EveryEffectIsJustified(steps: seq<Step>, e: Effect) returns (k: nat)
    requires e in Run(steps).owed
    ensures k <= |steps| && EffectHit(Run(steps[..k]).ctl, e)
  {
    assert steps[..|steps|] == steps;
    k := BecomesTrue((i: nat) => i <= |steps| && e in Run(steps[..i]).owed, |steps|);
    RunOneMore(steps, k);
    NewEffectIsHit(Run(steps[..k - 1]), steps[k - 1], e);
  }

  lemma {:induction false} KilledIsJustified(steps: seq<Step>, p: Process)
    requires p in Run(steps).killed
    ensures exists k :: 0 <= k <= |steps| && Hit(Run(steps[..k]).ctl, p)
  {
    RunKeepsInv(steps);
    assert Kill(p) in Run(steps).done;
    var k := EveryEffectIsJustified(steps, Kill(p));
    assert Hit(Run(steps[..k]).ctl, p);
  }

  // ---- what readings see ----

  /** `interrupt_snapshot(run_id)` is non-empty. */
  predicate Reports(c: Controller, runId: string) {
    AppliesToRun(c.snapshot, runId)
  }

  /** A step that can replace or remove a machine-wide interrupt. */
  predicate CanLift(step: Step) {
    step.Request? || step.ClearMachine?
  }

  lemma {:induction false} NextKeepsMachineInterrupt(w: World, step: Step)
    requires w.ctl.snapshot.Some? && IsMachine(w.ctl.snapshot.value) && !CanLift(step)
    ensures Next(w, step).ctl.snapshot == w.ctl.snapshot
  {
  }

  /** A machine-wide interrupt is reported to every run until another request or a machine clear: finishing a run,
      registering and clearing processes, kills and exits leave it in place. */
  lemma {:induction false} MachineInterruptPersists(steps: seq<Step>, k: nat, n: nat, runId: string)
    requires k <= n <= |steps|
    requires Run(steps[..k]).ctl.snapshot.Some? && IsMachine(Run(steps[..k]).ctl.snapshot.value)
    requires forall i :: k <= i < n ==> !CanLift(steps[i])
    ensures Run(steps[..n]).ctl.snapshot == Run(steps[..k]).ctl.snapshot
    ensures Reports(Run(steps[..n]).ctl, runId)
    decreases n
  {
    if k < n {
      MachineInterruptPersists(steps, k, n - 1, runId);
      RunOneMore(steps, n);
      NextKeepsMachineInterrupt(Run(steps[..n - 1]), steps[n - 1]);
    }
  }

  /** A later request replaces a machine-wide interrupt without comparing scopes: a run still sees an interrupt
      exactly when the later request is machine-wide itself or names that run. */
  lemma {:induction false} LaterRequestReplaces(steps: seq<Step>, s: Snapshot, runId: string)
    ensures Reports(Run(steps + [Request(s)]).ctl, runId) <==>
            IsMachine(s) || (Strip(runId) != "" && Strip(s.runId) == Strip(runId))
  {
    assert (steps + [Request(s)])[..|steps|] == steps;
  }

  const HARD_KILL := Snapshot("machine", "hard_kill", "", "", "m1", "", None)
  const RUN_INTERRUPT := Snapshot("run", "run_interrupt", "", "r1", "m1", "", None)

  lemma {:induction false} ScopesAreRead()
    ensures IsMachine(HARD_KILL) && !IsMachine(RUN_INTERRUPT)
  {
    TrimIsTrimmed(IsSpace, "machine");
    TrimIsTrimmed(IsSpace, "run");
    assert Token("machine", "run") == Lower("machine");
    assert Lower("machine") == "machine";
    assert Token("run", "run") == Lower("run") && |Lower("run")| == 3;
  }

  /** A machine-wide interrupt that is lost: after a request for run r1 alone, run r2 is not interrupted any more. */
  lemma {:induction false} HardKillIsLost()
    ensures Reports(Run([] + [Request(HARD_KILL)]).ctl, "r2")
    ensures !Reports(Run([] + [Request(HARD_KILL)] + [Request(RUN_INTERRUPT)]).ctl, "r2")
  {
    ScopesAreRead();
    TrimIsTrimmed(IsSpace, "r1");
    TrimIsTrimmed(IsSpace, "r2");
    assert Strip("r1")[1] != Strip("r2")[1];
    LaterRequestReplaces([], HARD_KILL, "r2");
    LaterRequestReplaces([] + [Request(HARD_KILL)], RUN_INTERRUPT, "r2");
  }

  // ---- the shared object ----

  /** The controller object. Each method body is one locked block; the effects it returns are for the caller to carry
      out after the lock is released. */
  class RuntimeInterruptController {
    var snapshot: Option<Snapshot>
    var activeProcess: Option<Process>
    var activeProcessRunId: string
    var activeCallback: Option<Callback>
    var activeCallbackRunId: string
    var activeCallbackRequestId: string

    ghost function View(): Controller
      reads this
    {
      Controller(snapshot, activeProcess, activeProcessRunId,
                 activeCallback, activeCallbackRunId, activeCallbackRequestId)
    }

    constructor ()
      ensures View() == IDLE
    {
      snapshot, activeProcess, activeProcessRunId := None, None, "";
      activeCallback, activeCallbackRunId, activeCallbackRequestId := None, "", "";
    }

    method RequestInterrupt(scope: string, eventType: string, reason: string, runId: string,
                            machineId: string, requestedAt: string, sequence: Option<int>)
      returns (s: Snapshot, victim: Option<Process>, interruptFn: Option<Callback>)
      modifies this
      ensures s == MakeSnapshot(scope, eventType, reason, runId, machineId, requestedAt, sequence)
      ensures Locked(View(), KillOf(victim) + CallOf(interruptFn)) == RequestLocked(old(View()), s)
    {
      s := MakeSnapshot(scope, eventType, reason, runId, machineId, requestedAt, sequence);
      victim, interruptFn := None, None;
      snapshot := Some(s);
      if AppliesToRun(snapshot, activeProcessRunId) {
        victim := activeProcess;
      }
      if AppliesToRun(snapshot, activeCallbackRunId) {
        interruptFn := activeCallback;
      }
    }

    method InterruptSnapshot(runId: string) returns (s: Option<Snapshot>)
      ensures s == if Reports(View(), runId) then snapshot else None
      ensures s.Some? <==> Reports(View(), runId)
    {
      s := if AppliesToRun(snapshot, runId) then snapshot else None;
    }

    method RegisterProcess(runId: string, p: Process) returns (victim: Option<Process>)
      modifies this
      ensures Locked(View(), KillOf(victim)) == RegisterProcessLocked(old(View()), runId, p)
    {
      victim := None;
      activeProcess, activeProcessRunId := Some(p), Strip(runId);
      if AppliesToRun(snapshot, activeProcessRunId) {
        victim := Some(p);
      }
    }

    method ClearProcess(p: Process)
      modifies this
      ensures View() == ClearProcessLocked(old(View()), p).next
    {
      if activeProcess == Some(p) {
        activeProcess, activeProcessRunId := None, "";
      }
    }

    method RegisterSupervisorExecution(runId: string, requestId: string, f: Callback)
      returns (interruptFn: Option<Callback>)
      modifies this
      ensures Locked(View(), CallOf(interruptFn)) == RegisterSupervisorLocked(old(View()), runId, requestId, f)
    {
      interruptFn := None;
      activeCallbackRunId, activeCallbackRequestId, activeCallback := Strip(runId), Strip(requestId), Some(f);
      if AppliesToRun(snapshot, activeCallbackRunId) {
        interruptFn := Some(f);
      }
    }

    method ClearSupervisorExecution(requestId: string)
      modifies this
      ensures View() == ClearSupervisorLocked(old(View()), requestId).next
    {
      var target, active := Strip(requestId), Strip(activeCallbackRequestId);
      if target != "" && active != "" && target != active {
        return;
      }
      activeCallback, activeCallbackRunId, activeCallbackRequestId := None, "", "";
    }

    method ClearRunInterrupt(runId: string)
      modifies this
      ensures View() == ClearRunLocked(old(View()), runId).next
    {
      var target := Strip(runId);
      if target != "" && AppliesToRun(snapshot, target) && Token(snapshot.value.scope, "run") == "run" {
        snapshot := None;
      }
    }

    method ClearMachineInterrupt(machineId: string)
      modifies this
      ensures View() == ClearMachineLocked(old(View()), machineId).next
    {
      if snapshot.None? || Lower(Strip(snapshot.value.scope)) != "machine" {
        return;
      }
      var target, stored := Strip(machineId), Strip(snapshot.value.machineId);
      if target != "" && stored != "" && stored != target {
        return;
      }
      snapshot := None;
    }
  }

  /** The kind of an event: the decoded event names it, or else the stream does. */
  function EventKind(dataEvent: string, streamEvent: string): (kind: string) {
    Token(if dataEvent == "" then streamEvent else dataEvent, "message")
  }

  /** What the control listener does with one event of the stream. */
  method HandleControlEvent(controller: RuntimeInterruptController, workerId: string,
                            dataEvent: string, streamEvent: string, reason: string, runId: string,
                            machineId: string, requestedAt: string, sequence: Option<int>)
    returns (effects: multiset<Effect>)
    modifies controller
    ensures
      var kind := EventKind(dataEvent, streamEvent);
      var c := old(controller.View());
      match ControlStep(kind, workerId, reason, runId, machineId, requestedAt, sequence)
      case None => controller.View() == c && effects == multiset{}
      case Some(step) => Locked(controller.View(), effects) == LockedBlock(c, step)
  {
    var kind := EventKind(dataEvent, streamEvent);
    effects := multiset{};
    if kind == "machine_resume" {
      controller.ClearMachineInterrupt(OrElse(machineId, workerId));
    } else if kind == "hard_kill" || kind == "run_interrupt" {
      var s, victim, interruptFn := controller.RequestInterrupt(
        if kind == "hard_kill" then "machine" else "run", kind, Strip(reason), Strip(runId),
        OrElse(machineId, workerId), Strip(requestedAt), sequence);
      effects := KillOf(victim) + CallOf(interruptFn);
    }
  }

  /** `str(value or fallback).strip() or fallback` */
  function OrElse(value: string, fallback: string): (r: string) {
    var t := Strip(if value == "" then fallback else value);
    if t == "" then fallback else t
  }

  /** The controller step that an event of the given kind stands for, if any. */
  function ControlStep(kind: string, workerId: string, reason: string, runId: string,
                       machineId: string, requestedAt: string, sequence: Option<int>): (r: Option<Step>)
    ensures r.Some? ==> !r.value.Perform? && !r.value.Exit?
  {
    if kind == "machine_resume" then Some(ClearMachine(OrElse(machineId, workerId)))
    else if kind == "hard_kill" || kind == "run_interrupt" then
      Some(Request(MakeSnapshot(if kind == "hard_kill" then "machine" else "run", kind, Strip(reason), Strip(runId),
                                OrElse(machineId, workerId), Strip(requestedAt), sequence)))
    else None
  }
}
