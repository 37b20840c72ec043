/** The interrupt controller (scripts/orion_local_worker_runtime.py) told by the steps alone: which registration is in
    force, which request stands, and which kills and calls have been decided, without looking at the fields in which
    the controller keeps them. */
module InterruptHistory {
  import opened Interrupts
  import opened Text

  /** The request is for the run, or for all runs. */
  predicate Concerns(s: Snapshot, runId: string) {
    IsMachine(s) || (Strip(runId) != "" && Strip(s.runId) == Strip(runId))
  }

  /** Step `k` registers `p` for the run, and until step `n` nothing registers another process or clears `p`. */
  predicate Registered(steps: seq<Step>, k: nat, n: nat, runId: string, p: Process)
    requires n <= |steps|
  {
    && k < n && steps[k] == RegisterProcess(runId, p)
    && forall i :: k < i < n ==> !steps[i].RegisterProcess? && steps[i] != ClearProcess(p)
  }

  /** Clearing by request id spares a supervisor only if both ids are given and differ. */
  predicate Releases(step: Step, requestId: string) {
    && step.ClearSupervisor?
    && (Strip(step.requestId) == "" || Strip(requestId) == "" || Strip(step.requestId) == Strip(requestId))
  }

  /** Step `k` registers the supervisor's function `f`, and until step `n` nothing replaces or clears it. */
  predicate Supervised(steps: seq<Step>, k: nat, n: nat, runId: string, requestId: string, f: Callback)
    requires n <= |steps|
  {
    && k < n && steps[k] == RegisterSupervisor(runId, requestId, f)
    && forall i :: k < i < n ==> !steps[i].RegisterSupervisor? && !Releases(steps[i], requestId)
  }

  /** Another request, a clear for the run of a run-scoped request, or a clear for the machine of a machine-wide one. */
  predicate Lifts(step: Step, s: Snapshot) {
    match step
    case Request(_) => true
    case ClearRun(run) =>
      Token(s.scope, "run") == "run" && Strip(run) != "" && Strip(s.runId) == Strip(run)
    case ClearMachine(m) =>
      && Lower(Strip(s.scope)) == "machine"
      && (Strip(m) == "" || Strip(s.machineId) == "" || Strip(s.machineId) == Strip(m))
    case _ => false
  }

  /** Step `k` makes the request, and until step `n` nothing lifts it. */
  predicate Standing(steps: seq<Step>, k: nat, n: nat, s: Snapshot)
    requires n <= |steps|
  {
    k < n && steps[k] == Request(s) && forall i :: k < i < n ==> !Lifts(steps[i], s)
  }

  // ---- one step ----

  predicate ProcessMoves(c: Controller, c': Controller, step: Step) {
    if step.RegisterProcess? then c'.process == Some(step.p) && c'.processRun == Strip(step.runId)
    else if step.ClearProcess? && c.process == Some(step.p) then c'.process == None
    else c'.process == c.process && c'.processRun == c.processRun
  }

  predicate CallbackMoves(c: Controller, c': Controller, step: Step) {
    if step.RegisterSupervisor? then
      && c'.callback == Some(step.f) && c'.callbackRun == Strip(step.runId)
      && c'.callbackRequest == Strip(step.requestId)
    else if Releases(step, c.callbackRequest) then c'.callback == None
    else c'.callback == c.callback && c'.callbackRun == c.callbackRun && c'.callbackRequest == c.callbackRequest
  }

  predicate RequestMoves(c: Controller, c': Controller, step: Step) {
    if step.Request? then c'.snapshot == Some(step.s)
    else if c.snapshot.Some? && Lifts(step, c.snapshot.value) then c'.snapshot == None
    else c'.snapshot == c.snapshot
  }

  /** A request that meets the active process or function, or a registration that meets the stored request. */
  predicate Decides(c: Controller, step: Step, e: Effect) {
    match e
    case Kill(p) =>
      || (step.Request? && c.process == Some(p) && Concerns(step.s, c.processRun))
      || (step.RegisterProcess? && step.p == p && c.snapshot.Some? && Concerns(c.snapshot.value, step.runId))
    case Call(f) =>
      || (step.Request? && c.callback == Some(f) && Concerns(step.s, c.callbackRun))
      || (step.RegisterSupervisor? && step.f == f && c.snapshot.Some? && Concerns(c.snapshot.value, step.runId))
  }

  lemma {:induction false} StripTwice(s: string)
    ensures Strip(Strip(s)) == Strip(s)
  {
    TrimIsTrimmed(IsSpace, s);
    TrimIsTrimmed(IsSpace, Strip(s));
  }

  lemma {:induction false} NextRegistrations(w: World, step: Step)
    ensures ProcessMoves(w.ctl, Next(w, step).ctl, step) && CallbackMoves(w.ctl, Next(w, step).ctl, step)
  {
  }

  lemma {:induction false} NextRequest(w: World, step: Step)
    ensures RequestMoves(w.ctl, Next(w, step).ctl, step)
  {
    if step.ClearRun? && w.ctl.snapshot.Some? {
      StripTwice(step.runId);
      assert Token(w.ctl.snapshot.value.scope, "run") == "run" ==> |Token(w.ctl.snapshot.value.scope, "run")| == 3;
    }
  }

  lemma {:induction false} RequestDecides(c: Controller, s: Snapshot, e: Effect)
    ensures e in RequestLocked(c, s).effects <==> Decides(c, Request(s), e)
  {
  }

  lemma {:induction false} BlockDecides(c: Controller, step: Step, e: Effect)
    requires !step.Perform? && !step.Exit?
    ensures e in LockedBlock(c, step).effects <==> Decides(c, step, e)
  {
    if step.Request? {
      RequestDecides(c, step.s, e);
    } else if step.RegisterProcess? || step.RegisterSupervisor? {
      StripTwice(step.runId);
    }
  }

  lemma {:induction false} NextOwed(w: World, step: Step, e: Effect)
    ensures e in Next(w, step).owed <==> e in w.owed || Decides(w.ctl, step, e)
  {
    if !step.Perform? && !step.Exit? {
      BlockDecides(w.ctl, step, e);
    }
  }

  // ---- a run, moment by moment ----

  /** The controller and the effects decided on, before the first step and after each. */
  datatype Trace = Trace(ctl: seq<Controller>, owed: seq<multiset<Effect>>)

  ghost predicate Moves(t: Trace, steps: seq<Step>, n: nat)
    requires |t.ctl| == |t.owed| == |steps| + 1 && n < |steps|
  {
    && ProcessMoves(t.ctl[n], t.ctl[n + 1], steps[n])
    && CallbackMoves(t.ctl[n], t.ctl[n + 1], steps[n])
    && RequestMoves(t.ctl[n], t.ctl[n + 1], steps[n])
    && forall e :: e in t.owed[n + 1] <==> e in t.owed[n] || Decides(t.ctl[n], steps[n], e)
  }

  ghost predicate Follows(t: Trace, steps: seq<Step>) {
    && |t.ctl| == |t.owed| == |steps| + 1
    && t.ctl[0] == IDLE && t.owed[0] == multiset{}
    && forall n: nat :: n < |steps| ==> Moves(t, steps, n)
  }

  lemma {:induction false} RunMoves(steps: seq<Step>, t: Trace, n: nat)
    requires |t.ctl| == |t.owed| == |steps| + 1 && n < |steps|
    requires t.ctl[n] == Run(steps[..n]).ctl && t.owed[n] == Run(steps[..n]).owed
    requires t.ctl[n + 1] == Run(steps[..n + 1]).ctl && t.owed[n + 1] == Run(steps[..n + 1]).owed
    ensures Moves(t, steps, n)
  {
    RunOneMore(steps, n + 1);
    var w := Run(steps[..n]);
    NextRegistrations(w, steps[n]);
    NextRequest(w, steps[n]);
    forall e ensures e in t.owed[n + 1] <==> e in t.owed[n] || Decides(t.ctl[n], steps[n], e) {
      NextOwed(w, steps[n], e);
    }
  }

  lemma {:induction false} TraceOf(steps: seq<Step>) returns (t: Trace)
    ensures Follows(t, steps)
    ensures t.ctl[|steps|] == Run(steps).ctl && t.owed[|steps|] == Run(steps).owed
  {
    t := Trace(seq(|steps| + 1, i requires 0 <= i <= |steps| => Run(steps[..i]).ctl),
               seq(|steps| + 1, i requires 0 <= i <= |steps| => Run(steps[..i]).owed));
    forall n: nat | n < |steps| ensures Moves(t, steps, n) {
      RunMoves(steps, t, n);
    }
    assert steps[..|steps|] == steps && steps[..0] == [];
  }

  // ---- the registered process ----

  lemma {:induction false} RegisteredIsActive(t: Trace, steps: seq<Step>, k: nat, n: nat, runId: string, p: Process)
    requires Follows(t, steps) && n <= |steps| && Registered(steps, k, n, runId, p)
    ensures t.ctl[n].process == Some(p) && t.ctl[n].processRun == Strip(runId)
    decreases n
  {
    assert Moves(t, steps, n - 1);
    if k < n - 1 {
      RegisteredIsActive(t, steps, k, n - 1, runId, p);
    }
  }

  lemma {:induction false} ActiveIsRegistered(t: Trace, steps: seq<Step>, n: nat) returns (k: nat, runId: string)
    requires Follows(t, steps) && n <= |steps| && t.ctl[n].process.Some?
    ensures Registered(steps, k, n, runId, t.ctl[n].process.value)
    decreases n
  {
    assert Moves(t, steps, n - 1);
    if steps[n - 1].RegisterProcess? {
      k, runId := n - 1, steps[n - 1].runId;
    } else {
      k, runId := ActiveIsRegistered(t, steps, n - 1);
    }
  }

  // ---- the registered supervisor ----

  lemma {:induction false} SupervisedIsActive(t: Trace, steps: seq<Step>, k: nat, n: nat, runId: string,
                                              requestId: string, f: Callback)
    requires Follows(t, steps) && n <= |steps| && Supervised(steps, k, n, runId, requestId, f)
    ensures t.ctl[n].callback == Some(f) && t.ctl[n].callbackRun == Strip(runId)
    ensures t.ctl[n].callbackRequest == Strip(requestId)
    decreases n
  {
    assert Moves(t, steps, n - 1);
    if k < n - 1 {
      SupervisedIsActive(t, steps, k, n - 1, runId, requestId, f);
      StripTwice(requestId);
    }
  }

  lemma {:induction false} ActiveIsSupervised(t: Trace, steps: seq<Step>, n: nat)
    returns (k: nat, runId: string, requestId: string)
    requires Follows(t, steps) && n <= |steps| && t.ctl[n].callback.Some?
    ensures Supervised(steps, k, n, runId, requestId, t.ctl[n].callback.value)
    decreases n
  {
    assert Moves(t, steps, n - 1);
    if steps[n - 1].RegisterSupervisor? {
      k, runId, requestId := n - 1, steps[n - 1].runId, steps[n - 1].requestId;
    } else {
      k, runId, requestId := ActiveIsSupervised(t, steps, n - 1);
      SupervisedIsActive(t, steps, k, n - 1, runId, requestId, t.ctl[n - 1].callback.value);
      StripTwice(requestId);
    }
  }

  // ---- the standing request ----

  lemma {:induction false} StandingIsStored(t: Trace, steps: seq<Step>, k: nat, n: nat, s: Snapshot)
    requires Follows(t, steps) && n <= |steps| && Standing(steps, k, n, s)
    ensures t.ctl[n].snapshot == Some(s)
    decreases n
  {
    assert Moves(t, steps, n - 1);
    if k < n - 1 {
      StandingIsStored(t, steps, k, n - 1, s);
    }
  }

  lemma {:induction false} StoredIsStanding(t: Trace, steps: seq<Step>, n: nat) returns (k: nat)
    requires Follows(t, steps) && n <= |steps| && t.ctl[n].snapshot.Some?
    ensures Standing(steps, k, n, t.ctl[n].snapshot.value)
    decreases n
  {
    assert Moves(t, steps, n - 1);
    if steps[n - 1].Request? {
      k := n - 1;
    } else {
      k := StoredIsStanding(t, steps, n - 1);
    }
  }

  /** A reading reports an interrupt to a run if and only if a request stands that concerns the run. */
  lemma {:induction false} ReportsExactly(steps: seq<Step>, runId: string)
    ensures Reports(Run(steps).ctl, runId) <==>
            exists k: nat, s :: Standing(steps, k, |steps|, s) && Concerns(s, runId)
  {
    var t := TraceOf(steps);
    if Reports(Run(steps).ctl, runId) {
      var k := StoredIsStanding(t, steps, |steps|);
    }
    if k: nat, s :| Standing(steps, k, |steps|, s) && Concerns(s, runId) {
      StandingIsStored(t, steps, k, |steps|, s);
    }
  }

  // ---- what is owed ----

  /** The step that first decides on an effect. */
  lemma {:induction false} FirstOwed(t: Trace, steps: seq<Step>, n: nat, e: Effect) returns (k: nat)
    requires Follows(t, steps) && n <= |steps| && e in t.owed[n]
    ensures k < n && Decides(t.ctl[k], steps[k], e)
    decreases n
  {
    assert Moves(t, steps, n - 1);
    if e in t.owed[n - 1] {
      k := FirstOwed(t, steps, n - 1, e);
    } else {
      k := n - 1;
    }
  }

  lemma {:induction false} DecidedIsOwed(t: Trace, steps: seq<Step>, k: nat, n: nat, e: Effect)
    requires Follows(t, steps) && k < n <= |steps| && Decides(t.ctl[k], steps[k], e)
    ensures e in t.owed[n]
    decreases n
  {
    assert Moves(t, steps, n - 1);
    if k < n - 1 {
      DecidedIsOwed(t, steps, k, n - 1, e);
    }
  }

  // ---- kills ----

  /** At step `n` a registration of `p` and a request that concerns its run come together, in either order. */
  predicate MeetAt(steps: seq<Step>, k: nat, n: nat, runId: string, s: Snapshot, p: Process)
    requires n < |steps|
  {
    && Concerns(s, runId)
    && (|| (steps[n] == Request(s) && Registered(steps, k, n, runId, p))
        || (steps[n] == RegisterProcess(runId, p) && Standing(steps, k, n, s)))
  }

  lemma {:induction false} MeetingDecides(t: Trace, steps: seq<Step>, k: nat, n: nat, runId: string, s: Snapshot,
                                          p: Process)
    requires Follows(t, steps) && n < |steps| && MeetAt(steps, k, n, runId, s, p)
    ensures Decides(t.ctl[n], steps[n], Kill(p))
  {
    StripTwice(runId);
    if steps[n].Request? {
      RegisteredIsActive(t, steps, k, n, runId, p);
    } else {
      StandingIsStored(t, steps, k, n, s);
    }
  }

  lemma {:induction false} DecisionIsMeeting(t: Trace, steps: seq<Step>, n: nat, p: Process)
    returns (k: nat, runId: string, s: Snapshot)
    requires Follows(t, steps) && n < |steps| && Decides(t.ctl[n], steps[n], Kill(p))
    ensures MeetAt(steps, k, n, runId, s, p)
  {
    if steps[n].Request? {
      k, runId := ActiveIsRegistered(t, steps, n);
      RegisteredIsActive(t, steps, k, n, runId, p);
      s := steps[n].s;
    } else {
      runId := steps[n].runId;
      k := StoredIsStanding(t, steps, n);
      s := t.ctl[n].snapshot.value;
    }
    StripTwice(runId);
  }

  ghost predicate Met(steps: seq<Step>, p: Process) {
    exists k: nat, n: nat, runId, s :: n < |steps| && MeetAt(steps, k, n, runId, s, p)
  }

  /** A kill of `p` has been decided on if and only if a registration of `p` for some run and a request that concerns
      this run have come together: the request came while `p` was registered, or `p` was registered while the request
      stood. */
  lemma {:induction false} KillOwedExactly(steps: seq<Step>, p: Process)
    ensures Kill(p) in Run(steps).owed <==> Met(steps, p)
  {
    var t := TraceOf(steps);
    if Kill(p) in t.owed[|steps|] {
      var n := FirstOwed(t, steps, |steps|, Kill(p));
      var k, runId, s := DecisionIsMeeting(t, steps, n, p);
    }
    if k: nat, n: nat, runId, s :| n < |steps| && MeetAt(steps, k, n, runId, s, p) {
      MeetingDecides(t, steps, k, n, runId, s, p);
      DecidedIsOwed(t, steps, n, |steps|, Kill(p));
    }
  }

  /** What it means for processes: one whose registration has met a request has stopped, could not be killed, or has a
      kill pending; and no other process is ever killed. */
  lemma {:induction false} KilledExactlyForRequests(steps: seq<Step>, p: Process)
    ensures Met(steps, p) ==> Answered(Run(steps), p) || Kill(p) in Run(steps).pending
    ensures p in Run(steps).killed || Kill(p) in Run(steps).pending ==> Met(steps, p)
  {
    KillOwedExactly(steps, p);
    RunKeepsInv(steps);
  }

  // ---- calls ----

  predicate CallMeetAt(steps: seq<Step>, k: nat, n: nat, runId: string, requestId: string, s: Snapshot, f: Callback)
    requires n < |steps|
  {
    && Concerns(s, runId)
    && (|| (steps[n] == Request(s) && Supervised(steps, k, n, runId, requestId, f))
        || (steps[n] == RegisterSupervisor(runId, requestId, f) && Standing(steps, k, n, s)))
  }

  lemma {:induction false} CallMeetingDecides(t: Trace, steps: seq<Step>, k: nat, n: nat, runId: string,
                                              requestId: string, s: Snapshot, f: Callback)
    requires Follows(t, steps) && n < |steps| && CallMeetAt(steps, k, n, runId, requestId, s, f)
    ensures Decides(t.ctl[n], steps[n], Call(f))
  {
    StripTwice(runId);
    if steps[n].Request? {
      SupervisedIsActive(t, steps, k, n, runId, requestId, f);
    } else {
      StandingIsStored(t, steps, k, n, s);
    }
  }

  lemma {:induction false} CallDecisionIsMeeting(t: Trace, steps: seq<Step>, n: nat, f: Callback)
    returns (k: nat, runId: string, requestId: string, s: Snapshot)
    requires Follows(t, steps) && n < |steps| && Decides(t.ctl[n], steps[n], Call(f))
    ensures CallMeetAt(steps, k, n, runId, requestId, s, f)
  {
    if steps[n].Request? {
      k, runId, requestId := ActiveIsSupervised(t, steps, n);
      SupervisedIsActive(t, steps, k, n, runId, requestId, f);
      s := steps[n].s;
    } else {
      runId, requestId := steps[n].runId, steps[n].requestId;
      k := StoredIsStanding(t, steps, n);
      s := t.ctl[n].snapshot.value;
    }
    StripTwice(runId);
  }

  ghost predicate CallMet(steps: seq<Step>, f: Callback) {
    exists k: nat, n: nat, runId, requestId, s :: n < |steps| && CallMeetAt(steps, k, n, runId, requestId, s, f)
  }

  /** The same for the interrupt functions of supervisors: one is called, or about to be, in no other case. */
  lemma {:induction false} CallOwedExactly(steps: seq<Step>, f: Callback)
    ensures CallMet(steps, f) <==> Call(f) in Run(steps).owed
    ensures CallMet(steps, f) <==> f in Run(steps).called || Call(f) in Run(steps).pending
  {
    var t := TraceOf(steps);
    if Call(f) in t.owed[|steps|] {
      var n := FirstOwed(t, steps, |steps|, Call(f));
      var k, runId, requestId, s := CallDecisionIsMeeting(t, steps, n, f);
    }
    if k: nat, n: nat, runId, requestId, s :| n < |steps| && CallMeetAt(steps, k, n, runId, requestId, s, f) {
      CallMeetingDecides(t, steps, k, n, runId, requestId, s, f);
      DecidedIsOwed(t, steps, n, |steps|, Call(f));
    }
    RunKeepsInv(steps);
  }

  // ---- control events ----

  /** The machine that an event names, or the worker's own. */
  lemma {:induction false} MachineOf(machineId: string, workerId: string)
    ensures Strip(OrElse(machineId, workerId)) == if Strip(machineId) != "" then Strip(machineId) else Strip(workerId)
  {
    StripTwice(machineId);
    StripTwice(workerId);
  }

  /** The decoded event names its kind, and the stream does if it does not; words are read as they are. */
  lemma {:induction false} KindsMean(word: string, streamEvent: string)
    requires word != "" && Trimmed(IsSpace, word) && forall i :: 0 <= i < |word| ==> LowerChar(word[i]) == word[i]
    ensures EventKind(word, streamEvent) == word && EventKind("", word) == word && EventKind("", "") == "message"
  {
    PlainWord(word);
    PlainWord("message");
  }

  /** What control events do: a hard kill concerns every run, a run interrupt exactly the run that it names, both for
      the machine that is named or else the worker's own; a machine resume lifts a hard kill exactly if both are for the
      same machine or one of them for none; other events do nothing. */
  lemma {:induction false} EventsMean(kind: string, workerId: string, reason: string, runId: string,
                                      machineId: string, requestedAt: string, sequence: Option<int>)
    ensures var step := ControlStep(kind, workerId, reason, runId, machineId, requestedAt, sequence);
            var machine := if Strip(machineId) != "" then Strip(machineId) else Strip(workerId);
            && (step.None? <==> kind != "hard_kill" && kind != "run_interrupt" && kind != "machine_resume")
            && (kind == "hard_kill" || kind == "run_interrupt" ==>
                  && step.value.Request? && step.value.s.machineId == machine && step.value.s.sequence == sequence
                  && step.value.s.reason == Strip(reason) && step.value.s.requestedAt == Strip(requestedAt)
                  && step.value.s.eventType == kind)
            && (kind == "hard_kill" ==> forall r :: Concerns(step.value.s, r))
            && (kind == "run_interrupt" ==>
                  forall r :: Concerns(step.value.s, r) <==> Strip(r) != "" && Strip(r) == Strip(runId))
            && (kind == "machine_resume" ==>
                  forall s :: Lifts(step.value, s) <==>
                    && Lower(Strip(s.scope)) == "machine"
                    && (machine == "" || Strip(s.machineId) == "" || Strip(s.machineId) == machine))
  {
    MachineOf(machineId, workerId);
    if kind == "hard_kill" || kind == "run_interrupt" {
      EventSnapshot(kind, workerId, reason, runId, machineId, requestedAt, sequence);
    }
  }

  lemma {:induction false} EventSnapshot(kind: string, workerId: string, reason: string, runId: string,
                                         machineId: string, requestedAt: string, sequence: Option<int>)
    requires kind == "hard_kill" || kind == "run_interrupt"
    ensures var s := MakeSnapshot(if kind == "hard_kill" then "machine" else "run", kind, Strip(reason), Strip(runId),
                                  OrElse(machineId, workerId), Strip(requestedAt), sequence);
            && s.eventType == kind && s.reason == Strip(reason) && s.requestedAt == Strip(requestedAt)
            && s.sequence == sequence && s.machineId == Strip(OrElse(machineId, workerId))
            && (kind == "hard_kill" <==> IsMachine(s))
            && Strip(s.runId) == Strip(runId)
  {
    StripTwice(reason);
    StripTwice(runId);
    StripTwice(requestedAt);
    EventWords(kind);
  }

  lemma {:induction false} EventWords(kind: string)
    requires kind == "hard_kill" || kind == "run_interrupt"
    ensures Token(kind, "hard_kill") == kind
    ensures Token("machine", "run") == "machine" && Token("run", "run") == "run" != "machine"
  {
    PlainWord("machine");
    PlainWord("run");
    assert |"run"| != |"machine"|;
    if kind == "hard_kill" {
      PlainWord("hard_kill");
    } else {
      PlainWord("run_interrupt");
    }
  }

  /** Lower-case words are read as they are. */
  lemma {:induction false} PlainWord(s: string)
    requires s != "" && Trimmed(IsSpace, s) && forall i :: 0 <= i < |s| ==> LowerChar(s[i]) == s[i]
    ensures forall fallback :: Token(s, fallback) == s
  {
    TrimIsTrimmed(IsSpace, s);
    assert Lower(s) == s;
  }
}
