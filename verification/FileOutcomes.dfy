/** What operations on a locked file report (scripts/orion_local_worker_execution.py), and that they get done: an
    operation reports success exactly if the file admitted it when its turn came and no error hit it on the way, and an
    operation that finds the lock free can go through and does what it was asked for. */
module FileOutcomes {
  import opened FileLock
  import opened Text

  /** The change that an operation asks for. */
  function ChangeOf(op: Op): (c: Change) {
    match op
    case Write(content, overwrite) => Wrote(content, overwrite)
    case Append(content) => Appended(content, true)
    case Delete => Deleted
  }

  /** The file when the operation with ticket `t` got its turn: all changes of earlier tickets, applied in order. */
  ghost function FileAt(w: World, t: nat): (f: Option<string>) {
    Replay(w.initial, Before(w.history, t))
  }

  ghost predicate Admits(w: World, t: nat)
    requires t < |w.acquired|
  {
    Admissible(FileAt(w, t), ChangeOf(w.acquired[t]))
  }

  predicate AtWork(ph: Phase) {
    ph.Writing? || ph.Appending? || ph.Unlinking?
  }

  /** The tickets that errors have hit, after one more step: an input/output error hits the operation at work. */
  function Hit(w: World, step: Step, raised: set<nat>): (r: set<nat>) {
    if step.Raise? && AtWork(At(w, step.p)) then raised + {At(w, step.p).ticket} else raised
  }

  /** The tickets of the operations that an error has hit in a run. */
  ghost function Raised(initial: Option<string>, steps: seq<Step>): (ts: set<nat>) {
    if steps == [] then {}
    else
      var front := steps[..|steps| - 1];
      Hit(Run(initial, front), steps[|steps| - 1], Raised(initial, front))
  }

  // ---- the invariant ----

  /** What a process inside the lock knows about its operation. */
  ghost predicate Knows(w: World, raised: set<nat>, ph: Phase) {
    && PhaseOk(w, ph)
    && (ph.Checking? ==> ph.ticket !in raised)
    && (AtWork(ph) ==> Admits(w, ph.ticket) && ph.ticket !in raised)
    && (ph.Unwinding? && ph.acquired ==> (ph.ok <==> Admits(w, ph.ticket) && ph.ticket !in raised))
  }

  ghost predicate ReportOk(w: World, raised: set<nat>, t: nat)
    requires t in w.results
  {
    t < |w.acquired| && (w.results[t] <==> Admits(w, t) && t !in raised)
  }

  ghost predicate OutcomesOk(w: World, raised: set<nat>) {
    && (forall p :: p in w.procs ==> Knows(w, raised, w.procs[p]))
    && (forall t :: t in w.results ==> ReportOk(w, raised, t))
    && (forall t :: t in raised ==> t < |w.acquired|)
  }

  // ---- changes of later tickets ----

  lemma {:induction false} BeforeStays(history: seq<Commit>, c: Commit, t: nat)
    requires c.ticket >= t
    ensures Before(history + [c], t) == Before(history, t)
  {
    assert (history + [c])[..|history|] == history;
  }

  lemma {:induction false} BeforeIsAll(history: seq<Commit>, t: nat)
    requires forall i :: 0 <= i < |history| ==> history[i].ticket < t
    ensures Before(history, t) == history
  {
  }

  /** The worlds agree on what tickets found. */
  ghost predicate SameFinds(w: World, w': World) {
    && w.acquired <= w'.acquired
    && forall t: nat :: t < |w.acquired| ==> FileAt(w', t) == FileAt(w, t)
  }

  lemma {:induction false} CommitFindsSame(w: World, w': World)
    requires w'.initial == w.initial && w'.acquired == w.acquired && w.acquired != []
    requires AtMostOneMore(w.history, w'.history, |w.acquired| - 1)
    ensures SameFinds(w, w')
  {
    if w'.history != w.history {
      var c := w'.history[|w'.history| - 1];
      assert w'.history == w.history + [c];
      forall t: nat | t < |w.acquired| ensures Before(w'.history, t) == Before(w.history, t) {
        BeforeStays(w.history, c, t);
      }
    }
  }

  // ---- one step ----

  /** Process `p` goes to phase `ph'`, and nothing that others know changes. */
  lemma {:induction false} OneMoves(w: World, w': World, raised: set<nat>, raised': set<nat>, p: Pid, ph': Phase)
    requires Inv(w) && OutcomesOk(w, raised) && PhasesOk(w') && SameFinds(w, w')
    requires w'.procs == w.procs[p := ph'] && Knows(w', raised', ph')
    requires raised' == raised || (Critical(At(w, p)) && raised' == raised + {At(w, p).ticket})
    requires forall t :: t in w'.results ==>
               (t in w.results && w'.results[t] == w.results[t]) || ReportOk(w', raised', t)
    ensures OutcomesOk(w', raised')
  {
    forall q | q in w'.procs ensures Knows(w', raised', w'.procs[q]) {
      if q != p {
        assert At(w, q) == w'.procs[q];
        assert Critical(At(w, p)) && Critical(At(w, q)) ==> w.holder == Some(p) && w.holder == Some(q);
      }
    }
    forall t | t in w'.results ensures ReportOk(w', raised', t) {
      if t in w.results && w'.results[t] == w.results[t] {
        assert ReportOk(w, raised, t);
        assert Critical(At(w, p)) ==> w.holder == Some(p) && At(w, p).ticket !in w.results;
      }
    }
  }

  /** The step only moves its process, without any change to the file's history. */
  lemma {:induction false} OutsideStep(w: World, step: Step, raised: set<nat>)
    requires Inv(w) && OutcomesOk(w, raised) && (step.Begin? || step.TimeOut? || step.Close?)
    ensures OutcomesOk(Next(w, step), Hit(w, step, raised))
  {
    NextKeepsInv(w, step);
    var w' := Next(w, step);
    if w' != w {
      OneMoves(w, w', raised, raised, step.p, w'.procs[step.p]);
    }
  }

  lemma {:induction false} AcquireStep(w: World, p: Pid, raised: set<nat>)
    requires Inv(w) && OutcomesOk(w, raised)
    ensures OutcomesOk(Next(w, Acquire(p)), Hit(w, Acquire(p), raised))
  {
    NextKeepsInv(w, Acquire(p));
    var w' := Next(w, Acquire(p));
    if w' != w {
      OneMoves(w, w', raised, raised, p, w'.procs[p]);
    }
  }

  lemma {:induction false} CheckFinds(w: World, p: Pid)
    requires Inv(w) && At(w, p).Checking?
    ensures w.holder == Some(p) && FileAt(w, At(w, p).ticket) == w.file
  {
    assert Holding(At(w, p));
    assert HolderOk(w, At(w, p));
    BeforeIsAll(w.history, At(w, p).ticket);
  }

  lemma {:induction false} CheckMoves(w: World, p: Pid)
    requires PhasesOk(w) && At(w, p).Checking?
    ensures var w', t := Next(w, Check(p)), At(w, p).ticket;
            && w'.procs == w.procs[p := At(w', p)] && w'.results == w.results
            && w'.acquired == w.acquired && w'.history == w.history && w'.initial == w.initial
            && if Admissible(w.file, ChangeOf(w.acquired[t])) then AtWork(At(w', p)) && At(w', p).ticket == t
               else At(w', p) == Unwinding(true, t, false)
  {
  }

  lemma {:induction false} InvFacts(w: World)
    requires Inv(w)
    ensures PhasesOk(w)
  {
  }

  lemma {:induction false} CheckOutcome(w: World, p: Pid, raised: set<nat>)
    requires Inv(w) && OutcomesOk(w, raised)
    ensures OutcomesOk(Next(w, Check(p)), raised)
  {
    var w' := Next(w, Check(p));
    InvFacts(w);
    if At(w, p).Checking? {
      NextKeepsInv(w, Check(p));
      InvFacts(w');
      CheckFinds(w, p);
      CheckMoves(w, p);
      assert Knows(w, raised, w.procs[p]);
      OneMoves(w, w', raised, raised, p, At(w', p));
    }
  }

  predicate IsWork(step: Step) {
    step.WriteTemp? || step.Replace? || step.AppendSome? || step.CloseAppend? || step.Unlink?
  }

  lemma {:induction false} WorkMoves(w: World, step: Step)
    requires PhasesOk(w) && IsWork(step) && Next(w, step) != w
    ensures var w', ph := Next(w, step), At(w, step.p);
            && AtWork(ph) && w'.procs == w.procs[step.p := At(w', step.p)] && w'.results == w.results
            && w'.acquired == w.acquired && w'.initial == w.initial && AtMostOneMore(w.history, w'.history, ph.ticket)
            && (|| (AtWork(At(w', step.p)) && At(w', step.p).ticket == ph.ticket)
                || At(w', step.p) == Unwinding(true, ph.ticket, true))
  {
  }

  /** The operation goes on or takes effect. */
  lemma {:induction false} WorkStep(w: World, step: Step, raised: set<nat>)
    requires Inv(w) && OutcomesOk(w, raised) && IsWork(step)
    ensures OutcomesOk(Next(w, step), raised)
  {
    var w', p := Next(w, step), step.p;
    InvFacts(w);
    if w' != w {
      NextKeepsInv(w, step);
      InvFacts(w');
      WorkMoves(w, step);
      assert Knows(w, raised, w.procs[p]);
      CommitFindsSame(w, w');
      OneMoves(w, w', raised, raised, p, At(w', p));
    }
  }

  lemma {:induction false} RaiseStep(w: World, p: Pid, raised: set<nat>)
    requires Inv(w) && OutcomesOk(w, raised)
    ensures OutcomesOk(Next(w, Raise(p)), Hit(w, Raise(p), raised))
  {
    var w' := Next(w, Raise(p));
    InvFacts(w);
    if AtWork(At(w, p)) {
      NextKeepsInv(w, Raise(p));
      InvFacts(w');
      RaiseMoves(w, p);
      CommitFindsSame(w, w');
      OneMoves(w, w', raised, Hit(w, Raise(p), raised), p, At(w', p));
    }
  }

  lemma {:induction false} RaiseMoves(w: World, p: Pid)
    requires PhasesOk(w) && AtWork(At(w, p))
    ensures var w', t := Next(w, Raise(p)), At(w, p).ticket;
            && w'.procs == w.procs[p := At(w', p)] && At(w', p) == Unwinding(true, t, false)
            && w'.results == w.results && w'.acquired == w.acquired && w'.initial == w.initial
            && AtMostOneMore(w.history, w'.history, t)
  {
  }

  lemma {:induction false} UnlockStep(w: World, p: Pid, fails: bool, raised: set<nat>)
    requires Inv(w) && OutcomesOk(w, raised)
    ensures OutcomesOk(Next(w, Unlock(p, fails)), Hit(w, Unlock(p, fails), raised))
  {
    NextKeepsInv(w, Unlock(p, fails));
    var w' := Next(w, Unlock(p, fails));
    InvFacts(w);
    InvFacts(w');
    if At(w, p).Unwinding? {
      assert Knows(w, raised, w.procs[p]);
      OneMoves(w, w', raised, raised, p, w'.procs[p]);
    }
  }

  lemma {:induction false} CrashStep(w: World, p: Pid, raised: set<nat>)
    requires Inv(w) && OutcomesOk(w, raised)
    ensures OutcomesOk(Next(w, Crash(p)), Hit(w, Crash(p), raised))
  {
    NextKeepsInv(w, Crash(p));
    var w' := Next(w, Crash(p));
    InvFacts(w);
    InvFacts(w');
    CrashMoves(w, p);
    if w'.history != w.history {
      CommitFindsSame(w, w');
    }
    OneMoves(w, w', raised, raised, p, Crashed);
  }

  lemma {:induction false} CrashMoves(w: World, p: Pid)
    requires PhasesOk(w)
    ensures var w' := Next(w, Crash(p));
            && w'.procs == w.procs[p := Crashed] && w'.results == w.results
            && w'.acquired == w.acquired && w'.initial == w.initial
            && (w'.history != w.history ==>
                  w.acquired != [] && AtMostOneMore(w.history, w'.history, |w.acquired| - 1))
  {
  }

  lemma {:induction false} NextKeepsOutcomes(w: World, step: Step, raised: set<nat>)
    requires Inv(w) && OutcomesOk(w, raised)
    ensures OutcomesOk(Next(w, step), Hit(w, step, raised))
  {
    match step
    case Begin(_, _) => OutsideStep(w, step, raised);
    case TimeOut(_) => OutsideStep(w, step, raised);
    case Close(_) => OutsideStep(w, step, raised);
    case Acquire(p) => AcquireStep(w, p, raised);
    case Check(p) => CheckOutcome(w, p, raised);
    case Raise(p) => RaiseStep(w, p, raised);
    case Unlock(p, fails) => UnlockStep(w, p, fails, raised);
    case Crash(p) => CrashStep(w, p, raised);
    case _ => WorkStep(w, step, raised);
  }

  // ---- runs ----

  lemma {:induction false} RunKeepsOutcomes(initial: Option<string>, steps: seq<Step>)
    ensures OutcomesOk(Run(initial, steps), Raised(initial, steps))
  {
    if steps != [] {
      var front := steps[..|steps| - 1];
      RunKeepsOutcomes(initial, front);
      RunKeepsInv(initial, front);
      NextKeepsOutcomes(Run(initial, front), steps[|steps| - 1], Raised(initial, front));
    }
  }

  /** An operation that went through the lock reports success if and only if the file, as the operations before it left
      it, admitted what was asked for, and no input/output error hit the operation. */
  lemma {:induction false} ReportsExactly(initial: Option<string>, steps: seq<Step>, t: nat)
    requires t in Run(initial, steps).results
    ensures var w := Run(initial, steps);
            && t < |w.acquired|
            && (w.results[t] <==>
                  && Admissible(Replay(initial, Before(w.history, t)), ChangeOf(w.acquired[t]))
                  && t !in Raised(initial, steps))
  {
    RunKeepsOutcomes(initial, steps);
    RunKeepsInv(initial, steps);
    assert ReportOk(Run(initial, steps), Raised(initial, steps), t);
  }

  // ---- an operation that finds the lock free ----

  /** Two steps of a run. */
  lemma {:induction false} TwoSteps(initial: Option<string>, steps: seq<Step>, a: Step, b: Step)
    ensures Run(initial, steps + [a, b]) == Next(Next(Run(initial, steps), a), b)
    ensures PhasesOk(Run(initial, steps)) && PhasesOk(Next(Run(initial, steps), a))
  {
    RunOneMore(initial, steps, a);
    RunOneMore(initial, steps + [a], b);
    assert steps + [a] + [b] == steps + [a, b];
    RunExcludes(initial, steps);
    RunExcludes(initial, steps + [a]);
  }

  lemma {:induction false} GetsTurn(initial: Option<string>, steps: seq<Step>, p: Pid, op: Op)
    requires At(Run(initial, steps), p).Idle? && Run(initial, steps).holder.None?
    ensures var w, w' := Run(initial, steps), Run(initial, steps + [Begin(p, op), Acquire(p)]);
            && At(w', p) == Checking(|w.acquired|) && w'.acquired == w.acquired + [op] && w'.file == w.file
  {
    TwoSteps(initial, steps, Begin(p, op), Acquire(p));
  }

  lemma {:induction false} Leaves(initial: Option<string>, steps: seq<Step>, p: Pid)
    requires var ph := At(Run(initial, steps), p); ph.Unwinding? && ph.acquired
    ensures var w, w' := Run(initial, steps), Run(initial, steps + [Unlock(p, false), Close(p)]);
            && At(w', p).Idle? && w'.holder.None? && w'.file == w.file && w'.acquired == w.acquired
            && At(w, p).ticket in w'.results && w'.results[At(w, p).ticket] == At(w, p).ok
  {
    TwoSteps(initial, steps, Unlock(p, false), Close(p));
  }

  /** The operation at work takes effect. */
  lemma {:induction false} TakesEffect(initial: Option<string>, steps: seq<Step>, p: Pid) returns (more: seq<Step>)
    requires AtWork(At(Run(initial, steps), p))
    requires match At(Run(initial, steps), p)
             case Writing(_, n) => n == 0
             case Appending(_, n) => n == 0
             case _ => true
    ensures var w, w' := Run(initial, steps), Run(initial, steps + more);
            var t := At(w, p).ticket;
            && t < |w.acquired| && At(w', p) == Unwinding(true, t, true) && w'.acquired == w.acquired
            && w'.file == ApplyChange(w.file, ChangeOf(w.acquired[t]))
  {
    RunExcludes(initial, steps);
    var w := Run(initial, steps);
    var ph := At(w, p);
    if ph.Writing? {
      more := [WriteTemp(p, |w.acquired[ph.ticket].content|), Replace(p)];
      TwoSteps(initial, steps, more[0], more[1]);
      WriteTakesEffect(w, p);
    } else if ph.Appending? {
      more := [AppendSome(p, |w.acquired[ph.ticket].content|), CloseAppend(p)];
      TwoSteps(initial, steps, more[0], more[1]);
      AppendTakesEffect(w, p);
    } else {
      more := [Unlink(p)];
      RunOneMore(initial, steps, Unlink(p));
    }
  }

  lemma {:induction false} WriteTakesEffect(w: World, p: Pid)
    requires PhasesOk(w) && At(w, p).Writing? && At(w, p).written == 0
    ensures var t := At(w, p).ticket;
            var mid := Next(w, WriteTemp(p, |w.acquired[t].content|));
            PhasesOk(mid) ==>
              var w' := Next(mid, Replace(p));
              && At(w', p) == Unwinding(true, t, true) && w'.acquired == w.acquired
              && w'.file == ApplyChange(w.file, ChangeOf(w.acquired[t]))
  {
  }

  lemma {:induction false} AppendTakesEffect(w: World, p: Pid)
    requires PhasesOk(w) && At(w, p).Appending? && At(w, p).appended == 0
    ensures var t := At(w, p).ticket;
            var mid := Next(w, AppendSome(p, |w.acquired[t].content|));
            PhasesOk(mid) ==>
              var w' := Next(mid, CloseAppend(p));
              && At(w', p) == Unwinding(true, t, true) && w'.acquired == w.acquired
              && w'.file == ApplyChange(w.file, ChangeOf(w.acquired[t]))
  {
    var c := w.acquired[At(w, p).ticket].content;
    assert c[0..|c|] == c;
  }

  lemma {:induction false} ChecksFile(initial: Option<string>, steps: seq<Step>, p: Pid)
    requires At(Run(initial, steps), p).Checking?
    ensures var w, w' := Run(initial, steps), Run(initial, steps + [Check(p)]);
            var t := At(w, p).ticket;
            && t < |w.acquired| && w'.acquired == w.acquired
            && if Admissible(w.file, ChangeOf(w.acquired[t])) then
                 && AtWork(At(w', p)) && At(w', p).ticket == t
                 && (At(w', p).Writing? ==> At(w', p).written == 0)
                 && (At(w', p).Appending? ==> At(w', p).appended == 0 && w.acquired[t].Append?)
                 && w'.file == if At(w', p).Appending? then Some(TextOf(w.file)) else w.file
               else At(w', p) == Unwinding(true, t, false) && w'.file == w.file
  {
    RunExcludes(initial, steps);
    RunOneMore(initial, steps, Check(p));
    CheckMoves(Run(initial, steps), p);
  }

  /** Two continuations, one after the other. */
  lemma {:induction false} Continued(initial: Option<string>, steps: seq<Step>, a: seq<Step>, b: seq<Step>)
    ensures Run(initial, steps + (a + b)) == Run(initial, (steps + a) + b)
  {
    ConcatAssoc(steps, a, b);
  }

  lemma {:induction false} EffectOnFile(file: Option<string>, op: Op)
    ensures op.Append? ==> ApplyChange(Some(TextOf(file)), ChangeOf(op)) == ApplyChange(file, ChangeOf(op))
  {
  }

  /** From the look at the file to the end of the work. */
  lemma {:induction false} DoesItsWork(initial: Option<string>, steps: seq<Step>, p: Pid) returns (more: seq<Step>)
    requires At(Run(initial, steps), p).Checking?
    ensures var w, w' := Run(initial, steps), Run(initial, steps + more);
            var t := At(w, p).ticket;
            && t < |w.acquired| && w'.acquired == w.acquired
            && var admitted := Admissible(w.file, ChangeOf(w.acquired[t]));
               && At(w', p) == Unwinding(true, t, admitted)
               && w'.file == if admitted then ApplyChange(w.file, ChangeOf(w.acquired[t])) else w.file
  {
    ChecksFile(initial, steps, p);
    var w := Run(initial, steps);
    EffectOnFile(w.file, w.acquired[At(w, p).ticket]);
    more := [Check(p)];
    if AtWork(At(Run(initial, steps + [Check(p)]), p)) {
      var work := TakesEffect(initial, steps + [Check(p)], p);
      Continued(initial, steps, [Check(p)], work);
      more := [Check(p)] + work;
    }
  }

  /** A process that finds the lock free can go through the lock on its own: if the file admits what it asks for, the
      change is made and success reported; otherwise the file stays and failure is reported. */
  lemma {:induction false} CanGoThrough(initial: Option<string>, steps: seq<Step>, p: Pid, op: Op)
    returns (more: seq<Step>)
    requires At(Run(initial, steps), p).Idle? && Run(initial, steps).holder.None?
    ensures var w, w' := Run(initial, steps), Run(initial, steps + more);
            var t, admitted := |w.acquired|, Admissible(w.file, ChangeOf(op));
            && At(w', p).Idle? && w'.holder.None? && w'.acquired == w.acquired + [op]
            && t in w'.results && w'.results[t] == admitted
            && w'.file == if admitted then ApplyChange(w.file, ChangeOf(op)) else w.file
  {
    GetsTurn(initial, steps, p, op);
    var begin := [Begin(p, op), Acquire(p)];
    var work := DoesItsWork(initial, steps + begin, p);
    Continued(initial, steps, begin, work);
    Leaves(initial, steps + (begin + work), p);
    Continued(initial, steps, begin + work, [Unlock(p, false), Close(p)]);
    more := (begin + work) + [Unlock(p, false), Close(p)];
  }
}
