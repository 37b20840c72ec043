/** Acknowledged reports are final (scripts/empyralis_self_hosted_command_worker.py, scripts/mock_empyralis_cloud.py):
    once a worker has read the answer to its first report on a command, the queue shows that result for good, whatever
    requests are still under way. */
module QueueAcks {
  import opened CommandQueue
  import opened QueueHistory
  import opened Text

  function Result(ok: bool): (s: QueueState) {
    if ok then Completed else Failed
  }

  /** Nothing has been reported on `c`, and nobody reports on it. */
  ghost predicate Silent(w: World, c: CommandId) {
    && (forall m :: m in w.inflight && w.inflight[m].Report? ==> w.inflight[m].cmd != c)
    && (forall k :: !ReportsOn(At(w, k), c))
    && !Shows(w, c, Completed) && !Shows(w, c, Failed)
  }

  predicate ReportsOn(ph: Phase, c: CommandId) {
    ph.Reporting? && ph.cmd == c
  }

  /** The reply brings the command to a worker. */
  predicate Brings(w: World, m: MessageId, c: CommandId) {
    m in w.replies && w.replies[m].Commands? && c in w.replies[m].cmds
  }

  /** The command has not been taken up: it is unknown, pending, on its way to a worker, or waits at one. */
  ghost predicate Waits(w: World, c: CommandId) {
    || c !in w.state || w.state[c] == Pending
    || (exists k :: c in Unexecuted(At(w, k)))
    || (exists m :: Brings(w, m, c))
  }

  /** The reports under way on `c` all say `ok`. */
  ghost predicate AllSay(w: World, c: CommandId, ok: bool) {
    forall m :: m in w.inflight && w.inflight[m].Report? && w.inflight[m].cmd == c ==> w.inflight[m].ok == ok
  }

  /** A worker that sends its first report on `c`: all reports say the same, and once it is answered they show. */
  ghost predicate FirstReport(w: World, c: CommandId, ph: Phase) {
    ReportsOn(ph, c) && !ph.fallback ==>
      && AllSay(w, c, ph.ok) && !Shows(w, c, Result(!ph.ok))
      && (ph.msg in w.replies ==> Shows(w, c, Result(ph.ok)))
  }

  ghost predicate AcksOk(w: World, c: CommandId) {
    (Waits(w, c) ==> Silent(w, c)) && OneReporter(w, c) && FirstReports(w, c)
  }

  ghost predicate OneReporter(w: World, c: CommandId) {
    forall k, q :: ReportsOn(At(w, k), c) && ReportsOn(At(w, q), c) ==> k == q
  }

  ghost predicate FirstReports(w: World, c: CommandId) {
    && (forall k :: FirstReport(w, c, At(w, k)))
    && (forall k :: ReportsOn(At(w, k), c) && At(w, k).msg in w.inflight ==>
          w.inflight[At(w, k).msg] == Report(c, At(w, k).ok))
  }

  // ---- deliveries ----

  lemma {:induction false} ClaimKeepsAcks(w: World, m: MessageId, c: CommandId)
    requires MessagesOk(w) && AcksOk(w, c) && m in w.inflight && w.inflight[m].Claim?
    ensures AcksOk(Serve(w, m), c)
  {
    var w' := Serve(w, m);
    assert forall k :: At(w', k) == At(w, k);
    if Waits(w', c) {
      assert Waits(w, c) by {
        if n :| Brings(w', n, c) {
          assert n == m || Brings(w, n, c);
        }
      }
    }
  }

  lemma {:induction false} ReportKeepsAcks(w: World, m: MessageId, c: CommandId)
    requires MessagesOk(w) && AcksOk(w, c) && m in w.inflight && w.inflight[m].Report?
    ensures AcksOk(Serve(w, m), c)
  {
    var w' := Serve(w, m);
    assert forall k :: At(w', k) == At(w, k);
    if Waits(w', c) {
      assert Waits(w, c) by {
        if n :| Brings(w', n, c) {
          assert Brings(w, n, c);
        }
      }
    }
  }

  // ---- worker steps ----

  /** What a worker step has to do with reports on `c`. */
  lemma {:induction false} DeltaOnCommand(w: World, step: Step, c: CommandId)
    requires !step.Enqueue? && !step.Deliver? && WorkerDelta(w, step).Some?
    ensures var ph, d := At(w, step.worker), WorkerDelta(w, step).value;
            && (d.send.Some? && d.send.value.Report? ==> d.phase.Reporting?)
            && (d.phase.Reporting? ==> d.send == Some(Report(d.phase.cmd, d.phase.ok)) && d.phase.msg == w.nextMsg)
            && (ReportsOn(d.phase, c) ==>
                  if c in Unexecuted(ph) && !ReportsOn(ph, c)
                  then Unexecuted(ph)[0] == c && Unexecuted(d.phase) == Unexecuted(ph)[1..] && !d.phase.fallback
                  else ReportsOn(ph, c) && (d.phase.fallback || (!ph.fallback && d.phase.ok == ph.ok)))
            && (c in Unexecuted(d.phase) ==> c in Unexecuted(ph) || (d.read.Some? && Brings(w, d.read.value, c)))
  {
  }

  /** What a step of worker `k` does to the reports on `c`, in general. */
  ghost predicate Speaks(w: World, k: WorkerId, d: Delta, c: CommandId) {
    && (d.send.Some? && d.send.value.Report? ==> d.phase.Reporting?)
    && (d.phase.Reporting? ==> d.send == Some(Report(d.phase.cmd, d.phase.ok)) && d.phase.msg == w.nextMsg)
    && (c in Unexecuted(d.phase) ==> c in Unexecuted(At(w, k)) || (d.read.Some? && Brings(w, d.read.value, c)))
  }

  lemma {:induction false} StillWaits(w: World, k: WorkerId, d: Delta, c: CommandId)
    requires Speaks(w, k, d, c) && Waits(ApplyDelta(w, k, d), c)
    ensures Waits(w, c)
  {
    var w' := ApplyDelta(w, k, d);
    if q :| c in Unexecuted(At(w', q)) {
      assert q != k ==> At(w', q) == At(w, q);
    } else if m :| Brings(w', m, c) {
      assert Brings(w, m, c);
    }
  }

  /** A step that sends no report on `c`. */
  lemma {:induction false} OtherKeepsAcks(w: World, k: WorkerId, d: Delta, c: CommandId)
    requires MessagesOk(w) && AcksOk(w, c) && Speaks(w, k, d, c) && !ReportsOn(d.phase, c)
    ensures AcksOk(ApplyDelta(w, k, d), c)
  {
    if Waits(ApplyDelta(w, k, d), c) {
      StillWaits(w, k, d, c);
      OtherKeepsSilent(w, k, d, c);
    }
    OtherKeepsOne(w, k, d, c);
    OtherKeepsReports(w, k, d, c);
  }

  lemma {:induction false} OtherKeepsSilent(w: World, k: WorkerId, d: Delta, c: CommandId)
    requires Silent(w, c) && Speaks(w, k, d, c) && !ReportsOn(d.phase, c)
    ensures Silent(ApplyDelta(w, k, d), c)
  {
    var w' := ApplyDelta(w, k, d);
    assert forall q :: q != k ==> At(w', q) == At(w, q);
  }

  lemma {:induction false} OtherKeepsOne(w: World, k: WorkerId, d: Delta, c: CommandId)
    requires OneReporter(w, c) && !ReportsOn(d.phase, c)
    ensures OneReporter(ApplyDelta(w, k, d), c)
  {
    var w' := ApplyDelta(w, k, d);
    assert forall q :: q != k ==> At(w', q) == At(w, q);
  }

  lemma {:induction false} OtherKeepsReports(w: World, k: WorkerId, d: Delta, c: CommandId)
    requires MessagesOk(w) && FirstReports(w, c) && Speaks(w, k, d, c) && !ReportsOn(d.phase, c)
    ensures FirstReports(ApplyDelta(w, k, d), c)
  {
    var w' := ApplyDelta(w, k, d);
    assert forall m :: m in w'.inflight && w'.inflight[m].Report? && w'.inflight[m].cmd == c ==>
        m in w.inflight && w.inflight[m] == w'.inflight[m];
    assert forall q :: q != k ==> At(w', q) == At(w, q) && FirstReport(w, c, At(w, q));
  }

  /** A further report of a worker that reports on `c` already. */
  lemma {:induction false} AgainKeepsAcks(w: World, k: WorkerId, d: Delta, c: CommandId)
    requires MessagesOk(w) && AcksOk(w, c) && Speaks(w, k, d, c) && ReportsOn(d.phase, c) && ReportsOn(At(w, k), c)
    requires d.phase.fallback || (!At(w, k).fallback && d.phase.ok == At(w, k).ok)
    ensures AcksOk(ApplyDelta(w, k, d), c)
  {
    var w' := ApplyDelta(w, k, d);
    assert forall q :: q != k ==> At(w', q) == At(w, q);
    assert !Waits(w', c) by {
      if Waits(w', c) {
        StillWaits(w, k, d, c);
      }
    }
  }

  lemma {:induction false} NotElsewhere(w: World, k: WorkerId, q: WorkerId, c: CommandId)
    requires CommandsInOnePlace(w) && c in Unexecuted(At(w, k)) && q != k
    ensures c !in Unexecuted(At(w, q))
  {
    assert HeldAt(w.owner, Unexecuted(w.workers[k]), AtWorker(k));
    assert q in w.workers ==> HeldAt(w.owner, Unexecuted(w.workers[q]), AtWorker(q));
  }

  lemma {:induction false} NotOnItsWay(w: World, k: WorkerId, m: MessageId, c: CommandId)
    requires CommandsInOnePlace(w) && c in Unexecuted(At(w, k))
    ensures !Brings(w, m, c)
  {
    assert HeldAt(w.owner, Unexecuted(w.workers[k]), AtWorker(k));
    assert m in w.replies && w.replies[m].Commands? ==> HeldAt(w.owner, w.replies[m].cmds, InReply(m));
  }

  /** A command that a worker has is nowhere else. */
  lemma {:induction false} TakenUp(w: World, k: WorkerId, d: Delta, c: CommandId)
    requires CommandsInOnePlace(w) && Speaks(w, k, d, c) && d.read.None?
    requires Unexecuted(At(w, k)) != [] && Unexecuted(At(w, k))[0] == c
    requires Unexecuted(d.phase) == Unexecuted(At(w, k))[1..]
    ensures !Waits(ApplyDelta(w, k, d), c)
  {
    var w' := ApplyDelta(w, k, d);
    HeldIsInQueue(w, k, c);
    TailIsHeld(w.owner, Unexecuted(At(w, k)), AtWorker(k));
    forall q ensures c !in Unexecuted(At(w', q)) {
      if q != k {
        NotElsewhere(w, k, q, c);
      }
    }
    forall m ensures !Brings(w', m, c) {
      NotOnItsWay(w, k, m, c);
    }
  }

  /** The first report on `c`. */
  lemma {:induction false} FirstKeepsAcks(w: World, k: WorkerId, d: Delta, c: CommandId)
    requires Inv(w) && AcksOk(w, c) && Speaks(w, k, d, c) && ReportsOn(d.phase, c) && d.read.None?
    requires Unexecuted(At(w, k)) != [] && Unexecuted(At(w, k))[0] == c
    requires Unexecuted(d.phase) == Unexecuted(At(w, k))[1..]
    ensures AcksOk(ApplyDelta(w, k, d), c)
  {
    assert Waits(w, c);
    TakenUp(w, k, d, c);
    FirstSpeaks(w, k, d, c);
  }

  lemma {:induction false} FirstSpeaks(w: World, k: WorkerId, d: Delta, c: CommandId)
    requires MessagesOk(w) && Silent(w, c) && Speaks(w, k, d, c) && ReportsOn(d.phase, c) && d.read.None?
    ensures OneReporter(ApplyDelta(w, k, d), c) && FirstReports(ApplyDelta(w, k, d), c)
  {
    var w' := ApplyDelta(w, k, d);
    assert forall q :: q != k ==> At(w', q) == At(w, q);
    assert forall m :: m in w'.inflight && w'.inflight[m].Report? && w'.inflight[m].cmd == c ==> m == w.nextMsg;
  }

  lemma {:induction false} WorkerKeepsAcks(w: World, step: Step, c: CommandId)
    requires Inv(w) && AcksOk(w, c) && !step.Enqueue? && !step.Deliver? && WorkerDelta(w, step).Some?
    ensures AcksOk(ApplyDelta(w, step.worker, WorkerDelta(w, step).value), c)
  {
    var k, d := step.worker, WorkerDelta(w, step).value;
    DeltaOnCommand(w, step, c);
    if !ReportsOn(d.phase, c) {
      OtherKeepsAcks(w, k, d, c);
    } else if c in Unexecuted(At(w, k)) && !ReportsOn(At(w, k), c) {
      FirstKeepsAcks(w, k, d, c);
    } else {
      AgainKeepsAcks(w, k, d, c);
    }
  }

  // ---- runs ----

  lemma {:induction false} EnqueueKeepsAcks(w: World, d: CommandId, c: CommandId)
    requires AcksOk(w, c)
    ensures AcksOk(Next(w, Enqueue(d)), c)
  {
    var w' := Next(w, Enqueue(d));
    assert forall k :: At(w', k) == At(w, k);
    assert forall m :: Brings(w', m, c) == Brings(w, m, c);
  }

  lemma {:induction false} NextKeepsAcks(w: World, step: Step, c: CommandId)
    requires Inv(w) && AcksOk(w, c)
    ensures AcksOk(Next(w, step), c)
  {
    if step.Enqueue? {
      EnqueueKeepsAcks(w, step.cmd, c);
    } else if step.Deliver? {
      if step.msg in w.inflight {
        if w.inflight[step.msg].Claim? {
          ClaimKeepsAcks(w, step.msg, c);
        } else {
          ReportKeepsAcks(w, step.msg, c);
        }
      }
    } else if WorkerDelta(w, step).Some? {
      WorkerKeepsAcks(w, step, c);
    }
  }

  lemma {:induction false} StartAcks(c: CommandId)
    ensures AcksOk(START, c)
  {
  }

  lemma {:induction false} RunKeepsAcks(steps: seq<Step>, c: CommandId)
    ensures AcksOk(Run(steps), c)
  {
    if steps == [] {
      StartAcks(c);
    } else {
      var front := steps[..|steps| - 1];
      RunKeepsAcks(front, c);
      RunKeepsInv(front);
      NextKeepsAcks(Run(front), steps[|steps| - 1], c);
    }
  }

  // ---- acknowledged results ----

  /** The result shows, and nobody can say otherwise any more. */
  ghost predicate Final(w: World, c: CommandId, ok: bool) {
    && Shows(w, c, Result(ok)) && AllSay(w, c, ok) && !Waits(w, c)
    && forall k :: !ReportsOn(At(w, k), c)
  }

  lemma {:induction false} DeliveryKeepsFinal(w: World, m: MessageId, c: CommandId, ok: bool)
    requires m in w.inflight && Final(w, c, ok)
    ensures Final(Serve(w, m), c, ok)
  {
    var w' := Serve(w, m);
    assert forall k :: At(w', k) == At(w, k);
    assert w.inflight[m].Claim? ==> c !in TakePending(w.order, w.state, w.inflight[m].max);
    assert forall n :: Brings(w', n, c) ==> Brings(w, n, c);
  }

  lemma {:induction false} WorkerKeepsFinal(w: World, step: Step, c: CommandId, ok: bool)
    requires Final(w, c, ok) && !step.Enqueue? && !step.Deliver? && WorkerDelta(w, step).Some?
    ensures Final(ApplyDelta(w, step.worker, WorkerDelta(w, step).value), c, ok)
  {
    var k, d := step.worker, WorkerDelta(w, step).value;
    var w' := ApplyDelta(w, k, d);
    DeltaOnCommand(w, step, c);
    assert c !in Unexecuted(At(w, k)) && !ReportsOn(At(w, k), c);
    assert forall q :: q != k ==> At(w', q) == At(w, q);
    if Waits(w', c) {
      StillWaits(w, k, d, c);
    }
  }

  lemma {:induction false} NextKeepsFinal(w: World, step: Step, c: CommandId, ok: bool)
    requires Final(w, c, ok)
    ensures Final(Next(w, step), c, ok)
  {
    if step.Enqueue? {
      var w' := Next(w, step);
      assert forall k :: At(w', k) == At(w, k);
      assert forall m :: Brings(w', m, c) == Brings(w, m, c);
    } else if step.Deliver? {
      if step.msg in w.inflight {
        DeliveryKeepsFinal(w, step.msg, c, ok);
      }
    } else if WorkerDelta(w, step).Some? {
      WorkerKeepsFinal(w, step, c, ok);
    }
  }

  lemma {:induction false} ReadingIsFinal(w: World, k: WorkerId)
    requires var ph := At(w, k); ph.Reporting? && !ph.fallback && ph.msg in w.replies && w.replies[ph.msg].Ack?
    requires AcksOk(w, At(w, k).cmd)
    ensures Final(Next(w, ReadAck(k)), At(w, k).cmd, At(w, k).ok)
  {
    var c, w' := At(w, k).cmd, Next(w, ReadAck(k));
    assert ReportsOn(At(w, k), c);
    assert FirstReport(w, c, At(w, k));
    DeltaOnCommand(w, ReadAck(k), c);
    assert forall q :: q != k ==> At(w', q) == At(w, q);
    if Waits(w', c) {
      StillWaits(w, k, WorkerDelta(w, ReadAck(k)).value, c);
    }
  }

  /** Once a worker has read the answer to its first report on a command, the queue shows the result that was reported,
      in every continuation: with any late requests, retries, other workers and crashes. */
  lemma {:induction false} AcknowledgedIsFinal(before: seq<Step>, k: WorkerId, after: seq<Step>)
    requires var w := Run(before);
             var ph := At(w, k);
             ph.Reporting? && !ph.fallback && ph.msg in w.replies && w.replies[ph.msg].Ack?
    ensures var ph := At(Run(before), k);
            Shows(Run(before + [ReadAck(k)] + after), ph.cmd, Result(ph.ok))
  {
    var ph := At(Run(before), k);
    RunKeepsAcks(before, ph.cmd);
    ReadingIsFinal(Run(before), k);
    RunOneMore(before, ReadAck(k));
    forall w, step | Final(w, ph.cmd, ph.ok) ensures Final(Next(w, step), ph.cmd, ph.ok) {
      NextKeepsFinal(w, step, ph.cmd, ph.ok);
    }
    RunInduction(w => Final(w, ph.cmd, ph.ok), before + [ReadAck(k)], after);
  }
}
