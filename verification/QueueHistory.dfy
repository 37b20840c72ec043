/** The cloud's queue (scripts/mock_empyralis_cloud.py) told by the claims and reports that were delivered: the last
    report on a command counts. And when a success can still show. */
module QueueHistory {
  import opened CommandQueue
  import opened Text

  /** The step delivers a report on `c`. */
  predicate Reports(w: World, step: Step, c: CommandId, ok: bool) {
    step.Deliver? && step.msg in w.inflight && w.inflight[step.msg] == Report(c, ok)
  }

  /** What the reports on `c` say that a run delivers, in order. */
  function Delivered(steps: seq<Step>, c: CommandId): (answers: seq<bool>) {
    if steps == [] then []
    else
      var front, last := steps[..|steps| - 1], steps[|steps| - 1];
      Delivered(front, c)
      + (if Reports(Run(front), last, c, true) then [true]
         else if Reports(Run(front), last, c, false) then [false]
         else [])
  }

  /** The last report on `c` that was delivered says `ok`. */
  predicate LastSays(answers: seq<bool>, ok: bool) {
    answers != [] && answers[|answers| - 1] == ok
  }

  predicate Shows(w: World, c: CommandId, s: QueueState) {
    c in w.state && w.state[c] == s
  }

  // ---- reports are about commands of the queue ----

  ghost predicate ReportsKnown(w: World) {
    && (forall m :: m in w.inflight && w.inflight[m].Report? ==> InQueue(w, w.inflight[m].cmd))
    && (forall k :: k in w.workers && w.workers[k].Reporting? ==> InQueue(w, w.workers[k].cmd))
  }

  /** The command is in the queue and not pending. */
  predicate InQueue(w: World, c: CommandId) {
    c in w.state && w.state[c] != Pending
  }

  lemma {:induction false} StaysInQueue(w: World, step: Step, c: CommandId)
    requires InQueue(w, c)
    ensures InQueue(Next(w, step), c)
  {
  }

  /** What a worker reports on it has, or reports on already. */
  lemma {:induction false} DeltaReports(w: World, step: Step)
    requires !step.Enqueue? && !step.Deliver? && WorkerDelta(w, step).Some?
    ensures var ph, d := At(w, step.worker), WorkerDelta(w, step).value;
            && (d.send.Some? && d.send.value.Report? ==> d.phase.Reporting? && d.phase.cmd == d.send.value.cmd)
            && (d.phase.Reporting? ==> d.phase.cmd in Unexecuted(ph) || (ph.Reporting? && ph.cmd == d.phase.cmd))
  {
  }

  lemma {:induction false} HeldIsInQueue(w: World, k: WorkerId, c: CommandId)
    requires CommandsInOnePlace(w) && c in Unexecuted(At(w, k))
    ensures InQueue(w, c)
  {
    assert HeldAt(w.owner, Unexecuted(w.workers[k]), AtWorker(k));
  }

  lemma {:induction false} WorkerKeepsKnown(w: World, step: Step)
    requires CommandsInOnePlace(w) && ReportsKnown(w)
    requires !step.Enqueue? && !step.Deliver? && WorkerDelta(w, step).Some?
    ensures ReportsKnown(ApplyDelta(w, step.worker, WorkerDelta(w, step).value))
  {
    var d := WorkerDelta(w, step).value;
    var w' := ApplyDelta(w, step.worker, d);
    DeltaReports(w, step);
    if d.phase.Reporting? && d.phase.cmd in Unexecuted(At(w, step.worker)) {
      HeldIsInQueue(w, step.worker, d.phase.cmd);
    }
    assert w'.state == w.state;
    forall m | m in w'.inflight && w'.inflight[m].Report? ensures InQueue(w', w'.inflight[m].cmd) {
      assert (m in w.inflight && w'.inflight[m] == w.inflight[m]) || d.send == Some(w'.inflight[m]);
    }
  }

  lemma {:induction false} NextKeepsKnown(w: World, step: Step)
    requires CommandsInOnePlace(w) && ReportsKnown(w)
    ensures ReportsKnown(Next(w, step))
  {
    if step.Enqueue? || step.Deliver? {
      var w' := Next(w, step);
      forall m | m in w'.inflight && w'.inflight[m].Report? ensures InQueue(w', w'.inflight[m].cmd) {
        StaysInQueue(w, step, w'.inflight[m].cmd);
      }
      forall k | k in w'.workers && w'.workers[k].Reporting? ensures InQueue(w', w'.workers[k].cmd) {
        StaysInQueue(w, step, w'.workers[k].cmd);
      }
    } else if WorkerDelta(w, step).Some? {
      WorkerKeepsKnown(w, step);
    }
  }

  lemma {:induction false} RunKeepsKnown(steps: seq<Step>)
    ensures ReportsKnown(Run(steps))
  {
    if steps != [] {
      var front := steps[..|steps| - 1];
      RunKeepsKnown(front);
      RunKeepsInv(front);
      NextKeepsKnown(Run(front), steps[|steps| - 1]);
    }
  }

  // ---- the last report counts ----

  /** A delivered report shows; nothing else changes whether a result shows. */
  lemma {:induction false} NextShows(w: World, step: Step, c: CommandId, ok: bool)
    requires ReportsKnown(w)
    ensures var s := if ok then Completed else Failed;
            Shows(Next(w, step), c, s) <==>
            Reports(w, step, c, ok) || (Shows(w, c, s) && !Reports(w, step, c, !ok))
  {
  }

  /** After every run the queue shows a command as completed if and only if the last report on it that was delivered
      says so, and as failed if and only if that report says so. */
  lemma {:induction false} ShownExactly(steps: seq<Step>, c: CommandId)
    ensures Shows(Run(steps), c, Completed) <==> LastSays(Delivered(steps, c), true)
    ensures Shows(Run(steps), c, Failed) <==> LastSays(Delivered(steps, c), false)
  {
    if steps != [] {
      var front, last := steps[..|steps| - 1], steps[|steps| - 1];
      ShownExactly(front, c);
      RunKeepsKnown(front);
      NextShows(Run(front), last, c, true);
      NextShows(Run(front), last, c, false);
    }
  }

  // ---- claims ----

  /** The step delivers a claim that gets `c`: one of the oldest pending commands, as many as are asked for. */
  predicate HandsOut(w: World, step: Step, c: CommandId) {
    && step.Deliver? && step.msg in w.inflight && w.inflight[step.msg].Claim?
    && var all, max := AllPending(w.order, w.state), w.inflight[step.msg].max;
       c in if |all| <= max then all else all[..max]
  }

  predicate HandedOut(steps: seq<Step>, c: CommandId) {
    steps != [] && var front := steps[..|steps| - 1];
                   HandedOut(front, c) || HandsOut(Run(front), steps[|steps| - 1], c)
  }

  lemma {:induction false} NextHandsOut(w: World, step: Step, c: CommandId)
    requires ReportsKnown(w)
    ensures InQueue(Next(w, step), c) <==> InQueue(w, c) || HandsOut(w, step, c)
  {
    if step.Deliver? && step.msg in w.inflight && w.inflight[step.msg].Claim? {
      TakesOldest(w.order, w.state, w.inflight[step.msg].max);
    }
  }

  lemma {:induction false} NextKnows(w: World, step: Step, c: CommandId)
    requires forall x :: x in w.order <==> x in w.state
    ensures c in Next(w, step).state <==> c in w.state || step == Enqueue(c)
    ensures c in Next(w, step).order <==> c in Next(w, step).state
  {
    if !step.Enqueue? && !step.Deliver? {
      assert Next(w, step).state == w.state && Next(w, step).order == w.order;
    }
  }

  lemma {:induction false} QueueKnows(steps: seq<Step>, c: CommandId)
    ensures c in Run(steps).state <==> Enqueue(c) in steps
    ensures c in Run(steps).order <==> c in Run(steps).state
  {
    if steps != [] {
      var front, last := steps[..|steps| - 1], steps[|steps| - 1];
      forall x ensures x in Run(front).order <==> x in Run(front).state {
        QueueKnows(front, x);
      }
      QueueKnows(front, c);
      NextKnows(Run(front), last, c);
      assert steps == front + [last];
    }
  }

  lemma {:induction false} ClaimedOnce(steps: seq<Step>, c: CommandId)
    ensures InQueue(Run(steps), c) <==> HandedOut(steps, c)
  {
    if steps != [] {
      var front, last := steps[..|steps| - 1], steps[|steps| - 1];
      ClaimedOnce(front, c);
      RunKeepsKnown(front);
      NextHandsOut(Run(front), last, c);
    }
  }

  /** The queue, told by the steps: it has the commands that were put in; one of them is pending until a claim gets it,
      claimed until a report on it is delivered, and then shows what the last such report says. */
  lemma {:induction false} QueueExactly(steps: seq<Step>, c: CommandId)
    ensures c in Run(steps).state <==> Enqueue(c) in steps
    ensures Shows(Run(steps), c, Pending) <==> Enqueue(c) in steps && !HandedOut(steps, c)
    ensures Shows(Run(steps), c, Claimed) <==> HandedOut(steps, c) && Delivered(steps, c) == []
    ensures Shows(Run(steps), c, Completed) <==> LastSays(Delivered(steps, c), true)
    ensures Shows(Run(steps), c, Failed) <==> LastSays(Delivered(steps, c), false)
  {
    QueueKnows(steps, c);
    ClaimedOnce(steps, c);
    ShownExactly(steps, c);
  }

  // ---- when a success can still show ----

  predicate MayReportSuccess(ph: Phase, c: CommandId) {
    ph.Reporting? && ph.cmd == c && ph.ok && ph.attempt < ATTEMPTS
  }

  /** The queue shows success, or a report of success is under way, or the worker that reports it has attempts left. */
  ghost predicate SuccessInReach(w: World, c: CommandId) {
    || Shows(w, c, Completed)
    || (exists m :: m in w.inflight && w.inflight[m] == Report(c, true))
    || (exists k :: MayReportSuccess(At(w, k), c))
  }

  /** Executed, and never to be shown as completed. */
  ghost predicate Hopeless(w: World, c: CommandId) {
    c in w.state && Ran(w.history, c) && !SuccessInReach(w, c)
  }

  lemma {:induction false} DeliverKeepsHopeless(w: World, m: MessageId, c: CommandId)
    requires Inv(w) && Hopeless(w, c) && m in w.inflight
    ensures Hopeless(Serve(w, m), c)
  {
    var w' := Serve(w, m);
    assert w.state[c] != Pending;
    forall n | n in w'.inflight ensures w'.inflight[n] != Report(c, true) {
      assert n in w.inflight;
    }
    forall k ensures !MayReportSuccess(At(w', k), c) {
      assert At(w', k) == At(w, k);
    }
  }

  lemma {:induction false} WorkerDeltaSucceeds(w: World, step: Step, c: CommandId)
    requires !step.Enqueue? && !step.Deliver? && WorkerDelta(w, step).Some?
    requires c !in Unexecuted(At(w, step.worker)) && !MayReportSuccess(At(w, step.worker), c)
    ensures var d := WorkerDelta(w, step).value;
            && (d.send.Some? ==> d.send.value != Report(c, true))
            && !MayReportSuccess(d.phase, c)
  {
  }

  lemma {:induction false} DeltaKeepsHopeless(w: World, k: WorkerId, d: Delta, c: CommandId)
    requires Hopeless(w, c) && (d.send.Some? ==> d.send.value != Report(c, true)) && !MayReportSuccess(d.phase, c)
    ensures Hopeless(ApplyDelta(w, k, d), c)
  {
    var w' := ApplyDelta(w, k, d);
    forall n | n in w'.inflight ensures w'.inflight[n] != Report(c, true) {
      assert n in w.inflight || d.send == Some(w'.inflight[n]);
    }
    forall q ensures !MayReportSuccess(At(w', q), c) {
      assert q != k ==> At(w', q) == At(w, q);
    }
    RanStays(w.history, if d.event.Some? then [d.event.value] else [], c);
  }

  lemma {:induction false} EnqueueKeepsHopeless(w: World, d: CommandId, c: CommandId)
    requires Hopeless(w, c)
    ensures Hopeless(Next(w, Enqueue(d)), c)
  {
    var w' := Next(w, Enqueue(d));
    forall k ensures !MayReportSuccess(At(w', k), c) {
      assert At(w', k) == At(w, k);
    }
  }

  lemma {:induction false} NextKeepsHopeless(w: World, step: Step, c: CommandId)
    requires Inv(w) && Hopeless(w, c)
    ensures Hopeless(Next(w, step), c)
  {
    if step.Enqueue? {
      EnqueueKeepsHopeless(w, step.cmd, c);
    } else if step.Deliver? {
      if step.msg in w.inflight {
        DeliverKeepsHopeless(w, step.msg, c);
      }
    } else if WorkerDelta(w, step).Some? {
      ExecutedIsGone(w, step.worker, c);
      WorkerDeltaSucceeds(w, step, c);
      DeltaKeepsHopeless(w, step.worker, WorkerDelta(w, step).value, c);
    }
  }

  lemma {:induction false} HopelessForever(before: seq<Step>, after: seq<Step>, c: CommandId)
    requires Hopeless(Run(before), c)
    ensures Hopeless(Run(before + after), c)
  {
    forall w, step | Inv(w) && Hopeless(w, c) ensures Inv(Next(w, step)) && Hopeless(Next(w, step), c) {
      NextKeepsInv(w, step);
      NextKeepsHopeless(w, step, c);
    }
    RunKeepsInv(before);
    RunInduction(w => Inv(w) && Hopeless(w, c), before, after);
  }

  lemma {:induction false} SuccessCanShow(before: seq<Step>, c: CommandId) returns (after: seq<Step>)
    requires SuccessInReach(Run(before), c) && c in Run(before).state
    ensures Shows(Run(before + after), c, Completed)
  {
    var w := Run(before);
    if w.state[c] == Completed {
      assert before + [] == before;
      return [];
    }
    if m :| m in w.inflight && w.inflight[m] == Report(c, true) {
      RunOneMore(before, Deliver(m));
      return [Deliver(m)];
    }
    var k :| MayReportSuccess(At(w, k), c);
    var step := ReportGivesUp(k, true);
    RunOneMore(before, step);
    assert Run(before + [step]).inflight[w.nextMsg] == Report(c, true);
    RunOneMore(before + [step], Deliver(w.nextMsg));
    RunThen(before, step, [Deliver(w.nextMsg)]);
    return [step] + [Deliver(w.nextMsg)];
  }

  /** The exact condition: the queue can come to show an executed command as completed if and only if its success is
      shown, under way, or can still be reported. */
  lemma {:induction false} CompletedShowsExactly(before: seq<Step>, c: CommandId)
    requires Ran(Run(before).history, c)
    ensures (exists after :: Shows(Run(before + after), c, Completed)) <==> SuccessInReach(Run(before), c)
  {
    RunKeepsInv(before);
    if SuccessInReach(Run(before), c) {
      var after := SuccessCanShow(before, c);
    } else {
      forall after ensures !Shows(Run(before + after), c, Completed) {
        HopelessForever(before, after, c);
      }
    }
  }

  // ---- retries ----

  /** No worker goes beyond the retry limit. */
  ghost predicate AttemptsBounded(w: World) {
    forall k :: k in w.workers && (w.workers[k].Claiming? || w.workers[k].Reporting?) ==>
      1 <= w.workers[k].attempt <= ATTEMPTS
  }

  lemma {:induction false} NextKeepsAttempts(w: World, step: Step)
    requires AttemptsBounded(w)
    ensures AttemptsBounded(Next(w, step))
  {
  }

  lemma {:induction false} RunKeepsAttempts(steps: seq<Step>)
    ensures AttemptsBounded(Run(steps))
  {
    if steps != [] {
      RunKeepsAttempts(steps[..|steps| - 1]);
      NextKeepsAttempts(Run(steps[..|steps| - 1]), steps[|steps| - 1]);
    }
  }

  // ---- the oldest pending commands ----

  /** The pending commands of the queue, oldest first. */
  function AllPending(order: seq<CommandId>, state: map<CommandId, QueueState>): (cs: seq<CommandId>) {
    if order == [] then []
    else
      var last := order[|order| - 1];
      AllPending(order[..|order| - 1], state) + if last in state && state[last] == Pending then [last] else []
  }

  lemma {:induction false} AllPendingCons(c: CommandId, order: seq<CommandId>, state: map<CommandId, QueueState>)
    ensures AllPending([c] + order, state) ==
            (if c in state && state[c] == Pending then [c] else []) + AllPending(order, state)
  {
    var one := if c in state && state[c] == Pending then [c] else [];
    if order == [] {
      assert [c] + order == [c] && [c][..0] == [];
    } else {
      var n := |order| - 1;
      assert ([c] + order)[..n + 1] == [c] + order[..n];
      AllPendingCons(c, order[..n], state);
      ConcatAssoc(one, AllPending(order[..n], state),
                  if order[n] in state && state[order[n]] == Pending then [order[n]] else []);
    }
  }

  /** A claim gets the first pending commands: all of them, or as many as it asks for. */
  lemma {:induction false} TakesOldest(order: seq<CommandId>, state: map<CommandId, QueueState>, max: nat)
    ensures var all := AllPending(order, state);
            TakePending(order, state, max) == if |all| <= max then all else all[..max]
  {
    if order != [] {
      var rest := AllPending(order[1..], state);
      AllPendingCons(order[0], order[1..], state);
      assert [order[0]] + order[1..] == order;
      if max > 0 && order[0] in state && state[order[0]] == Pending {
        TakesOldest(order[1..], state, max - 1);
        assert |rest| > max - 1 ==> ([order[0]] + rest)[..max] == [order[0]] + rest[..max - 1];
      } else if max > 0 {
        TakesOldest(order[1..], state, max);
        assert [] + rest == rest;
      }
    }
  }
}
