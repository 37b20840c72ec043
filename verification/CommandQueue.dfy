/** The self-hosted command worker and the cloud's command queue over an unreliable network
    (scripts/empyralis_self_hosted_command_worker.py, scripts/mock_empyralis_cloud.py).

    Any number of workers claim, govern, execute and report. A request may be lost, delivered late, or its response
    may never be read; a worker that stops waiting sends the request again (up to the retry limit) or gives up, and a
    worker may crash and start over. `Run` ranges over all interleavings; resetting the queue is not a step. */
module CommandQueue {
  import opened Text

  type CommandId = nat
  type WorkerId = nat
  type MessageId = nat

  const ATTEMPTS := 3

  datatype QueueState = Pending | Claimed | Completed | Failed
  datatype Message = Claim(max: nat) | Report(cmd: CommandId, ok: bool)
  datatype Reply = Commands(cmds: seq<CommandId>) | Ack

  /** Where a worker is in its poll cycle. `fallback` marks the second report that `_poll_cycle` sends after
      `_process_command` raised. */
  datatype Phase =
    | Idle
    | Claiming(attempt: nat, msg: MessageId)
    | Busy(todo: seq<CommandId>)
    | Cleared(cmd: CommandId, todo: seq<CommandId>)
    | Reporting(cmd: CommandId, ok: bool, fallback: bool, attempt: nat, msg: MessageId, todo: seq<CommandId>)
  {
    /** The message whose reply the worker waits for. */
    function Awaits(): (m: Option<MessageId>) {
      if Claiming? || Reporting? then Some(msg) else None
    }
  }

  datatype Event = Allowed(cmd: CommandId) | Executed(cmd: CommandId, ok: bool)

  datatype Place = InReply(msg: MessageId) | AtWorker(worker: WorkerId)

  datatype World = World(
    order: seq<CommandId>,                 // the queue, oldest first
    state: map<CommandId, QueueState>,
    inflight: map<MessageId, Message>,     // sent, not delivered yet
    replies: map<MessageId, Reply>,        // answered, not read yet
    nextMsg: MessageId,
    workers: map<WorkerId, Phase>,
    history: seq<Event>,
    owner: map<CommandId, Place>)          // auxiliary: where a claimed, not yet executed command is

  const START := World([], map[], map[], map[], 0, map[], [], map[])

  datatype Step =
    | Enqueue(cmd: CommandId)
    | SendClaim(worker: WorkerId, max: nat)
    | Deliver(msg: MessageId)
    | ReadClaim(worker: WorkerId)
    | ClaimGivesUp(worker: WorkerId, again: bool, max: nat)
    | Skip(worker: WorkerId)                       // malformed command
    | Govern(worker: WorkerId, allow: bool)
    | Execute(worker: WorkerId, ok: bool)
    | ReadAck(worker: WorkerId)
    | ReportGivesUp(worker: WorkerId, again: bool)
    | Crash(worker: WorkerId)

  function At(w: World, k: WorkerId): (ph: Phase) {
    if k in w.workers then w.workers[k] else Idle
  }

  /** The first `max` pending commands, oldest first. */
  function TakePending(order: seq<CommandId>, state: map<CommandId, QueueState>, max: nat): (cs: seq<CommandId>)
    ensures forall c :: c in cs ==> c in order && c in state && state[c] == Pending
    ensures |cs| <= max
  {
    if order == [] || max == 0 then []
    else if order[0] in state && state[order[0]] == Pending then [order[0]] + TakePending(order[1..], state, max - 1)
    else TakePending(order[1..], state, max)
  }

  function MarkClaimed(state: map<CommandId, QueueState>, cs: seq<CommandId>): (r: map<CommandId, QueueState>) {
    map c | c in state :: if c in cs then Claimed else state[c]
  }

  function Give(owner: map<CommandId, Place>, cs: seq<CommandId>, place: Place): (r: map<CommandId, Place>) {
    map c | c in owner.Keys + (set x | x in cs) :: if c in cs then place else owner[c]
  }

  /** The server handles one request. */
  function Serve(w: World, m: MessageId): (r: World)
    requires m in w.inflight
  {
    var w' := w.(inflight := w.inflight - {m});
    match w.inflight[m]
    case Claim(max) =>
      var cs := TakePending(w.order, w.state, max);
      w'.(state := MarkClaimed(w.state, cs), replies := w.replies[m := Commands(cs)],
          owner := Give(w.owner, cs, InReply(m)))
    case Report(c, ok) =>
      if c in w.state
      then w'.(state := w.state[c := if ok then Completed else Failed], replies := w.replies[m := Ack])
      else w'
  }

  /** What a step of one worker does: its new phase, a message it sends, a reply it reads, an event it records. */
  datatype Delta = Delta(phase: Phase, send: Option<Message>, read: Option<MessageId>, event: Option<Event>)

  function StartReport(w: World, c: CommandId, ok: bool, fallback: bool, attempt: nat, todo: seq<CommandId>,
                       event: Option<Event>): (d: Delta)
  {
    Delta(Reporting(c, ok, fallback, attempt, w.nextMsg, todo), Some(Report(c, ok)), None, event)
  }

  function ClaimDelta(w: World, ph: Phase, step: Step): (d: Option<Delta>) {
    match step
    case SendClaim(_, max) =>
      if ph.Idle? then Some(Delta(Claiming(1, w.nextMsg), Some(Claim(max)), None, None)) else None
    case ReadClaim(_) =>
      if ph.Claiming? && ph.msg in w.replies && w.replies[ph.msg].Commands?
      then Some(Delta(Busy(w.replies[ph.msg].cmds), None, Some(ph.msg), None)) else None
    case ClaimGivesUp(_, again, max) =>
      if !ph.Claiming? then None
      else if again && ph.attempt < ATTEMPTS
      then Some(Delta(Claiming(ph.attempt + 1, w.nextMsg), Some(Claim(max)), None, None))
      else Some(Delta(Idle, None, None, None))
    case _ => None
  }

  function WorkDelta(w: World, ph: Phase, step: Step): (d: Option<Delta>) {
    match step
    case Skip(_) =>
      if !ph.Busy? then None
      else Some(Delta(if ph.todo == [] then Idle else Busy(ph.todo[1..]), None, None, None))
    case Govern(_, allow) =>
      if !ph.Busy? || ph.todo == [] then None
      else if allow then Some(Delta(Cleared(ph.todo[0], ph.todo[1..]), None, None, Some(Allowed(ph.todo[0]))))
      else Some(StartReport(w, ph.todo[0], false, false, 1, ph.todo[1..], None))
    case Execute(_, ok) =>
      if !ph.Cleared? then None
      else Some(StartReport(w, ph.cmd, ok, false, 1, ph.todo, Some(Executed(ph.cmd, ok))))
    case _ => None
  }

  function ReportDelta(w: World, ph: Phase, step: Step): (d: Option<Delta>) {
    match step
    case ReadAck(_) =>
      if ph.Reporting? && ph.msg in w.replies && w.replies[ph.msg].Ack?
      then Some(Delta(Busy(ph.todo), None, Some(ph.msg), None)) else None
    case ReportGivesUp(_, again) =>
      if !ph.Reporting? then None
      else if again && ph.attempt < ATTEMPTS
      then Some(StartReport(w, ph.cmd, ph.ok, ph.fallback, ph.attempt + 1, ph.todo, None))
      else if !ph.fallback then Some(StartReport(w, ph.cmd, false, true, 1, ph.todo, None))
      else Some(Delta(Busy(ph.todo), None, None, None))
    case Crash(_) => Some(Delta(Idle, None, None, None))
    case _ => None
  }

  function WorkerDelta(w: World, step: Step): (d: Option<Delta>)
    requires !step.Enqueue? && !step.Deliver?
  {
    var ph := At(w, step.worker);
    if step.SendClaim? || step.ReadClaim? || step.ClaimGivesUp? then ClaimDelta(w, ph, step)
    else if step.Skip? || step.Govern? || step.Execute? then WorkDelta(w, ph, step)
    else ReportDelta(w, ph, step)
  }

  /** Whose hands commands are in after a worker step. */
  function OwnerAfter(w: World, k: WorkerId, d: Delta): (owner: map<CommandId, Place>) {
    var owner :=
      if d.read.Some? && d.read.value in w.replies && w.replies[d.read.value].Commands?
      then Give(w.owner, w.replies[d.read.value].cmds, AtWorker(k)) else w.owner;
    if d.event.Some? && d.event.value.Executed? then owner - {d.event.value.cmd} else owner
  }

  function Send(w: World, m: Message): (r: World) {
    w.(inflight := w.inflight[w.nextMsg := m], nextMsg := w.nextMsg + 1)
  }

  function ApplyDelta(w: World, k: WorkerId, d: Delta): (r: World) {
    var sent := if d.send.Some? then Send(w, d.send.value) else w;
    sent.(workers := w.workers[k := d.phase],
          replies := if d.read.Some? then w.replies - {d.read.value} else w.replies,
          history := w.history + (if d.event.Some? then [d.event.value] else []),
          owner := OwnerAfter(w, k, d))
  }

  function Next(w: World, step: Step): (r: World) {
    match step
    case Enqueue(c) =>
      if c in w.state || c in w.order then w else w.(order := w.order + [c], state := w.state[c := Pending])
    case Deliver(m) => if m in w.inflight then Serve(w, m) else w
    case _ =>
      var d := WorkerDelta(w, step);
      if d.Some? then ApplyDelta(w, step.worker, d.value) else w
  }

  /** The world after any interleaving of steps. */
  function Run(steps: seq<Step>): (w: World) {
    if steps == [] then START else Next(Run(steps[..|steps| - 1]), steps[|steps| - 1])
  }

  // ---- the invariant ----

  /** Commands a worker still has to execute. */
  function Unexecuted(ph: Phase): (cs: seq<CommandId>) {
    match ph
    case Busy(todo) => todo
    case Cleared(c, todo) => [c] + todo
    case Reporting(_, _, _, _, _, todo) => todo
    case _ => []
  }

  ghost predicate Distinct(cs: seq<CommandId>) {
    forall i, j :: 0 <= i < j < |cs| ==> cs[i] != cs[j]
  }

  /** The commands of `cs` are all at `place`, and nowhere else. */
  ghost predicate HeldAt(owner: map<CommandId, Place>, cs: seq<CommandId>, place: Place) {
    Distinct(cs) && forall c :: c in cs ==> c in owner && owner[c] == place
  }

  ghost predicate Ran(history: seq<Event>, c: CommandId) {
    exists k :: 0 <= k < |history| && history[k].Executed? && history[k].cmd == c
  }

  ghost predicate CommandsInOnePlace(w: World) {
    && Distinct(w.order)
    && (forall m :: m in w.replies && w.replies[m].Commands? ==> HeldAt(w.owner, w.replies[m].cmds, InReply(m)))
    && (forall k :: k in w.workers ==> HeldAt(w.owner, Unexecuted(w.workers[k]), AtWorker(k)))
    && (forall c :: c in w.owner ==> c in w.state && w.state[c] != Pending && !Ran(w.history, c))
    && (forall c :: c in w.state && w.state[c] == Pending ==> !Ran(w.history, c))
    && (forall c :: Ran(w.history, c) ==> c in w.state)
  }

  /** Every message number in use was given out, and a reply belongs to no message that is still under way. */
  ghost predicate MessagesOk(w: World) {
    && (forall m :: m in w.inflight ==> m < w.nextMsg)
    && (forall m :: m in w.replies ==> m < w.nextMsg && m !in w.inflight)
    && (forall k :: k in w.workers && w.workers[k].Claiming? ==> w.workers[k].msg < w.nextMsg)
    && (forall k :: k in w.workers && w.workers[k].Reporting? ==> w.workers[k].msg < w.nextMsg)
  }

  /** Executions happen at most once each, and only after governance allowed them. */
  ghost predicate HistoryOk(history: seq<Event>) {
    && (forall i, j :: 0 <= i < j < |history| && history[i].Executed? && history[j].Executed? ==>
          history[i].cmd != history[j].cmd)
    && (forall i :: 0 <= i < |history| && history[i].Executed? ==> Allowed(history[i].cmd) in history[..i])
  }

  /** Success is only ever claimed for a command whose execution really ended as completed. */
  ghost predicate SuccessIsReal(w: World) {
    && (forall c :: c in w.state && w.state[c] == Completed ==> Executed(c, true) in w.history)
    && (forall m :: m in w.inflight && w.inflight[m].Report? && w.inflight[m].ok ==>
          Executed(w.inflight[m].cmd, true) in w.history)
    && (forall k :: k in w.workers && w.workers[k].Reporting? && w.workers[k].ok ==>
          Executed(w.workers[k].cmd, true) in w.history)
    && (forall k :: k in w.workers && w.workers[k].Cleared? ==> Allowed(w.workers[k].cmd) in w.history)
  }

  ghost predicate Inv(w: World) {
    CommandsInOnePlace(w) && MessagesOk(w) && HistoryOk(w.history) && SuccessIsReal(w)
  }

  lemma {:induction false} TakeIsDistinct(order: seq<CommandId>, state: map<CommandId, QueueState>, max: nat)
    requires Distinct(order)
    ensures Distinct(TakePending(order, state, max))
  {
    if order != [] && max != 0 {
      assert Distinct(order[1..]);
      TakeIsDistinct(order[1..], state, max);
      if order[0] in state && state[order[0]] == Pending {
        TakeIsDistinct(order[1..], state, max - 1);
        assert order[0] !in order[1..];
      }
    }
  }

  lemma {:induction false} GiveKeeps(owner: map<CommandId, Place>, cs: seq<CommandId>, place: Place,
                                     other: seq<CommandId>, there: Place)
    requires HeldAt(owner, other, there)
    requires forall c :: c in cs ==> c !in other
    ensures HeldAt(Give(owner, cs, place), other, there)
  {
  }

  // ---- worker steps, in general ----

  predicate Recorded(w: World, d: Delta, e: Event) {
    e in w.history || d.event == Some(e)
  }

  /** What all worker steps have in common, as far as the invariant needs it. */
  ghost predicate DeltaOk(w: World, k: WorkerId, d: Delta) {
    var old', new' := Unexecuted(At(w, k)), Unexecuted(d.phase);
    && (d.phase.Claiming? || d.phase.Reporting? ==> d.phase.msg == w.nextMsg && d.send.Some?)
    && (d.phase.Reporting? && d.phase.ok ==> Recorded(w, d, Executed(d.phase.cmd, true)))
    && (d.phase.Cleared? ==> Recorded(w, d, Allowed(d.phase.cmd)))
    && (d.send.Some? && d.send.value.Report? && d.send.value.ok ==> Recorded(w, d, Executed(d.send.value.cmd, true)))
    && (d.read.Some? ==> d.read.value in w.replies && d.event.None? && At(w, k).Awaits() == d.read)
    && (if d.read.Some? && w.replies[d.read.value].Commands?
        then new' == w.replies[d.read.value].cmds
        else new' == old' || new' == [] || (old' != [] && new' == old'[1..]))
    && (d.event.Some? && d.event.value.Executed? ==>
          && Allowed(d.event.value.cmd) in w.history
          && old' != [] && old'[0] == d.event.value.cmd && new' == old'[1..])
  }

  lemma {:induction false} WorkerDeltaOk(w: World, step: Step)
    requires SuccessIsReal(w) && !step.Enqueue? && !step.Deliver? && WorkerDelta(w, step).Some?
    ensures DeltaOk(w, step.worker, WorkerDelta(w, step).value)
  {
    var ph, d := At(w, step.worker), WorkerDelta(w, step).value;
    if ph.Busy? && ph.todo != [] {
      assert [ph.todo[0]] + ph.todo[1..] == ph.todo;
    }
    if ph.Cleared? {
      assert ([ph.cmd] + ph.todo)[1..] == ph.todo;
    }
  }

  // ---- commands are in one place ----

  lemma {:induction false} DeliverKeepsPlaces(w: World, m: MessageId)
    requires CommandsInOnePlace(w) && MessagesOk(w) && m in w.inflight
    ensures CommandsInOnePlace(Serve(w, m))
  {
    var w' := Serve(w, m);
    if w.inflight[m].Claim? {
      var cs := TakePending(w.order, w.state, w.inflight[m].max);
      TakeIsDistinct(w.order, w.state, w.inflight[m].max);
      forall n | n in w'.replies && w'.replies[n].Commands?
        ensures HeldAt(w'.owner, w'.replies[n].cmds, InReply(n))
      {
        if n != m {
          GiveKeeps(w.owner, cs, InReply(m), w.replies[n].cmds, InReply(n));
        }
      }
      forall k | k in w'.workers ensures HeldAt(w'.owner, Unexecuted(w'.workers[k]), AtWorker(k)) {
        GiveKeeps(w.owner, cs, InReply(m), Unexecuted(w.workers[k]), AtWorker(k));
      }
    }
  }

  lemma {:induction false} RanExtends(history: seq<Event>, e: Event)
    ensures forall c :: Ran(history + [e], c) <==> Ran(history, c) || (e.Executed? && e.cmd == c)
  {
    var h := history + [e];
    forall c ensures Ran(h, c) <==> Ran(history, c) || (e.Executed? && e.cmd == c) {
      if Ran(history, c) {
        var k :| 0 <= k < |history| && history[k].Executed? && history[k].cmd == c;
        assert h[k] == history[k];
      }
      if e.Executed? && e.cmd == c {
        assert h[|history|] == e;
      }
    }
  }

  lemma {:induction false} TailIsHeld(owner: map<CommandId, Place>, cs: seq<CommandId>, place: Place)
    requires HeldAt(owner, cs, place) && cs != []
    ensures HeldAt(owner, cs[1..], place) && cs[0] !in cs[1..]
  {
  }

  /** The worker reads the reply to its claim. */
  lemma {:induction false} ReadingKeepsPlaces(w: World, k: WorkerId, d: Delta)
    requires CommandsInOnePlace(w) && DeltaOk(w, k, d)
    requires d.read.Some? && w.replies[d.read.value].Commands?
    ensures CommandsInOnePlace(ApplyDelta(w, k, d))
  {
    var m := d.read.value;
    var cs := w.replies[m].cmds;
    var w' := ApplyDelta(w, k, d);
    assert w'.history == w.history;
    assert HeldAt(w.owner, cs, InReply(m));
    forall n | n in w'.replies && w'.replies[n].Commands?
      ensures HeldAt(w'.owner, w'.replies[n].cmds, InReply(n))
    {
      assert HeldAt(w.owner, w.replies[n].cmds, InReply(n));
      GiveKeeps(w.owner, cs, AtWorker(k), w.replies[n].cmds, InReply(n));
    }
    forall j | j in w'.workers ensures HeldAt(w'.owner, Unexecuted(w'.workers[j]), AtWorker(j)) {
      if j != k {
        GiveKeeps(w.owner, cs, AtWorker(k), Unexecuted(w.workers[j]), AtWorker(j));
      }
    }
  }

  /** Any other worker step: the worker's commands get fewer, and an executed one leaves all places. */
  lemma {:induction false} WorkingKeepsPlaces(w: World, k: WorkerId, d: Delta)
    requires CommandsInOnePlace(w) && DeltaOk(w, k, d)
    requires !(d.read.Some? && w.replies[d.read.value].Commands?)
    ensures CommandsInOnePlace(ApplyDelta(w, k, d))
  {
    var w' := ApplyDelta(w, k, d);
    var old', new' := Unexecuted(At(w, k)), Unexecuted(d.phase);
    assert HeldAt(w.owner, old', AtWorker(k));
    if old' != [] {
      TailIsHeld(w.owner, old', AtWorker(k));
    }
    if d.event.Some? {
      RanExtends(w.history, d.event.value);
    } else {
      assert w'.history == w.history;
    }
    var gone: set<CommandId> := if d.event.Some? && d.event.value.Executed? then {d.event.value.cmd} else {};
    assert w'.owner == w.owner - gone;
    forall n | n in w'.replies && w'.replies[n].Commands?
      ensures HeldAt(w'.owner, w'.replies[n].cmds, InReply(n))
    {
      assert HeldAt(w.owner, w.replies[n].cmds, InReply(n));
    }
    forall j | j in w'.workers ensures HeldAt(w'.owner, Unexecuted(w'.workers[j]), AtWorker(j)) {
      if j != k {
        assert HeldAt(w.owner, Unexecuted(w.workers[j]), AtWorker(j));
      }
    }
  }

  // ---- the other parts ----

  lemma {:induction false} WorkerKeepsMessages(w: World, k: WorkerId, d: Delta)
    requires MessagesOk(w) && DeltaOk(w, k, d)
    ensures MessagesOk(ApplyDelta(w, k, d))
  {
  }

  /** Only a worker that was allowed to, and that holds the command, executes it. */
  lemma {:induction false} WorkerKeepsHistory(w: World, k: WorkerId, d: Delta)
    requires CommandsInOnePlace(w) && HistoryOk(w.history) && DeltaOk(w, k, d)
    ensures HistoryOk(ApplyDelta(w, k, d).history)
  {
    if d.event.Some? {
      var e := d.event.value;
      var h := w.history + [e];
      if e.Executed? {
        assert HeldAt(w.owner, Unexecuted(At(w, k)), AtWorker(k));
        assert !Ran(w.history, e.cmd);
      }
      forall i | 0 <= i < |h| && h[i].Executed? ensures Allowed(h[i].cmd) in h[..i] {
        assert h[..i] == if i < |w.history| then w.history[..i] else w.history;
      }
    } else {
      assert w.history + [] == w.history;
    }
  }

  lemma {:induction false} WorkerKeepsSuccess(w: World, k: WorkerId, d: Delta)
    requires SuccessIsReal(w) && DeltaOk(w, k, d)
    ensures SuccessIsReal(ApplyDelta(w, k, d))
  {
    var w' := ApplyDelta(w, k, d);
    forall e | Recorded(w, d, e) ensures e in w'.history {
      if d.event == Some(e) {
        assert w'.history[|w.history|] == e;
      }
    }
    assert forall m :: m in w'.inflight ==>
        (m in w.inflight && w'.inflight[m] == w.inflight[m]) || d.send == Some(w'.inflight[m]);
  }

  lemma {:induction false} DeliverKeepsMessages(w: World, m: MessageId)
    requires MessagesOk(w) && m in w.inflight
    ensures MessagesOk(Serve(w, m))
  {
  }

  lemma {:induction false} DeliverKeepsSuccess(w: World, m: MessageId)
    requires SuccessIsReal(w) && m in w.inflight
    ensures SuccessIsReal(Serve(w, m)) && Serve(w, m).history == w.history
  {
    var w' := Serve(w, m);
    forall c | c in w'.state && w'.state[c] == Completed ensures Executed(c, true) in w.history {
      assert w.inflight[m] == Report(c, true) || (c in w.state && w.state[c] == Completed);
    }
  }

  lemma {:induction false} DeliverKeepsInv(w: World, m: MessageId)
    requires Inv(w) && m in w.inflight
    ensures Inv(Serve(w, m))
  {
    DeliverKeepsPlaces(w, m);
    DeliverKeepsMessages(w, m);
    DeliverKeepsSuccess(w, m);
  }

  lemma {:induction false} EnqueueKeepsInv(w: World, c: CommandId)
    requires Inv(w)
    ensures Inv(Next(w, Enqueue(c)))
  {
  }

  lemma {:induction false} DeltaKeepsInv(w: World, k: WorkerId, d: Delta)
    requires Inv(w) && DeltaOk(w, k, d)
    ensures Inv(ApplyDelta(w, k, d))
  {
    if d.read.Some? && w.replies[d.read.value].Commands? {
      ReadingKeepsPlaces(w, k, d);
    } else {
      WorkingKeepsPlaces(w, k, d);
    }
    WorkerKeepsMessages(w, k, d);
    WorkerKeepsHistory(w, k, d);
    WorkerKeepsSuccess(w, k, d);
  }

  lemma {:induction false} NextKeepsInv(w: World, step: Step)
    requires Inv(w)
    ensures Inv(Next(w, step))
  {
    if step.Enqueue? {
      EnqueueKeepsInv(w, step.cmd);
    } else if step.Deliver? {
      if step.msg in w.inflight {
        DeliverKeepsInv(w, step.msg);
      }
    } else if WorkerDelta(w, step).Some? {
      WorkerDeltaOk(w, step);
      DeltaKeepsInv(w, step.worker, WorkerDelta(w, step).value);
    }
  }

  lemma {:induction false} RunOneMore(steps: seq<Step>, step: Step)
    ensures Run(steps + [step]) == Next(Run(steps), step)
  {
    assert (steps + [step])[..|steps|] == steps;
  }

  /** Induction over runs: what every step keeps stays true. */
  lemma {:induction false} RunInduction(p: World -> bool, before: seq<Step>, after: seq<Step>)
    requires p(Run(before)) && forall w, step :: p(w) ==> p(Next(w, step))
    ensures p(Run(before + after))
    decreases |after|
  {
    if after == [] {
      assert before + after == before;
    } else {
      RunOneMore(before, after[0]);
      RunInduction(p, before + [after[0]], after[1..]);
      assert before + after == (before + [after[0]]) + after[1..];
    }
  }

  lemma {:induction false} RunKeepsInv(steps: seq<Step>)
    ensures Inv(Run(steps))
  {
    forall w, step | Inv(w) ensures Inv(Next(w, step)) {
      NextKeepsInv(w, step);
    }
    RunInduction(w => Inv(w), [], steps);
    assert [] + steps == steps;
  }

  /** Across all polls, with lost or late requests and responses, retries and crashes: each command is executed at
      most once, and only after governance allowed it. */
  lemma {:induction false} ExecutedAtMostOnceAfterGovernance(steps: seq<Step>)
    ensures var h := Run(steps).history;
            && (forall i, j :: 0 <= i < |h| && 0 <= j < |h| && h[i].Executed? && h[j].Executed? && h[i].cmd == h[j].cmd
                  ==> i == j)
            && (forall i :: 0 <= i < |h| && h[i].Executed? ==> Allowed(h[i].cmd) in h[..i])
  {
    RunKeepsInv(steps);
  }

  /** The queue shows "completed" only for a command whose execution really ended as completed. */
  lemma {:induction false} CompletedIsReal(steps: seq<Step>, c: CommandId)
    requires c in Run(steps).state && Run(steps).state[c] == Completed
    ensures Executed(c, true) in Run(steps).history
  {
    RunKeepsInv(steps);
  }

  // ---- which claimed commands can still be executed ----

  /** Worker `k` still has the command, or waits for the response that brings it. */
  predicate HasOrAwaits(w: World, k: WorkerId, c: CommandId) {
    var ph := At(w, k);
    || c in Unexecuted(ph)
    || (ph.Claiming? && ph.msg in w.replies && w.replies[ph.msg].Commands? && c in w.replies[ph.msg].cmds)
  }

  ghost predicate InReach(w: World, c: CommandId) {
    exists k :: HasOrAwaits(w, k, c)
  }

  /** The command was claimed, has not been executed, and no worker has it or waits for it. */
  ghost predicate Lost(w: World, c: CommandId) {
    c in w.state && w.state[c] != Pending && !Ran(w.history, c) && !InReach(w, c)
  }

  /** Only a worker that claims reads commands, and it executes only what it has. */
  lemma {:induction false} WorkerDeltaReads(w: World, step: Step)
    requires !step.Enqueue? && !step.Deliver? && WorkerDelta(w, step).Some?
    ensures var ph, d := At(w, step.worker), WorkerDelta(w, step).value;
            && (d.read.Some? && d.read.value in w.replies && w.replies[d.read.value].Commands? ==>
                  ph.Claiming? && ph.msg == d.read.value)
            && (d.phase.Claiming? ==> d.phase.msg == w.nextMsg)
  {
  }

  lemma {:induction false} DeliverKeepsLost(w: World, m: MessageId, c: CommandId)
    requires MessagesOk(w) && Lost(w, c) && m in w.inflight
    ensures Lost(Serve(w, m), c)
  {
    var w' := Serve(w, m);
    forall k ensures !HasOrAwaits(w', k, c) {
      assert !HasOrAwaits(w, k, c);
      assert At(w', k) == At(w, k);
    }
  }

  lemma {:induction false} DeltaKeepsLost(w: World, k: WorkerId, d: Delta, c: CommandId)
    requires MessagesOk(w) && Lost(w, c) && DeltaOk(w, k, d)
    requires d.read.Some? && w.replies[d.read.value].Commands? ==> At(w, k).Claiming? && At(w, k).msg == d.read.value
    requires d.phase.Claiming? ==> d.phase.msg == w.nextMsg
    ensures Lost(ApplyDelta(w, k, d), c)
  {
    var w' := ApplyDelta(w, k, d);
    assert !HasOrAwaits(w, k, c);
    assert c !in Unexecuted(d.phase);
    forall q ensures !HasOrAwaits(w', q, c) {
      assert !HasOrAwaits(w, q, c);
      assert q != k ==> At(w', q) == At(w, q);
    }
    if d.event.Some? {
      RanExtends(w.history, d.event.value);
    }
  }

  lemma {:induction false} NextKeepsLost(w: World, step: Step, c: CommandId)
    requires Inv(w) && Lost(w, c)
    ensures Lost(Next(w, step), c)
  {
    if step.Enqueue? {
      EnqueueKeepsLost(w, step.cmd, c);
    } else if step.Deliver? {
      if step.msg in w.inflight {
        DeliverKeepsLost(w, step.msg, c);
      }
    } else if WorkerDelta(w, step).Some? {
      WorkerDeltaOk(w, step);
      WorkerDeltaReads(w, step);
      DeltaKeepsLost(w, step.worker, WorkerDelta(w, step).value, c);
    }
  }

  lemma {:induction false} EnqueueKeepsLost(w: World, d: CommandId, c: CommandId)
    requires Lost(w, c)
    ensures Lost(Next(w, Enqueue(d)), c)
  {
    var w' := Next(w, Enqueue(d));
    forall k ensures !HasOrAwaits(w', k, c) {
      assert !HasOrAwaits(w, k, c);
    }
  }

  /** No continuation executes a lost command, or makes it pending again. */
  lemma {:induction false} LostForever(before: seq<Step>, after: seq<Step>, c: CommandId)
    requires Lost(Run(before), c)
    ensures Lost(Run(before + after), c)
  {
    forall w, step | Inv(w) && Lost(w, c) ensures Inv(Next(w, step)) && Lost(Next(w, step), c) {
      NextKeepsInv(w, step);
      NextKeepsLost(w, step, c);
    }
    RunKeepsInv(before);
    RunInduction(w => Inv(w) && Lost(w, c), before, after);
  }

  /** How many steps a worker needs at most before it is free for its next command. */
  function Rank(ph: Phase): (n: nat) {
    if ph.Reporting? then if ph.fallback then 1 else 2 else 0
  }

  lemma {:induction false} RunThen(before: seq<Step>, step: Step, after: seq<Step>)
    ensures Run(before + ([step] + after)) == Run((before + [step]) + after)
  {
    assert before + ([step] + after) == (before + [step]) + after;
  }

  lemma {:induction false} ExecuteRecords(before: seq<Step>, k: WorkerId)
    requires At(Run(before), k).Cleared?
    ensures Ran(Run(before + [Execute(k, true)]).history, At(Run(before), k).cmd)
  {
    var w := Run(before);
    RunOneMore(before, Execute(k, true));
    assert Run(before + [Execute(k, true)]).history[|w.history|] == Executed(At(w, k).cmd, true);
  }

  /** A worker that has the command can go on to execute it. */
  lemma {:induction false} HolderCanExecute(before: seq<Step>, k: WorkerId, c: CommandId) returns (after: seq<Step>)
    requires c in Unexecuted(At(Run(before), k))
    ensures Ran(Run(before + after).history, c)
    decreases |Unexecuted(At(Run(before), k))|, Rank(At(Run(before), k))
  {
    var ph := At(Run(before), k);
    if ph.Cleared? && ph.cmd == c {
      ExecuteRecords(before, k);
      return [Execute(k, true)];
    }
    if ph.Busy? && ph.todo[0] == c {
      RunOneMore(before, Govern(k, true));
      ExecuteRecords(before + [Govern(k, true)], k);
      RunThen(before, Govern(k, true), [Execute(k, true)]);
      return [Govern(k, true)] + [Execute(k, true)];
    }
    var step := if ph.Busy? then Skip(k) else if ph.Cleared? then Execute(k, true) else ReportGivesUp(k, false);
    RunOneMore(before, step);
    HolderMovesOn(Run(before), k, c, step);
    var rest := HolderCanExecute(before + [step], k, c);
    RunThen(before, step, rest);
    return [step] + rest;
  }

  lemma {:induction false} HolderMovesOn(w: World, k: WorkerId, c: CommandId, step: Step)
    requires var ph := At(w, k);
             && c in Unexecuted(ph) && (ph.Busy? ==> ph.todo[0] != c) && (ph.Cleared? ==> ph.cmd != c)
             && step == if ph.Busy? then Skip(k) else if ph.Cleared? then Execute(k, true) else ReportGivesUp(k, false)
    ensures var ph, ph' := At(w, k), At(Next(w, step), k);
            && c in Unexecuted(ph')
            && (|Unexecuted(ph')| < |Unexecuted(ph)|
                || (|Unexecuted(ph')| == |Unexecuted(ph)| && Rank(ph') < Rank(ph)))
  {
  }

  /** The exact condition: a command that was claimed and has not been executed can still be executed by some
      continuation if and only if some worker has it or waits for the response that brings it. */
  lemma {:induction false} ExecutableExactlyInReach(before: seq<Step>, c: CommandId)
    requires var w := Run(before); c in w.state && w.state[c] != Pending && !Ran(w.history, c)
    ensures (exists after :: Ran(Run(before + after).history, c)) <==> InReach(Run(before), c)
  {
    if InReach(Run(before), c) {
      var after := ReachableCanExecute(before, c);
    } else {
      forall after ensures !Ran(Run(before + after).history, c) {
        LostForever(before, after, c);
      }
    }
  }

  lemma {:induction false} ReachableCanExecute(before: seq<Step>, c: CommandId) returns (after: seq<Step>)
    requires InReach(Run(before), c)
    ensures Ran(Run(before + after).history, c)
  {
    var w := Run(before);
    var k :| HasOrAwaits(w, k, c);
    if c in Unexecuted(At(w, k)) {
      after := HolderCanExecute(before, k, c);
    } else {
      RunOneMore(before, ReadClaim(k));
      var rest := HolderCanExecute(before + [ReadClaim(k)], k, c);
      RunThen(before, ReadClaim(k), rest);
      after := [ReadClaim(k)] + rest;
    }
  }

  // ---- when a completed command is shown as failed ----

  /** Worker `k` can still send a report of failure about `c`. */
  predicate MayReportFailure(ph: Phase, c: CommandId) {
    ph.Reporting? && ph.cmd == c && (!ph.fallback || ph.attempt < ATTEMPTS)
  }

  /** The queue shows failure, or a report of failure is under way, or the worker that reports can still send one: its
      first report can give up, or its second, which always reports failure, has attempts left. */
  ghost predicate FailureInReach(w: World, c: CommandId) {
    || (c in w.state && w.state[c] == Failed)
    || (exists m :: m in w.inflight && w.inflight[m] == Report(c, false))
    || (exists k :: MayReportFailure(At(w, k), c))
  }

  /** A second report is a report of failure. */
  ghost predicate FallbackFails(w: World) {
    forall k :: At(w, k).Reporting? && At(w, k).fallback ==> !At(w, k).ok
  }

  lemma {:induction false} NextKeepsFallback(w: World, step: Step)
    requires FallbackFails(w)
    ensures FallbackFails(Next(w, step))
  {
    var w' := Next(w, step);
    forall k | At(w', k).Reporting? && At(w', k).fallback ensures !At(w', k).ok {
      if At(w', k) != At(w, k) {
        assert k == step.worker;
      }
    }
  }

  lemma {:induction false} RunKeepsFallback(steps: seq<Step>)
    ensures FallbackFails(Run(steps))
  {
    forall w, step | FallbackFails(w) ensures FallbackFails(Next(w, step)) {
      NextKeepsFallback(w, step);
    }
    RunInduction(w => FallbackFails(w), [], steps);
    assert [] + steps == steps;
  }

  /** Executed, and never to be shown as failed. */
  ghost predicate Safe(w: World, c: CommandId) {
    c in w.state && Ran(w.history, c) && !FailureInReach(w, c)
  }

  /** Nobody has a command that was executed. */
  lemma {:induction false} ExecutedIsGone(w: World, k: WorkerId, c: CommandId)
    requires CommandsInOnePlace(w) && Ran(w.history, c)
    ensures c !in Unexecuted(At(w, k))
  {
    if k in w.workers {
      assert HeldAt(w.owner, Unexecuted(w.workers[k]), AtWorker(k));
    }
  }

  lemma {:induction false} DeliverKeepsSafe(w: World, m: MessageId, c: CommandId)
    requires Inv(w) && Safe(w, c) && m in w.inflight
    ensures Safe(Serve(w, m), c)
  {
    var w' := Serve(w, m);
    assert w.state[c] != Pending;
    forall n | n in w'.inflight ensures w'.inflight[n] != Report(c, false) {
      assert n in w.inflight;
    }
    forall k ensures !MayReportFailure(At(w', k), c) {
      assert At(w', k) == At(w, k);
    }
  }

  /** A worker step sends a report about `c` only if it already reports on it or has it. */
  lemma {:induction false} WorkerDeltaReports(w: World, step: Step, c: CommandId)
    requires !step.Enqueue? && !step.Deliver? && WorkerDelta(w, step).Some?
    requires c !in Unexecuted(At(w, step.worker)) && !MayReportFailure(At(w, step.worker), c)
    ensures var d := WorkerDelta(w, step).value;
            && (d.send.Some? ==> d.send.value != Report(c, false))
            && !MayReportFailure(d.phase, c)
  {
  }

  lemma {:induction false} RanStays(history: seq<Event>, more: seq<Event>, c: CommandId)
    requires Ran(history, c)
    ensures Ran(history + more, c)
  {
    var k :| 0 <= k < |history| && history[k].Executed? && history[k].cmd == c;
    assert (history + more)[k] == history[k];
  }

  lemma {:induction false} DeltaKeepsSafe(w: World, k: WorkerId, d: Delta, c: CommandId)
    requires Safe(w, c) && (d.send.Some? ==> d.send.value != Report(c, false)) && !MayReportFailure(d.phase, c)
    ensures Safe(ApplyDelta(w, k, d), c)
  {
    var w' := ApplyDelta(w, k, d);
    forall n | n in w'.inflight ensures w'.inflight[n] != Report(c, false) {
      assert n in w.inflight || d.send == Some(w'.inflight[n]);
    }
    forall q ensures !MayReportFailure(At(w', q), c) {
      assert q != k ==> At(w', q) == At(w, q);
    }
    RanStays(w.history, if d.event.Some? then [d.event.value] else [], c);
  }

  lemma {:induction false} EnqueueKeepsSafe(w: World, d: CommandId, c: CommandId)
    requires Safe(w, c)
    ensures Safe(Next(w, Enqueue(d)), c)
  {
    var w' := Next(w, Enqueue(d));
    forall k ensures !MayReportFailure(At(w', k), c) {
      assert At(w', k) == At(w, k);
    }
  }

  lemma {:induction false} NextKeepsSafe(w: World, step: Step, c: CommandId)
    requires Inv(w) && Safe(w, c)
    ensures Safe(Next(w, step), c)
  {
    if step.Enqueue? {
      EnqueueKeepsSafe(w, step.cmd, c);
    } else if step.Deliver? {
      if step.msg in w.inflight {
        DeliverKeepsSafe(w, step.msg, c);
      }
    } else if WorkerDelta(w, step).Some? {
      ExecutedIsGone(w, step.worker, c);
      WorkerDeltaReports(w, step, c);
      DeltaKeepsSafe(w, step.worker, WorkerDelta(w, step).value, c);
    }
  }

  lemma {:induction false} SafeForever(before: seq<Step>, after: seq<Step>, c: CommandId)
    requires Safe(Run(before), c)
    ensures Safe(Run(before + after), c)
  {
    forall w, step | Inv(w) && Safe(w, c) ensures Inv(Next(w, step)) && Safe(Next(w, step), c) {
      NextKeepsInv(w, step);
      NextKeepsSafe(w, step, c);
    }
    RunKeepsInv(before);
    RunInduction(w => Inv(w) && Safe(w, c), before, after);
  }

  lemma {:induction false} FailureCanShow(before: seq<Step>, c: CommandId) returns (after: seq<Step>)
    requires FailureInReach(Run(before), c) && c in Run(before).state
    ensures var w := Run(before + after); c in w.state && w.state[c] == Failed
  {
    var w := Run(before);
    if w.state[c] == Failed {
      assert before + [] == before;
      return [];
    }
    if m :| m in w.inflight && w.inflight[m] == Report(c, false) {
      RunOneMore(before, Deliver(m));
      return [Deliver(m)];
    }
    var k :| MayReportFailure(At(w, k), c);
    RunKeepsFallback(before);
    var step := ReportGivesUp(k, At(w, k).fallback);
    RunOneMore(before, step);
    assert Run(before + [step]).inflight[w.nextMsg] == Report(c, false);
    RunOneMore(before + [step], Deliver(w.nextMsg));
    RunThen(before, step, [Deliver(w.nextMsg)]);
    return [step] + [Deliver(w.nextMsg)];
  }

  /** The exact condition: the queue can come to show an executed command as failed, also one whose execution completed,
      if and only if a failure of it is shown, under way, or can still be reported. */
  lemma {:induction false} FailedShowsExactly(before: seq<Step>, c: CommandId)
    requires Ran(Run(before).history, c)
    ensures (exists after :: c in Run(before + after).state && Run(before + after).state[c] == Failed)
            <==> FailureInReach(Run(before), c)
  {
    RunKeepsInv(before);
    if FailureInReach(Run(before), c) {
      var after := FailureCanShow(before, c);
    } else {
      forall after ensures !(c in Run(before + after).state && Run(before + after).state[c] == Failed) {
        SafeForever(before, after, c);
      }
    }
  }

  // ---- three runs ----

  const CLAIMED: seq<Step> := [Enqueue(7), SendClaim(1, 5), Deliver(0)]

  lemma {:induction false} EnqueuedRun()
    ensures var w := Run([Enqueue(7)]);
            w == START.(order := [7], state := map[7 := Pending])
  {
    RunOneMore([], Enqueue(7));
    assert [] + [Enqueue(7)] == [Enqueue(7)];
  }

  lemma {:induction false} SentRun()
    ensures var w := Run([Enqueue(7), SendClaim(1, 5)]);
            && w.order == [7] && w.state == map[7 := Pending] && w.inflight == map[0 := Claim(5)] && w.replies == map[]
            && w.nextMsg == 1 && w.workers == map[1 := Claiming(1, 0)] && w.history == []
  {
    EnqueuedRun();
    RunOneMore([Enqueue(7)], SendClaim(1, 5));
    assert [Enqueue(7)] + [SendClaim(1, 5)] == [Enqueue(7), SendClaim(1, 5)];
  }

  lemma {:induction false} TakeOnly(c: CommandId, max: nat)
    requires max > 0
    ensures TakePending([c], map[c := Pending], max) == [c]
  {
    assert [c][1..] == [] && [c] + [] == [c];
  }

  /** A worker has claimed command 7 and waits for the response. */
  lemma {:induction false} ClaimedRun()
    ensures var w := Run(CLAIMED);
            && w.order == [7] && w.state == map[7 := Claimed]
            && w.inflight == map[] && w.replies == map[0 := Commands([7])]
            && w.nextMsg == 1 && w.workers == map[1 := Claiming(1, 0)] && w.history == []
  {
    SentRun();
    TakeOnly(7, 5);
    RunOneMore([Enqueue(7), SendClaim(1, 5)], Deliver(0));
    assert [Enqueue(7), SendClaim(1, 5)] + [Deliver(0)] == CLAIMED;
  }

  /** Lost with the response: the worker stops waiting for it. */
  lemma {:induction false} LostWithResponse()
    ensures Lost(Run(CLAIMED + [ClaimGivesUp(1, false, 0)]), 7)
    ensures Run(CLAIMED + [ClaimGivesUp(1, false, 0)]).state[7] == Claimed
  {
    ClaimedRun();
    RunOneMore(CLAIMED, ClaimGivesUp(1, false, 0));
    var w := Run(CLAIMED + [ClaimGivesUp(1, false, 0)]);
    assert forall k :: At(w, k) == Idle;
  }

  lemma {:induction false} ReadRun()
    ensures var w := Run(CLAIMED + [ReadClaim(1)]);
            && w.workers == map[1 := Busy([7])] && w.nextMsg == 1 && w.state == map[7 := Claimed] && w.history == []
  {
    ClaimedRun();
    RunOneMore(CLAIMED, ReadClaim(1));
  }

  /** Lost in a crash: the worker has read the response and starts over. */
  lemma {:induction false} LostInCrash()
    ensures Lost(Run(CLAIMED + [ReadClaim(1)] + [Crash(1)]), 7)
    ensures Run(CLAIMED + [ReadClaim(1)] + [Crash(1)]).state[7] == Claimed
  {
    ReadRun();
    RunOneMore(CLAIMED + [ReadClaim(1)], Crash(1));
    CrashLoses(Run(CLAIMED + [ReadClaim(1)]), 1, 7);
  }

  lemma {:induction false} CrashLoses(w: World, k: WorkerId, c: CommandId)
    requires w.workers == map[k := Busy([c])] && c in w.state && w.state[c] == Claimed && w.history == []
    ensures Lost(Next(w, Crash(k)), c) && Next(w, Crash(k)).state == w.state
  {
    var w' := Next(w, Crash(k));
    assert forall q :: At(w', q) == Idle;
  }

  lemma {:induction false} GovernAllows(w: World, k: WorkerId, c: CommandId)
    requires At(w, k) == Busy([c])
    ensures var w' := Next(w, Govern(k, true));
            && At(w', k) == Cleared(c, []) && w'.nextMsg == w.nextMsg && w'.state == w.state
            && w'.history == w.history + [Allowed(c)]
  {
    assert [c][1..] == [];
  }

  lemma {:induction false} AllowedRun()
    ensures var w := Run(CLAIMED + [ReadClaim(1)] + [Govern(1, true)]);
            && At(w, 1) == Cleared(7, []) && w.nextMsg == 1 && w.state == map[7 := Claimed] && w.history == [Allowed(7)]
  {
    ReadRun();
    RunOneMore(CLAIMED + [ReadClaim(1)], Govern(1, true));
    GovernAllows(Run(CLAIMED + [ReadClaim(1)]), 1, 7);
  }

  lemma {:induction false} ExecutedRun()
    ensures var w := Run(CLAIMED + [ReadClaim(1)] + [Govern(1, true)] + [Execute(1, true)]);
            && At(w, 1) == Reporting(7, true, false, 1, 1, []) && w.nextMsg == 2
            && w.state == map[7 := Claimed] && w.history == [Allowed(7)] + [Executed(7, true)]
  {
    AllowedRun();
    RunOneMore(CLAIMED + [ReadClaim(1)] + [Govern(1, true)], Execute(1, true));
  }

  /** The report of a completed execution is lost, and the second report shows the command as failed. */
  lemma {:induction false} LostReportShowsFailed()
    ensures var w := Run(CLAIMED + [ReadClaim(1)] + [Govern(1, true)] + [Execute(1, true)]
                         + [ReportGivesUp(1, false)] + [Deliver(2)]);
            7 in w.state && w.state[7] == Failed && Executed(7, true) in w.history
  {
    ExecutedRun();
    var steps := CLAIMED + [ReadClaim(1)] + [Govern(1, true)] + [Execute(1, true)];
    RunOneMore(steps, ReportGivesUp(1, false));
    RunOneMore(steps + [ReportGivesUp(1, false)], Deliver(2));
    assert Run(steps + [ReportGivesUp(1, false)]).inflight[2] == Report(7, false);
    assert Run(steps + [ReportGivesUp(1, false)]).history == [Allowed(7)] + [Executed(7, true)] + [];
    assert Run(steps).history[1] == Executed(7, true);
  }
}
