/** Concurrent file operations on one path (scripts/orion_local_worker_execution.py): the advisory lock with its
    timeout, the atomic write through a temporary file, the append with fsync, and the delete.

    Any number of processes run; each step below is one system call of one process, and a process may crash between
    any two of them. `Run` ranges over all interleavings. */
module FileLock {
  import opened Text

  type Pid = nat

  datatype Op = Write(content: string, overwrite: bool) | Append(content: string) | Delete

  /** Where a process is. `ticket` is the rank of its lock acquisition. */
  datatype Phase =
    | Idle
    | Waiting(op: Op)
    | Checking(ticket: nat)                                // holds the lock, has not looked at the file yet
    | Writing(ticket: nat, written: nat)                   // temporary file holds content[..written]
    | Appending(ticket: nat, appended: nat)                // target ends with content[..appended]
    | Unlinking(ticket: nat)
    | Unwinding(acquired: bool, ticket: nat, ok: bool)     // in the `finally` block, before the unlock
    | Closing(locked: bool)                                // after it, before the lock file is closed
    | Crashed

  /** A change of the target file; `whole` is false for an append that a crash or an error cut short. */
  datatype Change = Wrote(content: string, overwrite: bool) | Appended(content: string, whole: bool) | Deleted
  datatype Commit = Commit(ticket: nat, change: Change)

  datatype World = World(
    holder: Option<Pid>,
    initial: Option<string>,   // the file before the first step
    file: Option<string>,
    procs: map<Pid, Phase>,
    acquired: seq<Op>,         // operations in the order in which they got the lock
    history: seq<Commit>,      // changes of the target in the order in which they took effect
    results: map<nat, bool>,   // what operations that left the lock normally reported, by ticket
    timedOut: nat)

  function Start(initial: Option<string>): (w: World) {
    World(None, initial, initial, map[], [], [], map[], 0)
  }

  function At(w: World, p: Pid): (ph: Phase) {
    if p in w.procs then w.procs[p] else Idle
  }

  predicate Critical(ph: Phase) {
    ph.Checking? || ph.Writing? || ph.Appending? || ph.Unlinking? || (ph.Unwinding? && ph.acquired)
  }

  /** The process has the lock: it is between lock and unlock, or its unlock failed and the file is still open. */
  predicate Holding(ph: Phase) {
    Critical(ph) || (ph.Closing? && ph.locked)
  }

  datatype Step =
    | Begin(p: Pid, op: Op)
    | Acquire(p: Pid)
    | TimeOut(p: Pid)
    | Check(p: Pid)
    | WriteTemp(p: Pid, n: nat)
    | Replace(p: Pid)
    | AppendSome(p: Pid, n: nat)
    | CloseAppend(p: Pid)
    | Unlink(p: Pid)
    | Raise(p: Pid)      // an input/output error inside the critical section
    | Unlock(p: Pid, fails: bool)   // `LOCK_UN` under the `acquired` flag; an error is swallowed
    | Close(p: Pid)                 // closing the lock file drops a lock that is still on it
    | Crash(p: Pid)

  function Move(w: World, p: Pid, ph: Phase): (r: World) {
    w.(procs := w.procs[p := ph])
  }

  function TextOf(f: Option<string>): (s: string) {
    if f.Some? then f.value else ""
  }

  /** Looking at the target once the lock is held. */
  function CheckStep(w: World, p: Pid, t: nat): (r: World)
    requires t < |w.acquired|
  {
    match w.acquired[t]
    case Write(_, overwrite) =>
      if w.file.Some? && !overwrite then Move(w, p, Unwinding(true, t, false)) else Move(w, p, Writing(t, 0))
    case Append(_) => Move(w.(file := Some(TextOf(w.file))), p, Appending(t, 0))
    case Delete => if w.file.None? then Move(w, p, Unwinding(true, t, false)) else Move(w, p, Unlinking(t))
  }

  /** An append that stops after `n` characters has taken effect that far. */
  function CutShort(w: World, ph: Phase): (r: World)
    requires ph.Appending? ==> ph.ticket < |w.acquired| && w.acquired[ph.ticket].Append?
                               && ph.appended <= |w.acquired[ph.ticket].content|
  {
    if ph.Appending? then
      w.(history := w.history + [Commit(ph.ticket, Appended(w.acquired[ph.ticket].content[..ph.appended], false))])
    else w
  }

  /** The operation a critical phase is working on, and how far, fit together. */
  ghost predicate PhaseOk(w: World, ph: Phase) {
    && (Critical(ph) ==> ph.ticket < |w.acquired| && ph.ticket == |w.acquired| - 1)
    && (ph.Writing? ==> w.acquired[ph.ticket].Write? && ph.written <= |w.acquired[ph.ticket].content|)
    && (ph.Appending? ==> w.acquired[ph.ticket].Append? && ph.appended <= |w.acquired[ph.ticket].content|)
    && (ph.Unlinking? ==> w.acquired[ph.ticket].Delete?)
  }

  ghost predicate PhasesOk(w: World) {
    forall p :: p in w.procs ==> PhaseOk(w, w.procs[p])
  }

  /** One step. Worlds with inconsistent phases, which no run reaches, stay as they are. */
  ghost function Next(w: World, step: Step): (r: World) {
    if PhasesOk(w) then Apply(w, step) else w
  }

  ghost function Apply(w: World, step: Step): (r: World)
    requires PhasesOk(w)
  {
    var p, ph := step.p, At(w, step.p);
    match step
    case Begin(_, op) => if ph.Idle? then Move(w, p, Waiting(op)) else w
    case Acquire(_) =>
      if ph.Waiting? && w.holder.None?
      then Move(w.(holder := Some(p), acquired := w.acquired + [ph.op]), p, Checking(|w.acquired|))
      else w
    case TimeOut(_) =>
      if ph.Waiting? && w.holder.Some? then Move(w.(timedOut := w.timedOut + 1), p, Unwinding(false, 0, false)) else w
    case Check(_) => if ph.Checking? then CheckStep(w, p, ph.ticket) else w
    case WriteTemp(_, n) =>
      if ph.Writing? && ph.written + n <= |w.acquired[ph.ticket].content|
      then Move(w, p, Writing(ph.ticket, ph.written + n)) else w
    case Replace(_) =>
      if ph.Writing? && ph.written == |w.acquired[ph.ticket].content| then
        var op := w.acquired[ph.ticket];
        Move(w.(file := Some(op.content),
                history := w.history + [Commit(ph.ticket, Wrote(op.content, op.overwrite))]),
             p, Unwinding(true, ph.ticket, true))
      else w
    case AppendSome(_, n) =>
      if ph.Appending? && ph.appended + n <= |w.acquired[ph.ticket].content| then
        var c := w.acquired[ph.ticket].content;
        Move(w.(file := Some(TextOf(w.file) + c[ph.appended..ph.appended + n])),
             p, Appending(ph.ticket, ph.appended + n))
      else w
    case CloseAppend(_) =>
      if ph.Appending? && ph.appended == |w.acquired[ph.ticket].content| then
        Move(w.(history := w.history + [Commit(ph.ticket, Appended(w.acquired[ph.ticket].content, true))]),
             p, Unwinding(true, ph.ticket, true))
      else w
    case Unlink(_) =>
      if ph.Unlinking? then
        Move(w.(file := None, history := w.history + [Commit(ph.ticket, Deleted)]), p, Unwinding(true, ph.ticket, true))
      else w
    case Raise(_) =>
      if ph.Writing? || ph.Appending? || ph.Unlinking?
      then Move(CutShort(w, ph), p, Unwinding(true, ph.ticket, false)) else w
    case Unlock(_, fails) =>
      if !ph.Unwinding? then w
      else if !ph.acquired then Move(w, p, Closing(false))
      else
        Move(w.(holder := if fails then w.holder else None, results := w.results[ph.ticket := ph.ok]),
             p, Closing(fails))
    case Close(_) => if ph.Closing? then Move(w.(holder := if ph.locked then None else w.holder), p, Idle) else w
    case Crash(_) =>
      Move(CutShort(w, ph).(holder := if w.holder == Some(p) then None else w.holder), p, Crashed)
  }

  // ---- what the history means ----

  function ApplyChange(f: Option<string>, c: Change): (r: Option<string>) {
    match c
    case Wrote(content, _) => Some(content)
    case Appended(content, _) => Some(TextOf(f) + content)
    case Deleted => None
  }

  /** The file after the changes of `history`, applied in order to the initial file. */
  function Replay(initial: Option<string>, history: seq<Commit>): (f: Option<string>) {
    if history == [] then initial
    else ApplyChange(Replay(initial, history[..|history| - 1]), history[|history| - 1].change)
  }

  lemma {:induction false} ReplayExtends(initial: Option<string>, history: seq<Commit>, c: Commit)
    ensures Replay(initial, history + [c]) == ApplyChange(Replay(initial, history), c.change)
  {
    assert (history + [c])[..|history|] == history;
  }

  /** The change is the one its operation asks for. */
  predicate Serves(change: Change, op: Op) {
    match change
    case Wrote(content, overwrite) => op == Write(content, overwrite)
    case Appended(content, whole) => op.Append? && content <= op.content && (whole ==> content == op.content)
    case Deleted => op == Delete
  }

  /** The file could have been changed that way at that moment. */
  predicate Admissible(before: Option<string>, change: Change) {
    match change
    case Wrote(_, overwrite) => before.None? || overwrite
    case Appended(_, _) => true
    case Deleted => before.Some?
  }

  /** History: one change per acquisition at most, in lock order, each asked for and admissible when it happened. */
  ghost predicate HistoryOk(initial: Option<string>, acquired: seq<Op>, history: seq<Commit>) {
    && (forall i :: 0 <= i < |history| ==>
          && history[i].ticket < |acquired|
          && Serves(history[i].change, acquired[history[i].ticket])
          && Admissible(Replay(initial, history[..i]), history[i].change))
    && (forall i, j :: 0 <= i < j < |history| ==> history[i].ticket < history[j].ticket)
  }

  lemma {:induction false} HistoryGrows(initial: Option<string>, acquired: seq<Op>, history: seq<Commit>, c: Commit)
    requires HistoryOk(initial, acquired, history)
    requires c.ticket < |acquired| && Serves(c.change, acquired[c.ticket])
            && Admissible(Replay(initial, history), c.change)
    requires forall i :: 0 <= i < |history| ==> history[i].ticket < c.ticket
    ensures HistoryOk(initial, acquired, history + [c])
    ensures Replay(initial, history + [c]) == ApplyChange(Replay(initial, history), c.change)
  {
    ReplayExtends(initial, history, c);
    var h := history + [c];
    forall i | 0 <= i < |h| ensures h[..i] == if i < |h| - 1 then history[..i] else history {
    }
  }

  lemma {:induction false} AcquisitionsGrow(initial: Option<string>, acquired: seq<Op>, history: seq<Commit>, op: Op)
    requires HistoryOk(initial, acquired, history)
    ensures HistoryOk(initial, acquired + [op], history)
  {
  }

  // ---- the invariant ----

  /** The file as a phase of the lock holder leaves it relative to the committed changes. */
  ghost predicate FileMatches(w: World, ph: Phase)
    requires PhaseOk(w, ph)
  {
    if ph.Appending?
    then w.file == Some(TextOf(Replay(w.initial, w.history)) + w.acquired[ph.ticket].content[..ph.appended])
    else w.file == Replay(w.initial, w.history)
  }

  /** The holder has not committed anything yet, or has just done so, and what it found when it looked still holds. */
  ghost predicate HolderOk(w: World, ph: Phase)
    requires PhaseOk(w, ph) && Critical(ph)
  {
    && FileMatches(w, ph)
    && (!ph.Unwinding? ==> forall i :: 0 <= i < |w.history| ==> w.history[i].ticket < ph.ticket)
    && (ph.Writing? ==> w.file.None? || w.acquired[ph.ticket].overwrite)
    && (ph.Unlinking? ==> w.file.Some?)
    && (ph.Unwinding? ==> LeavingOk(w.history, ph.ticket, ph.ok))
  }

  /** A success is backed by a whole change of that ticket; after a failure there is none, or a cut-short append. */
  ghost predicate LeavingOk(history: seq<Commit>, ticket: nat, ok: bool) {
    if ok then exists i :: 0 <= i < |history| && history[i].ticket == ticket && !IsCut(history[i].change)
    else forall i :: 0 <= i < |history| && history[i].ticket == ticket ==> IsCut(history[i].change)
  }

  predicate IsCut(c: Change) {
    c.Appended? && !c.whole
  }

  ghost predicate MutualExclusion(w: World) {
    forall p: Pid :: Holding(At(w, p)) <==> w.holder == Some(p)
  }

  ghost predicate ResultsOk(w: World) {
    forall t :: t in w.results ==> t < |w.acquired| && LeavingOk(w.history, t, w.results[t])
  }

  /** What holds of the file and of the holder, if there is one. */
  ghost predicate HolderFits(w: World)
    requires PhasesOk(w)
  {
    if w.holder.Some? && Critical(At(w, w.holder.value))
    then HolderOk(w, At(w, w.holder.value)) && At(w, w.holder.value).ticket !in w.results
    else w.file == Replay(w.initial, w.history)
  }

  ghost predicate Inv(w: World) {
    && PhasesOk(w)
    && MutualExclusion(w)
    && HistoryOk(w.initial, w.acquired, w.history)
    && HolderFits(w)
    && ResultsOk(w)
  }

  // ---- every step keeps the invariant ----

  lemma {:induction false} LeavingOkExtends(history: seq<Commit>, c: Commit, t: nat, ok: bool)
    requires c.ticket != t && LeavingOk(history, t, ok)
    ensures LeavingOk(history + [c], t, ok)
  {
    if ok {
      var i :| 0 <= i < |history| && history[i].ticket == t && !IsCut(history[i].change);
      assert (history + [c])[i] == history[i];
    }
  }

  /** The history is unchanged, or has one more change, of ticket `t`. */
  ghost predicate AtMostOneMore(history: seq<Commit>, history': seq<Commit>, t: nat) {
    || history' == history
    || (history' != [] && history'[..|history'| - 1] == history && history'[|history'| - 1].ticket == t)
  }

  lemma {:induction false} ReportsStayOk(history: seq<Commit>, history': seq<Commit>, t: nat, r: nat, ok: bool)
    requires AtMostOneMore(history, history', t) && r != t && LeavingOk(history, r, ok)
    ensures LeavingOk(history', r, ok)
  {
    if history' != history {
      LeavingOkExtends(history, history'[|history'| - 1], r, ok);
      assert history' == history + [history'[|history'| - 1]];
    }
  }

  /** The lock holder moves on, committing nothing or one change of its own ticket. */
  lemma {:induction false} HolderMoves(w: World, w': World, p: Pid, ph': Phase)
    requires Inv(w) && w.holder == Some(p) && Critical(At(w, p))
    requires w'.procs == w.procs[p := ph'] && w'.holder == w.holder
    requires w'.acquired == w.acquired && w'.results == w.results && w'.initial == w.initial
    requires AtMostOneMore(w.history, w'.history, At(w, p).ticket)
    requires Critical(ph') && ph'.ticket == At(w, p).ticket && PhaseOk(w', ph') && HolderOk(w', ph')
    requires HistoryOk(w'.initial, w'.acquired, w'.history)
    ensures Inv(w')
  {
    HolderMovesExclusively(w, w', p, ph');
    forall t | t in w'.results ensures t < |w'.acquired| && LeavingOk(w'.history, t, w'.results[t]) {
      ReportsStayOk(w.history, w'.history, At(w, p).ticket, t, w.results[t]);
    }
  }

  lemma {:induction false} HolderMovesExclusively(w: World, w': World, p: Pid, ph': Phase)
    requires PhasesOk(w) && MutualExclusion(w) && w.holder == Some(p)
    requires w'.procs == w.procs[p := ph'] && w'.holder == w.holder && w'.acquired == w.acquired
    requires Critical(ph') && PhaseOk(w', ph')
    ensures PhasesOk(w') && MutualExclusion(w')
  {
    forall q | q in w'.procs ensures PhaseOk(w', w'.procs[q]) {
      if q != p {
        assert PhaseOk(w, w.procs[q]);
      }
    }
    forall q: Pid ensures Holding(At(w', q)) <==> w'.holder == Some(q) {
      assert q != p ==> At(w', q) == At(w, q);
    }
  }

  /** `w'` is `w` after its lock holder `p` has committed `change`. */
  ghost predicate Commits(w: World, w': World, p: Pid, change: Change, ok: bool)
    requires Inv(w) && w.holder == Some(p) && Critical(At(w, p))
  {
    var t := At(w, p).ticket;
    && w'.procs == w.procs[p := Unwinding(true, t, ok)] && w'.holder == w.holder
    && w'.acquired == w.acquired && w'.results == w.results && w'.initial == w.initial
    && w'.history == w.history + [Commit(t, change)]
    && w'.file == ApplyChange(Replay(w.initial, w.history), change)
    && Serves(change, w.acquired[t]) && Admissible(Replay(w.initial, w.history), change)
    && ok == !IsCut(change)
  }

  lemma {:induction false} CommittedOk(history: seq<Commit>, t: nat, change: Change)
    requires forall i :: 0 <= i < |history| ==> history[i].ticket < t
    ensures LeavingOk(history + [Commit(t, change)], t, !IsCut(change))
  {
    assert (history + [Commit(t, change)])[|history|] == Commit(t, change);
  }

  lemma {:induction false} HolderCommits(w: World, w': World, p: Pid, change: Change, ok: bool)
    requires Inv(w) && w.holder == Some(p) && Critical(At(w, p)) && !At(w, p).Unwinding?
    requires Commits(w, w', p, change, ok)
    ensures Inv(w')
  {
    var t := At(w, p).ticket;
    HistoryGrows(w.initial, w.acquired, w.history, Commit(t, change));
    CommittedOk(w.history, t, change);
    assert w'.history[..|w'.history| - 1] == w.history;
    HolderMoves(w, w', p, Unwinding(true, t, ok));
  }

  /** A process without the lock goes to another phase without the lock. */
  lemma {:induction false} OutsiderMoves(w: World, w': World, p: Pid, ph': Phase)
    requires Inv(w) && w.holder != Some(p) && !Holding(ph')
    requires w' == Move(w.(timedOut := w'.timedOut), p, ph')
    ensures Inv(w')
  {
    forall q: Pid ensures Holding(At(w', q)) <==> w'.holder == Some(q) {
      assert q != p ==> At(w', q) == At(w, q);
    }
    assert w'.holder.Some? ==> At(w', w'.holder.value) == At(w, w.holder.value);
  }

  lemma {:induction false} BeginOrTimeOutKeepsInv(w: World, step: Step)
    requires Inv(w) && (step.Begin? || step.TimeOut?)
    ensures Inv(Next(w, step))
  {
    var w', p := Next(w, step), step.p;
    if w' != w {
      assert Holding(At(w, p)) <==> w.holder == Some(p);
      OutsiderMoves(w, w', p, At(w', p));
    }
  }

  lemma {:induction false} AcquireKeepsInv(w: World, p: Pid)
    requires Inv(w)
    ensures Inv(Next(w, Acquire(p)))
  {
    var w' := Next(w, Acquire(p));
    if w' != w {
      AcquisitionsGrow(w.initial, w.acquired, w.history, At(w, p).op);
      forall q | q in w'.procs ensures PhaseOk(w', w'.procs[q]) {
        assert q != p ==> At(w, q) == w.procs[q] && !Critical(w.procs[q]);
      }
      forall q: Pid ensures Holding(At(w', q)) <==> w'.holder == Some(q) {
        assert q != p ==> At(w', q) == At(w, q);
      }
    }
  }

  lemma {:induction false} CheckKeepsInv(w: World, p: Pid)
    requires Inv(w)
    ensures Inv(Next(w, Check(p)))
  {
    var w', ph := Next(w, Check(p)), At(w, p);
    if ph.Checking? {
      assert w.acquired[ph.ticket].Append? ==>
          TextOf(w.file) + w.acquired[ph.ticket].content[..0] == TextOf(w.file);
      HolderMoves(w, w', p, w'.procs[p]);
    }
  }

  lemma {:induction false} WriteStepsKeepInv(w: World, step: Step)
    requires Inv(w) && (step.WriteTemp? || step.Replace?)
    ensures Inv(Next(w, step))
  {
    var w', ph := Next(w, step), At(w, step.p);
    if w' != w {
      if step.WriteTemp? {
        HolderMoves(w, w', step.p, w'.procs[step.p]);
      } else {
        var op := w.acquired[ph.ticket];
        HolderCommits(w, w', step.p, Wrote(op.content, op.overwrite), true);
      }
    }
  }

  lemma {:induction false} MoreOf(base: string, c: string, k: nat, n: nat)
    requires k + n <= |c|
    ensures (base + c[..k]) + c[k..k + n] == base + c[..k + n]
  {
  }

  lemma {:induction false} AppendSomeKeepsInv(w: World, p: Pid, n: nat)
    requires Inv(w)
    ensures Inv(Next(w, AppendSome(p, n)))
  {
    var w', ph := Next(w, AppendSome(p, n)), At(w, p);
    if ph.Appending? && ph.appended + n <= |w.acquired[ph.ticket].content| {
      var c, base := w.acquired[ph.ticket].content, TextOf(Replay(w.initial, w.history));
      MoreOf(base, c, ph.appended, n);
      HolderMoves(w, w', p, Appending(ph.ticket, ph.appended + n));
    }
  }

  lemma {:induction false} CloseAppendKeepsInv(w: World, p: Pid)
    requires Inv(w)
    ensures Inv(Next(w, CloseAppend(p)))
  {
    var ph := At(w, p);
    if ph.Appending? && ph.appended == |w.acquired[ph.ticket].content| {
      var c := w.acquired[ph.ticket].content;
      assert c[..ph.appended] == c;
      HolderCommits(w, Next(w, CloseAppend(p)), p, Appended(c, true), true);
    }
  }

  lemma {:induction false} UnlinkKeepsInv(w: World, p: Pid)
    requires Inv(w)
    ensures Inv(Next(w, Unlink(p)))
  {
    if At(w, p).Unlinking? {
      HolderCommits(w, Next(w, Unlink(p)), p, Deleted, true);
    }
  }

  lemma {:induction false} RaiseKeepsInv(w: World, p: Pid)
    requires Inv(w)
    ensures Inv(Next(w, Raise(p)))
  {
    var w', ph := Next(w, Raise(p)), At(w, p);
    if w' != w {
      if ph.Appending? {
        HolderCommits(w, w', p, Appended(w.acquired[ph.ticket].content[..ph.appended], false), false);
      } else {
        HolderMoves(w, w', p, Unwinding(true, ph.ticket, false));
      }
    }
  }

  /** A process goes to a phase outside the lock; if it was the holder, the lock is free again. */
  lemma {:induction false} OutsideKeepsInv(w: World, p: Pid, ph': Phase)
    requires Inv(w) && !Holding(ph')
    requires w.holder == Some(p) ==> w.file == Replay(w.initial, w.history)
    ensures Inv(Move(w.(holder := if w.holder == Some(p) then None else w.holder), p, ph'))
  {
    var w' := Move(w.(holder := if w.holder == Some(p) then None else w.holder), p, ph');
    forall q: Pid ensures Holding(At(w', q)) <==> w'.holder == Some(q) {
      assert q != p ==> At(w', q) == At(w, q);
    }
    if w'.holder.Some? {
      assert At(w', w'.holder.value) == At(w, w.holder.value);
    }
  }

  /** The holder leaves its critical section, with or without the lock. */
  lemma {:induction false} LeaveKeepsInv(w: World, p: Pid, fails: bool)
    requires Inv(w) && w.holder == Some(p) && At(w, p).Unwinding? && At(w, p).acquired
    ensures Inv(Apply(w, Unlock(p, fails)))
  {
    var w' := Apply(w, Unlock(p, fails));
    forall q: Pid ensures Holding(At(w', q)) <==> w'.holder == Some(q) {
      assert q != p ==> At(w', q) == At(w, q);
    }
  }

  lemma {:induction false} UnlockKeepsInv(w: World, p: Pid, fails: bool)
    requires Inv(w)
    ensures Inv(Next(w, Unlock(p, fails)))
  {
    var ph := At(w, p);
    if ph.Unwinding? {
      if ph.acquired {
        LeaveKeepsInv(w, p, fails);
      } else {
        OutsideKeepsInv(w, p, Closing(false));
      }
    }
  }

  lemma {:induction false} CloseKeepsInv(w: World, p: Pid)
    requires Inv(w)
    ensures Inv(Next(w, Close(p)))
  {
    if At(w, p).Closing? {
      assert Holding(At(w, p)) <==> w.holder == Some(p);
      OutsideKeepsInv(w, p, Idle);
    }
  }

  /** A crash in the middle of an append is the error that cuts it short, followed by the end of the process. */
  lemma {:induction false} CrashCutsShort(w: World, p: Pid)
    requires PhasesOk(w) && At(w, p).Appending?
    ensures var mid := Apply(w, Raise(p));
            Apply(w, Crash(p)) == Move(mid.(holder := if mid.holder == Some(p) then None else mid.holder), p, Crashed)
  {
    var mid := Apply(w, Raise(p));
    assert mid.procs[p := Crashed] == w.procs[p := Crashed];
  }

  lemma {:induction false} CrashKeepsInv(w: World, p: Pid)
    requires Inv(w)
    ensures Inv(Next(w, Crash(p)))
  {
    if At(w, p).Appending? {
      CrashCutsShort(w, p);
      RaiseKeepsInv(w, p);
      OutsideKeepsInv(Next(w, Raise(p)), p, Crashed);
    } else {
      OutsideKeepsInv(w, p, Crashed);
    }
  }

  lemma {:induction false} NextKeepsInv(w: World, step: Step)
    requires Inv(w)
    ensures Inv(Next(w, step))
  {
    match step
    case Begin(_, _) => BeginOrTimeOutKeepsInv(w, step);
    case TimeOut(_) => BeginOrTimeOutKeepsInv(w, step);
    case Acquire(p) => AcquireKeepsInv(w, p);
    case Check(p) => CheckKeepsInv(w, p);
    case WriteTemp(_, _) => WriteStepsKeepInv(w, step);
    case Replace(_) => WriteStepsKeepInv(w, step);
    case AppendSome(p, n) => AppendSomeKeepsInv(w, p, n);
    case CloseAppend(p) => CloseAppendKeepsInv(w, p);
    case Unlink(p) => UnlinkKeepsInv(w, p);
    case Raise(p) => RaiseKeepsInv(w, p);
    case Unlock(p, fails) => UnlockKeepsInv(w, p, fails);
    case Close(p) => CloseKeepsInv(w, p);
    case Crash(p) => CrashKeepsInv(w, p);
  }

  /** The world after any interleaving of steps, whatever the file is at first. */
  ghost function Run(initial: Option<string>, steps: seq<Step>): (w: World) {
    if steps == [] then Start(initial) else Next(Run(initial, steps[..|steps| - 1]), steps[|steps| - 1])
  }

  lemma {:induction false} StartIsOk(initial: Option<string>)
    ensures Inv(Start(initial))
  {
  }

  lemma {:induction false} NextKeepsInitial(w: World, step: Step)
    ensures Next(w, step).initial == w.initial
  {
  }

  /** The invariant holds in every reachable world. */
  lemma {:induction false} RunKeepsInv(initial: Option<string>, steps: seq<Step>)
    ensures Inv(Run(initial, steps)) && Run(initial, steps).initial == initial
  {
    if steps == [] {
      StartIsOk(initial);
    } else {
      var front, last := steps[..|steps| - 1], steps[|steps| - 1];
      RunKeepsInv(initial, front);
      NextKeepsInv(Run(initial, front), last);
      NextKeepsInitial(Run(initial, front), last);
    }
  }

  // ---- what follows for users of the lock ----

  /** At most one process is ever between lock and unlock. */
  lemma {:induction false} AtMostOneInside(initial: Option<string>, steps: seq<Step>, p: Pid, q: Pid)
    requires Critical(At(Run(initial, steps), p)) && Critical(At(Run(initial, steps), q))
    ensures p == q
  {
    RunKeepsInv(initial, steps);
    assert MutualExclusion(Run(initial, steps));
  }

  /** Only a process that has the lock takes it away from the holder. */
  lemma {:induction false} OnlyHolderReleases(w: World, step: Step, q: Pid)
    requires PhasesOk(w) && MutualExclusion(w) && w.holder == Some(q) && step.p != q
    ensures Next(w, step).holder == Some(q) && At(Next(w, step), q) == At(w, q)
  {
    assert !Holding(At(w, step.p));
  }

  lemma {:induction false} RunExcludes(initial: Option<string>, steps: seq<Step>)
    ensures PhasesOk(Run(initial, steps)) && MutualExclusion(Run(initial, steps))
  {
    RunKeepsInv(initial, steps);
  }

  /** One further step of a process that does not have the lock. */
  lemma {:induction false} OtherStep(initial: Option<string>, steps: seq<Step>, step: Step, q: Pid)
    requires Run(initial, steps).holder == Some(q) && step.p != q
    ensures Run(initial, steps + [step]).holder == Some(q)
    ensures At(Run(initial, steps + [step]), q) == At(Run(initial, steps), q)
  {
    RunExcludes(initial, steps);
    RunOneMore(initial, steps, step);
    OnlyHolderReleases(Run(initial, steps), step, q);
  }

  /** The lock stays with its holder, whatever the other processes do: waiting, timing out, going through the `finally`
      block, closing the lock file, crashing. */
  lemma {:induction false} WaiterReleasesNothing(initial: Option<string>, steps: seq<Step>, more: seq<Step>, q: Pid)
    requires Run(initial, steps).holder == Some(q) && forall i :: 0 <= i < |more| ==> more[i].p != q
    ensures Run(initial, steps + more).holder == Some(q)
    ensures At(Run(initial, steps + more), q) == At(Run(initial, steps), q)
    decreases |more|
  {
    if more == [] {
      assert steps + more == steps;
    } else {
      OtherStep(initial, steps, more[0], q);
      WaiterReleasesNothing(initial, steps + [more[0]], more[1..], q);
      assert steps + more == (steps + [more[0]]) + more[1..];
    }
  }

  lemma {:induction false} RunOneMore(initial: Option<string>, steps: seq<Step>, step: Step)
    ensures Run(initial, steps + [step]) == Next(Run(initial, steps), step)
  {
    assert (steps + [step])[..|steps|] == steps;
  }

  /** A lock that was never acquired is not released: the flag is true only in the `finally` block of the holder. */
  lemma {:induction false} FlagIsTrue(initial: Option<string>, steps: seq<Step>, p: Pid)
    requires At(Run(initial, steps), p).Unwinding?
    ensures At(Run(initial, steps), p).acquired <==> Run(initial, steps).holder == Some(p)
  {
    RunKeepsInv(initial, steps);
    assert MutualExclusion(Run(initial, steps));
  }

  /** While no process is in the middle of an append, the file is exactly the committed changes applied in lock order;
      during an append it is that plus a prefix of the text being appended. Readers take no lock, so this is also
      what a concurrent read can see. */
  lemma {:induction false} FileIsHistory(initial: Option<string>, steps: seq<Step>)
    ensures var w := Run(initial, steps);
            if w.holder.Some? && At(w, w.holder.value).Appending? then
              var ph := At(w, w.holder.value);
              && ph.ticket == |w.acquired| - 1 && w.acquired[ph.ticket].Append?
              && ph.appended <= |w.acquired[ph.ticket].content|
              && w.file == Some(TextOf(Replay(w.initial, w.history)) + w.acquired[ph.ticket].content[..ph.appended])
            else w.file == Replay(w.initial, w.history)
    ensures HistoryOk(initial, Run(initial, steps).acquired, Run(initial, steps).history)
  {
    RunKeepsInv(initial, steps);
    var w := Run(initial, steps);
    assert HolderFits(w);
  }

  /** An operation that reported success took effect as a whole, exactly once; one that reported an error changed
      nothing, unless it was an append cut short. */
  lemma {:induction false} ReportsAreTrue(initial: Option<string>, steps: seq<Step>, t: nat)
    requires t in Run(initial, steps).results
    ensures var w := Run(initial, steps);
            if w.results[t]
            then exists i :: 0 <= i < |w.history| && w.history[i].ticket == t && !IsCut(w.history[i].change)
                             && forall j :: 0 <= j < |w.history| && w.history[j].ticket == t ==> j == i
            else forall i :: 0 <= i < |w.history| && w.history[i].ticket == t ==> IsCut(w.history[i].change)
  {
    RunKeepsInv(initial, steps);
    var w := Run(initial, steps);
    assert LeavingOk(w.history, t, w.results[t]);
    if w.results[t] {
      var i :| 0 <= i < |w.history| && w.history[i].ticket == t && !IsCut(w.history[i].change);
      forall j | 0 <= j < |w.history| && w.history[j].ticket == t ensures j == i {
      }
    }
  }

  lemma {:induction false} FileStaysWithoutDelete(initial: Option<string>, acquired: seq<Op>, history: seq<Commit>,
                                                  i: nat, k: nat)
    requires HistoryOk(initial, acquired, history) && i < k <= |history|
    requires forall d :: i <= d < k ==> !history[d].change.Deleted?
    ensures Replay(initial, history[..k]).Some?
  {
    assert history[..k][..k - 1] == history[..k - 1];
  }

  /** Between two successful writes without `overwrite` there is always a delete. */
  lemma {:induction false} OneCreatePerDelete(initial: Option<string>, steps: seq<Step>, i: nat, k: nat)
    requires i < k < |Run(initial, steps).history|
    requires Run(initial, steps).history[i].change.Wrote?
    requires Run(initial, steps).history[k].change.Wrote? && !Run(initial, steps).history[k].change.overwrite
    ensures exists d :: i < d < k && Run(initial, steps).history[d].change.Deleted?
  {
    RunKeepsInv(initial, steps);
    var w := Run(initial, steps);
    assert Admissible(Replay(w.initial, w.history[..k]), w.history[k].change);
    if forall d :: i < d < k ==> !w.history[d].change.Deleted? {
      FileStaysWithoutDelete(w.initial, w.acquired, w.history, i, k);
    }
  }

  /** The changes of earlier lock holders. */
  ghost function Before(history: seq<Commit>, t: nat): (r: seq<Commit>) {
    if history != [] && history[|history| - 1].ticket >= t then Before(history[..|history| - 1], t) else history
  }

  /** The write whose turn it is leaves the file as it found it or as it wants it. */
  lemma {:induction false} WriterLeavesOldOrNew(w: World, p: Pid)
    requires Inv(w) && w.holder == Some(p) && Critical(At(w, p)) && w.acquired[At(w, p).ticket].Write?
    ensures var t := At(w, p).ticket;
            w.file == Replay(w.initial, Before(w.history, t)) || w.file == Some(w.acquired[t].content)
  {
    var t, n := At(w, p).ticket, |w.history| - 1;
    assert w.file == Replay(w.initial, w.history);
    if w.history != [] && w.history[n].ticket == t {
      assert Serves(w.history[n].change, w.acquired[t]);
    } else {
      assert w.history != [] ==> w.history[n].ticket < |w.acquired|;
      assert Before(w.history, t) == w.history;
    }
  }

  lemma {:induction false} CrashLeavesFile(w: World, p: Pid)
    ensures Next(w, Crash(p)).file == w.file
  {
  }

  /** A write that crashes at any point inside the lock leaves either the file as it found it or the new content. */
  lemma {:induction false} CrashedWriteIsOldOrNew(initial: Option<string>, steps: seq<Step>, p: Pid)
    requires var w := Run(initial, steps);
             && Critical(At(w, p)) && At(w, p).ticket < |w.acquired| && w.acquired[At(w, p).ticket].Write?
    ensures var w := Run(initial, steps);
            var t := At(w, p).ticket;
            var after := Next(w, Crash(p)).file;
            after == Replay(w.initial, Before(w.history, t)) || after == Some(w.acquired[t].content)
  {
    RunKeepsInv(initial, steps);
    var w := Run(initial, steps);
    CrashLeavesFile(w, p);
    assert MutualExclusion(w);
    WriterLeavesOldOrNew(w, p);
  }
}
