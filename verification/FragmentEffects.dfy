/** What fragments of control events do to the interrupt controller (scripts/orion_local_worker.py,
    scripts/orion_local_worker_runtime.py). A fragment is handled under its stream name with empty fields, and the whole
    event afterwards. For requests that makes no difference to the stored interrupt; a fragment of a machine_resume
    clears the machine interrupt under the worker's own id. */
module FragmentEffects {
  import opened Text
  import D = ControlDelivery
  import L = ControlListener
  import I = Interrupts

  /** The fields of a decoded control event, the empty string standing for an absent one. */
  datatype Fields = Fields(event: string, reason: string, runId: string, machineId: string, requestedAt: string,
                           sequence: Option<int>)

  /** The worker's id, and how control events look on the stream and decoded. */
  datatype Worker = Worker(id: string, name: L.Control -> string, fields: L.Control -> Fields)

  type Snap = Option<I.Snapshot>

  // ---- handling one event ----

  function KindOf(w: Worker, c: L.Control): (kind: string) {
    I.EventKind(w.fields(c).event, w.name(c))
  }

  function WholeStep(w: Worker, c: L.Control): (step: Option<I.Step>) {
    var f := w.fields(c);
    I.ControlStep(KindOf(w, c), w.id, f.reason, f.runId, f.machineId, f.requestedAt, f.sequence)
  }

  function FragmentStep(w: Worker, name: string): (step: Option<I.Step>) {
    I.ControlStep(I.EventKind("", name), w.id, "", "", "", "", None)
  }

  /** A machine clear with this target removes the stored interrupt. */
  predicate Clears(s: Snap, target: string) {
    && s.Some? && Lower(Strip(s.value.scope)) == "machine"
    && (Strip(target) == "" || Strip(s.value.machineId) == "" || Strip(s.value.machineId) == Strip(target))
  }

  /** The stored interrupt after a step. */
  function Apply(s: Snap, step: Option<I.Step>): (r: Snap) {
    if step.None? then s
    else if step.value.Request? then Some(step.value.s)
    else if step.value.ClearMachine? && Clears(s, step.value.machineId) then None
    else s
  }

  /** It is what the controller's locked block stores. */
  lemma {:induction false} ApplyIsLocked(c: I.Controller, step: I.Step)
    requires step.Request? || step.ClearMachine?
    ensures I.LockedBlock(c, step).next.snapshot == Apply(c.snapshot, Some(step))
  {
  }

  // ---- handling what the listener hands on ----

  function StepOf(w: Worker, h: D.Handed): (step: Option<I.Step>) {
    if h.Whole? then WholeStep(w, h.control) else FragmentStep(w, h.name)
  }

  function HandleAll(w: Worker, hs: seq<D.Handed>): (s: Snap) {
    if hs == [] then None else Apply(HandleAll(w, hs[..|hs| - 1]), StepOf(w, hs[|hs| - 1]))
  }

  /** The stored interrupt if only the whole events were handled. */
  function HandleWholes(w: Worker, hs: seq<D.Handed>): (s: Snap) {
    if hs == [] then None
    else
      var s := HandleWholes(w, hs[..|hs| - 1]);
      if hs[|hs| - 1].Whole? then Apply(s, StepOf(w, hs[|hs| - 1])) else s
  }

  predicate EndsInFragment(hs: seq<D.Handed>) {
    hs != [] && hs[|hs| - 1].Fragment?
  }

  /** Judged by the whole events and by where fragments stand: a fragment has cleared an interrupt that its event does
      not clear, and nothing since has replaced or cleared it. */
  predicate Dropped(w: Worker, hs: seq<D.Handed>) {
    hs != []
    && var front, last := hs[..|hs| - 1], hs[|hs| - 1];
       if last.Fragment? then Dropped(w, front)
       else DroppedBy(w, Dropped(w, front), EndsInFragment(front), HandleWholes(w, front), last.control)
  }

  /** One whole event, after a fragment of it or not. */
  predicate DroppedBy(w: Worker, dropped: bool, fragment: bool, stored: Snap, c: L.Control) {
    var step := WholeStep(w, c);
    if step.None? then dropped
    else if !step.value.ClearMachine? then false
    else !Clears(stored, step.value.machineId) && (dropped || (fragment && Clears(stored, I.OrElse("", w.id))))
  }

  // ---- one event and its fragments ----

  /** The stream name and the decoded event agree on what kind of event it is. */
  predicate SameKind(w: Worker, c: L.Control) {
    Token(w.name(c), "message") == KindOf(w, c)
  }

  /** A fragment of an event, before the event. */
  lemma {:induction false} FragmentThenWhole(w: Worker, s: Snap, c: L.Control)
    requires SameKind(w, c)
    ensures var f, e := FragmentStep(w, w.name(c)), WholeStep(w, c);
            && Apply(Apply(s, f), f) == Apply(s, f)
            && Apply(Apply(s, f), e) ==
               if e.Some? && e.value.ClearMachine? && Clears(s, I.OrElse("", w.id)) then None else Apply(s, e)
  {
  }

  /** With and without fragments the stored interrupts are the same, or the one with fragments is gone. */
  ghost predicate Related(with: Snap, without: Snap, dropped: bool) {
    if dropped then with == None && without.Some? else with == without
  }

  lemma {:induction false} WholeKeepsRelated(w: Worker, with: Snap, without: Snap, dropped: bool, fragment: bool,
                                             c: L.Control)
    requires SameKind(w, c) && Related(with, without, dropped)
    ensures var before := if fragment then Apply(with, FragmentStep(w, w.name(c))) else with;
            Related(Apply(before, WholeStep(w, c)), Apply(without, WholeStep(w, c)),
                    DroppedBy(w, dropped, fragment, without, c))
  {
    FragmentThenWhole(w, with, c);
  }

  // ---- all events ----

  /** Each fragment is a fragment of the next event of the log, and the whole events are the log in order. */
  ghost predicate InOrder(w: Worker, log: seq<L.Control>, hs: seq<D.Handed>) {
    hs != [] ==>
      var front, last := hs[..|hs| - 1], hs[|hs| - 1];
      var n := |D.Wholes(front)|;
      && InOrder(w, log, front) && n < |log|
      && (last.Whole? ==> last.control == log[n]) && (last.Fragment? ==> last.name == w.name(log[n]))
  }

  /** The state before a run of fragments at the end. */
  function Settled(w: Worker, hs: seq<D.Handed>): (s: Snap) {
    if EndsInFragment(hs) then Settled(w, hs[..|hs| - 1]) else HandleAll(w, hs)
  }

  lemma {:induction false} HandledIsRelated(w: Worker, log: seq<L.Control>, hs: seq<D.Handed>)
    requires InOrder(w, log, hs) && forall i :: 0 <= i < |log| ==> SameKind(w, log[i])
    ensures Related(Settled(w, hs), HandleWholes(w, hs), Dropped(w, hs))
    ensures EndsInFragment(hs) ==>
              |D.Wholes(hs)| < |log|
              && HandleAll(w, hs) == Apply(Settled(w, hs), FragmentStep(w, w.name(log[|D.Wholes(hs)|])))
  {
    if hs != [] {
      var front, last := hs[..|hs| - 1], hs[|hs| - 1];
      HandledIsRelated(w, log, front);
      var n := |D.Wholes(front)|;
      if last.Fragment? {
        FragmentThenWhole(w, Settled(w, front), log[n]);
        WholesSkipFragment(hs);
      } else {
        var with, without := Settled(w, front), HandleWholes(w, front);
        WholeKeepsRelated(w, with, without, Dropped(w, front), EndsInFragment(front), log[n]);
      }
    }
  }

  lemma {:induction false} WholesSkipFragment(hs: seq<D.Handed>)
    requires EndsInFragment(hs)
    ensures D.Wholes(hs) == D.Wholes(hs[..|hs| - 1])
  {
    assert D.Wholes(hs[..|hs| - 1]) + [] == D.Wholes(hs[..|hs| - 1]);
  }

  /** Once every fragment has been followed by its event, fragments and whole events leave the same interrupt stored as
      the whole events alone if and only if no fragment has dropped one: cleared a machine interrupt that was stored for
      this worker's machine, where the machine_resume itself was meant for another, with nothing since to replace it. */
  lemma {:induction false} SameInterruptExactly(w: Worker, log: seq<L.Control>, hs: seq<D.Handed>)
    requires InOrder(w, log, hs) && !EndsInFragment(hs) && forall i :: 0 <= i < |log| ==> SameKind(w, log[i])
    ensures HandleAll(w, hs) == HandleWholes(w, hs) <==> !Dropped(w, hs)
  {
    HandledIsRelated(w, log, hs);
  }

  /** One more thing handed on. */
  lemma {:induction false} OneMoreInOrder(w: Worker, log: seq<L.Control>, hs: seq<D.Handed>, h: D.Handed)
    requires InOrder(w, log, hs) && |D.Wholes(hs)| < |log|
    requires if h.Whole? then h.control == log[|D.Wholes(hs)|] else h.name == w.name(log[|D.Wholes(hs)|])
    ensures InOrder(w, log, hs + [h])
  {
    assert (hs + [h])[..|hs|] == hs;
  }

  lemma {:induction false} OneMoreHandled(w: Worker, hs: seq<D.Handed>, h: D.Handed)
    ensures |D.Wholes(hs + [h])| == |D.Wholes(hs)| + if h.Whole? then 1 else 0
    ensures HandleAll(w, hs + [h]) == Apply(HandleAll(w, hs), StepOf(w, h))
    ensures var s := HandleWholes(w, hs); HandleWholes(w, hs + [h]) == if h.Whole? then Apply(s, StepOf(w, h)) else s
  {
    assert (hs + [h])[..|hs|] == hs;
  }

  // ---- what the listener hands on is in order ----

  /** A fragment is the last thing received, and of the event after the whole ones. */
  lemma {:induction false} ReceivedInOrder(wire: D.Wire, es: seq<L.Control>, n: nat, breaks: bool, i: nat)
    requires i < |D.Receive(wire, es, n, breaks)|
    ensures i < |es|
    ensures var h := D.Receive(wire, es, n, breaks)[i];
            if h.Whole? then h.control == es[i]
            else h.name == wire.name(es[i]) && i == |D.Receive(wire, es, n, breaks)| - 1
  {
    if n >= |D.Printed(wire, es[0])| && i > 0 {
      ReceivedInOrder(wire, es[1..], n - |D.Printed(wire, es[0])|, breaks, i - 1);
    }
  }

  /** `got` goes on with the log at position `n`, and only its last entry may be a fragment. */
  ghost predicate GoesOn(w: Worker, log: seq<L.Control>, n: nat, got: seq<D.Handed>) {
    && n + |got| <= |log|
    && forall i :: 0 <= i < |got| ==>
         if got[i].Whole? then got[i].control == log[n + i]
         else got[i].name == w.name(log[n + i]) && i == |got| - 1
  }

  lemma {:induction false} GoesOnFront(w: Worker, log: seq<L.Control>, n: nat, got: seq<D.Handed>)
    requires GoesOn(w, log, n, got) && got != []
    ensures var front := got[..|got| - 1]; GoesOn(w, log, n, front) && |D.Wholes(front)| == |front|
  {
    var front := got[..|got| - 1];
    assert forall i :: 0 <= i < |front| ==> front[i] == got[i] && front[i].Whole?;
    AllWholes(front);
  }

  lemma {:induction false} InOrderAppends(w: Worker, log: seq<L.Control>, hs: seq<D.Handed>, got: seq<D.Handed>)
    requires InOrder(w, log, hs) && GoesOn(w, log, |D.Wholes(hs)|, got)
    ensures InOrder(w, log, hs + got)
  {
    if got == [] {
      assert hs + got == hs;
    } else {
      var front, last := got[..|got| - 1], got[|got| - 1];
      GoesOnFront(w, log, |D.Wholes(hs)|, got);
      InOrderAppends(w, log, hs, front);
      D.WholesConcat(hs, front);
      OneMoreInOrder(w, log, hs + front, last);
      assert hs + got == hs + front + [last];
    }
  }

  lemma {:induction false} AllWholes(hs: seq<D.Handed>)
    requires forall i :: 0 <= i < |hs| ==> hs[i].Whole?
    ensures |D.Wholes(hs)| == |hs|
  {
    if hs != [] {
      AllWholes(hs[..|hs| - 1]);
    }
  }

  /** What the last connection adds. */
  lemma {:induction false} LastConnection(wire: D.Wire, log: seq<L.Control>, links: seq<D.Link>) returns (m: nat)
    requires D.AllGood(wire, log) && L.Increasing(log) && links != []
    ensures var link := links[|links| - 1];
            var before := D.Delivered(wire, log, links[..|links| - 1]).0;
            var n := |D.Wholes(before)|;
            && n <= |log| && m <= |log|
            && D.Delivered(wire, log, links).0
               == before + D.Receive(wire, if n <= m then log[n..m] else [], link.chars, link.breaks)
  {
    var front, link := links[..|links| - 1], links[|links| - 1];
    D.WholeEventsOnceInOrder(wire, log, front);
    var (before, since) := D.Delivered(wire, log, front);
    m := if link.visible <= |log| then link.visible else |log|;
    assert L.Prefix(log, link.visible) == log[..m];
    L.AfterIsSlice(log, |D.Wholes(before)|, m);
    D.AfterIsGood(wire, log[..m], since);
    D.ReceiveIsParse(wire, D.ToSend(log, since, link), link.chars, link.breaks);
  }

  lemma {:induction false} LastConnectionInOrder(w: Worker, wire: D.Wire, log: seq<L.Control>, links: seq<D.Link>)
    requires D.AllGood(wire, log) && L.Increasing(log) && w.name == wire.name && links != []
    requires InOrder(w, log, D.Delivered(wire, log, links[..|links| - 1]).0)
    ensures InOrder(w, log, D.Delivered(wire, log, links).0)
  {
    var m := LastConnection(wire, log, links);
    ReceivedAppends(w, wire, log, D.Delivered(wire, log, links[..|links| - 1]).0, m, links[|links| - 1]);
  }

  lemma {:induction false} ReceivedAppends(w: Worker, wire: D.Wire, log: seq<L.Control>, hs: seq<D.Handed>, m: nat,
                                           link: D.Link)
    requires InOrder(w, log, hs) && |D.Wholes(hs)| <= |log| && m <= |log| && w.name == wire.name
    ensures var n := |D.Wholes(hs)|;
            InOrder(w, log, hs + D.Receive(wire, if n <= m then log[n..m] else [], link.chars, link.breaks))
  {
    var n := |D.Wholes(hs)|;
    var got := D.Receive(wire, if n <= m then log[n..m] else [], link.chars, link.breaks);
    GotInOrder(w, wire, log, n, m, link, got);
    InOrderAppends(w, log, hs, got);
  }

  /** Whatever the connections do, what is handed on is in order. */
  lemma {:induction false} DeliveredInOrder(w: Worker, wire: D.Wire, log: seq<L.Control>, links: seq<D.Link>)
    requires D.AllGood(wire, log) && L.Increasing(log) && w.name == wire.name
    ensures InOrder(w, log, D.Delivered(wire, log, links).0)
  {
    if links != [] {
      DeliveredInOrder(w, wire, log, links[..|links| - 1]);
      LastConnectionInOrder(w, wire, log, links);
    }
  }

  lemma {:induction false} GotInOrder(w: Worker, wire: D.Wire, log: seq<L.Control>, n: nat, m: nat, link: D.Link,
                                      got: seq<D.Handed>)
    requires n <= |log| && m <= |log| && w.name == wire.name
    requires got == D.Receive(wire, if n <= m then log[n..m] else [], link.chars, link.breaks)
    ensures GoesOn(w, log, n, got)
  {
    var es := if n <= m then log[n..m] else [];
    if got != [] {
      ReceivedInOrder(wire, es, link.chars, link.breaks, |got| - 1);
    }
    forall i | 0 <= i < |got|
      ensures if got[i].Whole? then got[i].control == log[n + i]
              else got[i].name == w.name(log[n + i]) && i == |got| - 1
    {
      ReceivedInOrder(wire, es, link.chars, link.breaks, i);
      assert es[i] == log[n + i];
    }
  }

  /** From the stream to the controller: over any connections, once the last thing handed on is a whole event, the
      stored interrupt is the one that the delivered events ask for if and only if no fragment has dropped one. */
  lemma {:induction false} DeliveredInterruptExactly(w: Worker, wire: D.Wire, log: seq<L.Control>, links: seq<D.Link>)
    requires D.AllGood(wire, log) && L.Increasing(log) && w.name == wire.name
    requires forall i :: 0 <= i < |log| ==> SameKind(w, log[i])
    requires !EndsInFragment(D.Delivered(wire, log, links).0)
    ensures var hs := D.Delivered(wire, log, links).0;
            HandleAll(w, hs) == HandleWholes(w, hs) <==> !Dropped(w, hs)
  {
    DeliveredInOrder(w, wire, log, links);
    SameInterruptExactly(w, log, D.Delivered(wire, log, links).0);
  }

  // ---- an interrupt that a fragment drops ----

  const KILL := L.Control(1, "hard_kill")
  const RESUME := L.Control(2, "machine_resume")

  /** Worker m1, a hard kill for its machine, and a resume for machine m2. */
  const M1 := Worker("m1", (c: L.Control) => c.body,
                     (c: L.Control) => Fields(c.body, "", "", if c == KILL then "m1" else "m2", "", Some(c.sequence)))

  lemma {:induction false} PlainToken(s: string, fallback: string)
    requires s != "" && Trimmed(IsSpace, s) && forall i :: 0 <= i < |s| ==> LowerChar(s[i]) == s[i]
    ensures Token(s, fallback) == s && Strip(s) == s && Lower(s) == s
  {
    TrimIsTrimmed(IsSpace, s);
  }

  lemma {:induction false} KillStep()
    ensures SameKind(M1, KILL) && WholeStep(M1, KILL).Some? && WholeStep(M1, KILL).value.Request?
    ensures var s := Some(WholeStep(M1, KILL).value.s); Clears(s, "m1") && !Clears(s, "m2")
  {
    PlainToken("hard_kill", "message");
    PlainToken("hard_kill", "hard_kill");
    PlainToken("machine", "run");
    PlainToken("m1", "");
    PlainToken("m2", "");
    assert "hard_kill"[0] != "machine_resume"[0] && "m1"[1] != "m2"[1];
  }

  lemma {:induction false} ResumeStep()
    ensures SameKind(M1, RESUME) && WholeStep(M1, RESUME) == Some(I.ClearMachine("m2"))
    ensures FragmentStep(M1, M1.name(RESUME)) == Some(I.ClearMachine("m1"))
  {
    PlainToken("machine_resume", "message");
    PlainToken("m1", "");
    PlainToken("m2", "");
  }

  /** A resume for another machine, cut and delivered again: its fragment lifts the hard kill of this machine, which the
      event itself leaves in place. */
  lemma {:induction false} ResumeElsewhereLifts()
    ensures var hs := [] + [D.Whole(KILL)] + [D.Fragment("machine_resume", "")] + [D.Whole(RESUME)];
            InOrder(M1, [KILL, RESUME], hs) && HandleAll(M1, hs) == None && HandleWholes(M1, hs).Some?
  {
    var log := [KILL, RESUME];
    KillStep();
    ResumeStep();
    var one := [] + [D.Whole(KILL)];
    var two := one + [D.Fragment("machine_resume", "")];
    OneMoreHandled(M1, [], D.Whole(KILL));
    OneMoreHandled(M1, one, D.Fragment("machine_resume", ""));
    OneMoreHandled(M1, two, D.Whole(RESUME));
    OneMoreInOrder(M1, log, [], D.Whole(KILL));
    OneMoreInOrder(M1, log, one, D.Fragment("machine_resume", ""));
    OneMoreInOrder(M1, log, two, D.Whole(RESUME));
  }
}
