/** The reconnecting listener of the control stream (`start_control_stream_listener` in
    scripts/orion_local_worker_runtime.py).

    What is asked of the server: its log of control events has strictly increasing positive sequence numbers, and a
    connection opened with `since_sequence` yields, in order, the events after that number that it has by then. A
    connection may drop after any number of events, also because the handler raised. */
module ControlListener {

  datatype Control = Control(sequence: int, body: string)

  /** One connection: how much of the log exists while it is open, and after how many events it ends at the latest. */
  datatype Connection = Connection(visible: nat, cut: nat)

  ghost predicate Increasing(log: seq<Control>) {
    && (forall i :: 0 <= i < |log| ==> log[i].sequence > 0)
    && (forall i, j :: 0 <= i < j < |log| ==> log[i].sequence < log[j].sequence)
  }

  /** The events of `log` after `since`, in order. */
  function After(log: seq<Control>, since: int): (es: seq<Control>) {
    if log == [] then []
    else (if log[0].sequence > since then [log[0]] else []) + After(log[1..], since)
  }

  function Prefix<T>(s: seq<T>, n: nat): (r: seq<T>) {
    if n <= |s| then s[..n] else s
  }

  /** What a connection delivers. */
  function Served(log: seq<Control>, since: int, c: Connection): (es: seq<Control>) {
    Prefix(After(Prefix(log, c.visible), since), c.cut)
  }

  function Max(a: int, b: int): (m: int) {
    if a < b then b else a
  }

  function Advance(since: int, es: seq<Control>): (r: int) {
    if es == [] then since else Max(Advance(since, es[..|es| - 1]), es[|es| - 1].sequence)
  }

  /** The events handed to the handler over all connections, and the final `since_sequence`. */
  function Delivered(log: seq<Control>, connections: seq<Connection>): (r: (seq<Control>, int)) {
    if connections == [] then ([], 0)
    else
      var (before, since) := Delivered(log, connections[..|connections| - 1]);
      var es := Served(log, since, connections[|connections| - 1]);
      (before + es, Advance(since, es))
  }

  /** Handing on the events of one connection. */
  method HandOn(handed: seq<Control>, since: int, es: seq<Control>) returns (handed': seq<Control>, since': int)
    ensures handed' == handed + es && since' == Advance(since, es)
  {
    handed', since' := handed, since;
    for k := 0 to |es|
      invariant handed' == handed + es[..k] && since' == Advance(since, es[..k])
    {
      assert es[..k + 1][..k] == es[..k];
      since' := Max(since', es[k].sequence);
      handed' := handed' + [es[k]];
    }
    assert es[..|es|] == es;
  }

  /** The listener's loop over connections and the loop over the events of each. */
  method Listen(log: seq<Control>, connections: seq<Connection>) returns (handed: seq<Control>, sinceSequence: int)
    ensures (handed, sinceSequence) == Delivered(log, connections)
  {
    handed, sinceSequence := [], 0;
    for i := 0 to |connections|
      invariant (handed, sinceSequence) == Delivered(log, connections[..i])
    {
      DeliveredOneMore(log, connections, i);
      handed, sinceSequence := HandOn(handed, sinceSequence, Served(log, sinceSequence, connections[i]));
    }
    assert connections[..|connections|] == connections;
  }

  lemma {:induction false} DeliveredOneMore(log: seq<Control>, connections: seq<Connection>, i: nat)
    requires i < |connections|
    ensures var (before, since) := Delivered(log, connections[..i]);
            var es := Served(log, since, connections[i]);
            Delivered(log, connections[..i + 1]) == (before + es, Advance(since, es))
  {
    assert connections[..i + 1][..i] == connections[..i];
  }

  // ---- exactly once, in order ----

  /** The last sequence number of a list of delivered events; 0 before the first. */
  function LastSequence(es: seq<Control>): (n: int) {
    if es == [] then 0 else es[|es| - 1].sequence
  }

  lemma {:induction false} NothingAfter(log: seq<Control>, since: int)
    requires forall i :: 0 <= i < |log| ==> log[i].sequence <= since
    ensures After(log, since) == []
  {
    if log != [] {
      NothingAfter(log[1..], since);
    }
  }

  lemma {:induction false} EverythingAfter(log: seq<Control>, since: int)
    requires forall i :: 0 <= i < |log| ==> log[i].sequence > since
    ensures After(log, since) == log
  {
    if log != [] {
      EverythingAfter(log[1..], since);
    }
  }

  lemma {:induction false} AfterConcat(a: seq<Control>, b: seq<Control>, since: int)
    ensures After(a + b, since) == After(a, since) + After(b, since)
  {
    if a == [] {
      assert a + b == b;
    } else {
      AfterConcat(a[1..], b, since);
      assert (a + b)[1..] == a[1..] + b;
    }
  }

  /** After the first `n` events, the server has exactly the rest of what it shows left to deliver. */
  lemma {:induction false} AfterPrefix(log: seq<Control>, n: nat)
    requires Increasing(log)
    ensures After(log, LastSequence(Prefix(log, n))) == if n <= |log| then log[n..] else []
  {
    var m := if n <= |log| then n else |log|;
    var since := LastSequence(log[..m]);
    assert log == log[..m] + log[m..];
    NothingAfter(log[..m], since);
    EverythingAfter(log[m..], since);
    AfterConcat(log[..m], log[m..], since);
    assert Prefix(log, n) == log[..m];
  }

  lemma {:induction false} AdvanceIsLast(since: int, es: seq<Control>)
    requires Increasing(es) && forall i :: 0 <= i < |es| ==> since < es[i].sequence
    ensures Advance(since, es) == if es == [] then since else LastSequence(es)
  {
    if es != [] {
      AdvanceIsLast(since, es[..|es| - 1]);
    }
  }

  /** How far one connection gets when the first `n` of `total` events have been delivered. */
  function Reaches(total: nat, n: nat, c: Connection): (m: nat) {
    var shown := if c.visible <= total then c.visible else total;
    if shown <= n then n else if shown - n <= c.cut then shown else n + c.cut
  }

  /** What the first `m` events of the log hold after the first `n`. */
  lemma {:induction false} AfterIsSlice(log: seq<Control>, n: nat, m: nat)
    requires Increasing(log) && n <= |log| && m <= |log|
    ensures After(log[..m], LastSequence(log[..n])) == if n <= m then log[n..m] else []
  {
    var shown := log[..m];
    if n <= m {
      AfterPrefix(shown, n);
      assert Prefix(shown, n) == log[..n] && shown[n..] == log[n..m];
    } else {
      NothingAfter(shown, LastSequence(log[..n]));
    }
  }

  lemma {:induction false} ServedIsSlice(log: seq<Control>, n: nat, c: Connection)
    requires Increasing(log) && n <= |log|
    ensures n <= Reaches(|log|, n, c) <= |log|
    ensures Served(log, LastSequence(log[..n]), c) == log[n..Reaches(|log|, n, c)]
  {
    var m := if c.visible <= |log| then c.visible else |log|;
    assert Prefix(log, c.visible) == log[..m];
    AfterIsSlice(log, n, m);
    if n <= m {
      PrefixOfSlice(log, n, m, c.cut);
    }
  }

  lemma {:induction false} PrefixOfSlice(log: seq<Control>, n: nat, m: nat, cut: nat)
    requires n <= m <= |log|
    ensures Prefix(log[n..m], cut) == log[n..if m - n <= cut then m else n + cut]
  {
  }

  lemma {:induction false} AdvanceIsLastOfSlice(log: seq<Control>, n: nat, m: nat)
    requires Increasing(log) && n <= m <= |log|
    ensures Advance(LastSequence(log[..n]), log[n..m]) == LastSequence(log[..m])
  {
    AdvanceIsLast(LastSequence(log[..n]), log[n..m]);
  }

  /** What one connection adds when the first `n` events of the log have been delivered. */
  lemma {:induction false} ServedIsNext(log: seq<Control>, n: nat, c: Connection)
    requires Increasing(log) && n <= |log|
    ensures var m := Reaches(|log|, n, c);
            var es := Served(log, LastSequence(log[..n]), c);
            && n <= m <= |log| && log[..n] + es == log[..m]
            && Advance(LastSequence(log[..n]), es) == LastSequence(log[..m])
  {
    ServedIsSlice(log, n, c);
    AdvanceIsLastOfSlice(log, n, Reaches(|log|, n, c));
  }

  /** Over any number of connection drops, the handler gets each control event exactly once and in sequence order:
      what it was handed is the beginning of the log, with nothing missing or repeated, and `since_sequence` is the
      last sequence number it was handed. */
  lemma {:induction false} DeliveredOnceInOrder(log: seq<Control>, connections: seq<Connection>)
    requires Increasing(log)
    ensures var (handed, since) := Delivered(log, connections);
            |handed| <= |log| && handed == log[..|handed|] && since == LastSequence(handed)
  {
    if connections != [] {
      var front, c := connections[..|connections| - 1], connections[|connections| - 1];
      DeliveredOnceInOrder(log, front);
      var (before, since) := Delivered(log, front);
      ServedIsNext(log, |before|, c);
    }
  }

  /** Nothing is lost for good: a last connection that is not cut short completes the delivery of the whole log. */
  lemma {:induction false} UncutConnectionCatchesUp(log: seq<Control>, connections: seq<Connection>, c: Connection)
    requires Increasing(log) && c.visible >= |log| && c.cut >= |log|
    ensures Delivered(log, connections + [c]).0 == log
  {
    assert (connections + [c])[..|connections|] == connections;
    DeliveredOnceInOrder(log, connections);
    var before := Delivered(log, connections).0;
    ServedIsNext(log, |before|, c);
    assert log[..|log|] == log;
  }
}
