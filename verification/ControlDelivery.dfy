/** The control stream from end to end (scripts/orion_local_worker_runtime.py): the server prints control events, the
    connection may end after any character, the parser flushes what it has, and the listener reconnects.

    A connection that ends in good order inside an event's data hands on a fragment: an event of the same name, without
    a sequence number. The reconnect delivers the whole event afterwards. A connection that breaks with an error hands
    on nothing of an event that is not complete. */
module ControlDelivery {
  import opened Text
  import S = ControlStream
  import L = ControlListener

  /** How control events are written: their event name, their data text, and what `json.loads` makes of a text. */
  datatype Wire = Wire(name: L.Control -> string, text: L.Control -> string, decode: string -> Option<L.Control>)

  /** The text is one line of JSON: it decodes to the event, and no proper prefix of it decodes. */
  ghost predicate Good(w: Wire, c: L.Control) {
    && S.NameOk(w.name(c)) && OneLine(w.text(c)) && w.text(c) != ""
    && w.decode(w.text(c)) == Some(c)
    && forall n: nat :: n < |w.text(c)| ==> w.decode(w.text(c)[..n]) == None
  }

  ghost predicate AllGood(w: Wire, es: seq<L.Control>) {
    forall i :: 0 <= i < |es| ==> Good(w, es[i])
  }

  predicate OneLine(s: string) {
    forall i :: 0 <= i < |s| ==> s[i] != '\n' && s[i] != '\r'
  }

  function Printed(w: Wire, c: L.Control): (s: string) {
    S.Print(w.name(c), w.text(c))
  }

  function Stream(w: Wire, es: seq<L.Control>): (s: string) {
    if es == [] then "" else Printed(w, es[0]) + Stream(w, es[1..])
  }

  // ---- one event, cut anywhere ----

  /** The length of the line before the data line. */
  function Head(name: string): (n: nat) {
    8 + |name|
  }

  /** What the parser yields for an event that is cut after `n` characters: nothing before the data field is complete;
      then an event with as much of the payload as there is. */
  function Cut(name: string, payload: string, n: nat): (es: seq<S.Event>) {
    if n < Head(name) + 4 then []
    else if n < Head(name) + 6 then [S.Event(name, None, "")]
    else [S.Event(name, None, L.Prefix(payload, n - Head(name) - 6))]
  }

  lemma {:induction false} SingleLine(l: string)
    requires S.IsLine(l)
    ensures S.Lines(l) == [l]
  {
    OneLineEnd(l);
    assert l[..|l|] == l && l[|l|..] == "";
  }

  lemma {:induction false} OneLineEnd(l: string)
    requires S.IsLine(l)
    ensures S.LineEnd(l) == |l|
  {
    if |l| > 1 {
      assert l[0] == l[..|l| - 1][0];
      assert l[1..][..|l| - 2] == l[..|l| - 1][1..];
      OneLineEnd(l[1..]);
    }
  }

  lemma {:induction false} ParseOne(p: S.Parser, l: string)
    requires S.IsLine(l)
    ensures S.ParseLines(p, S.Lines(l)) == S.Feed(p, l).1 + S.Flush(S.Feed(p, l).0)
  {
    SingleLine(l);
    assert [l][1..] == [];
  }

  /** A line that is not a data line adds no data. */
  lemma {:induction false} NoData(p: S.Parser, l: string)
    requires p.data == [] && S.FieldOf(S.Clean(l)) != "data"
    ensures S.Feed(p, l).1 == [] && S.Flush(S.Feed(p, l).0) == []
  {
  }

  lemma {:induction false} CleanPrefix(l: string)
    ensures S.Clean(l) <= l
  {
    TrimRightIsTrimmed(S.IsNewline, l);
  }

  lemma {:induction false} NotADataLine(l: string)
    requires l != "" && (l[0] == 'e' || |l| < 4)
    ensures S.FieldOf(S.Clean(l)) != "data"
  {
    CleanPrefix(l);
    var line := S.Clean(l);
    var f := S.FieldOf(line);
    assert f <= line;
    if f != "" {
      assert f[0] == l[0];
    }
    assert |"data"| == 4 && "data"[0] == 'd';
  }

  /** The cut event line. */
  lemma {:induction false} CutFirstLine(name: string, payload: string, n: nat)
    requires S.NameOk(name) && n <= Head(name)
    ensures S.Parse(S.Print(name, payload)[..n]) == []
  {
    var first := "event: " + name + "\n";
    var l := S.Print(name, payload)[..n];
    assert l == first[..n];
    if n > 0 {
      assert first[..|first| - 1] == "event: " + name;
      assert forall i :: 0 <= i < n - 1 ==> l[i] == ("event: " + name)[i];
      ParseOne(S.RESET, l);
      NotADataLine(l);
      NoData(S.RESET, l);
    }
  }

  /** After the event line, the parser goes on under the event's name. */
  lemma {:induction false} AfterFirstLine(name: string, rest: string)
    requires S.NameOk(name)
    ensures S.Parse("event: " + name + "\n" + rest) == S.ParseLines(S.RESET.(name := name), S.Lines(rest))
  {
    var first := "event: " + name + "\n";
    S.OneLine("event: " + name);
    S.LinesConcat(first, rest);
    S.EventLine(S.RESET, name);
    var lines := [first] + S.Lines(rest);
    assert lines[1..] == S.Lines(rest);
    var es := S.ParseLines(S.RESET.(name := name), S.Lines(rest));
    assert [] + es == es;
  }

  /** A data line gives the parser its value. */
  lemma {:induction false} TakesData(name: string, l: string, v: string)
    requires S.IsLine(l) && S.Clean(l) != "" && S.Clean(l)[0] != ':'
    requires S.FieldOf(S.Clean(l)) == "data" && S.ValueOf(S.Clean(l)) == v
    ensures S.ParseLines(S.RESET.(name := name), S.Lines(l)) == [S.Event(name, None, v)]
  {
    ParseOne(S.RESET.(name := name), l);
    assert "data"[0] != "event"[0] && "data"[0] != "id"[0];
    assert [] + [v] == [v];
  }

  /** The data line as far as it goes: `v` of the payload, without a newline. */
  lemma {:induction false} DataPrefix(name: string, v: string)
    requires OneLine(v)
    ensures S.ParseLines(S.RESET.(name := name), S.Lines("data: " + v)) == [S.Event(name, None, v)]
  {
    var l := "data: " + v;
    assert forall i :: 0 <= i < |l| ==> l[i] != '\n';
    assert l == "data" + ": " + v && ':' !in "data";
    S.CleanFieldLine("data", v);
    S.CleanOneNewline(v);
    TakesData(name, l, v);
  }

  /** The data field alone, with or without its colon. */
  lemma {:induction false} DataFieldOnly(name: string, l: string)
    requires l == "data" || l == "data:"
    ensures S.ParseLines(S.RESET.(name := name), S.Lines(l)) == [S.Event(name, None, "")]
  {
    assert '\n' !in l[..|l| - 1];
    S.CleanOneNewline(l);
    ColonOf(l);
    TakesData(name, l, "");
  }

  lemma {:induction false} ColonOf(l: string)
    requires l == "data" || l == "data:"
    ensures S.FieldOf(l) == "data" && S.ValueOf(l) == ""
  {
    assert ':' !in "data";
    if l == "data:" {
      assert l == "data" + [':'] + "";
      IndexOfAfter("data", ':', "");
    } else {
      IndexOfIsFirst(l, ':');
    }
  }

  lemma {:induction false} CutDataLine(name: string, payload: string, m: nat)
    requires OneLine(payload) && m < 8 + |payload|
    ensures var rest := (("data: " + payload + "\n") + "\n")[..m];
            S.ParseLines(S.RESET.(name := name), S.Lines(rest)) == Cut(name, payload, Head(name) + m)
  {
    var whole := ("data: " + payload + "\n") + "\n";
    var rest := whole[..m];
    if m == 0 {
    } else if m < 4 {
      assert rest == "data"[..m];
      assert '\n' !in rest[..m - 1];
      ParseOne(S.RESET.(name := name), rest);
      NotADataLine(rest);
      NoData(S.RESET.(name := name), rest);
    } else if m < 6 {
      assert rest == if m == 4 then "data" else "data:";
      DataFieldOnly(name, rest);
    } else if m <= 6 + |payload| {
      assert rest == "data: " + payload[..m - 6];
      DataPrefix(name, payload[..m - 6]);
    } else {
      FullDataLine(name, payload);
      assert rest == "data: " + payload + "\n";
      assert L.Prefix(payload, m - 6) == payload;
    }
  }

  lemma {:induction false} FullDataLine(name: string, payload: string)
    requires OneLine(payload)
    ensures S.ParseLines(S.RESET.(name := name), S.Lines("data: " + payload + "\n")) == [S.Event(name, None, payload)]
  {
    var l, p := "data: " + payload + "\n", S.RESET.(name := name);
    assert l[..|l| - 1] == "data: " + payload;
    ParseOne(p, l);
    assert '\n' !in payload && !S.EndsWithReturn(payload);
    S.DataLine(p, payload);
    assert [] + [payload] == [payload];
  }

  lemma {:induction false} CutEvent(name: string, payload: string, n: nat)
    requires S.NameOk(name) && OneLine(payload) && n < |S.Print(name, payload)|
    ensures S.Parse(S.Print(name, payload)[..n]) == Cut(name, payload, n)
  {
    if n <= Head(name) {
      CutFirstLine(name, payload, n);
    } else {
      var first, rest := "event: " + name + "\n", ("data: " + payload + "\n") + "\n";
      var m := n - Head(name);
      assert S.Print(name, payload)[..n] == first + rest[..m];
      AfterFirstLine(name, rest[..m]);
      CutDataLine(name, payload, m);
    }
  }

  lemma {:induction false} NotBlank(l: string)
    requires l != "" && !S.IsNewline(l[0])
    ensures !S.IsBlank(l)
  {
    assert l == [l[0]] + l[1..];
    TrimRightCons(S.IsNewline, l[0], l[1..]);
  }

  lemma {:induction false} OneLineYieldsNothing(p: S.Parser, l: string)
    requires l == "" || (S.IsLine(l) && !S.IsNewline(l[0]))
    ensures S.YieldLines(p, S.Lines(l)) == []
  {
    if l != "" {
      SingleLine(l);
      NotBlank(l);
      S.NothingYielded(p, [l]);
    }
  }

  lemma {:induction false} CutFirstYieldsNothing(name: string, n: nat)
    requires S.NameOk(name) && n <= Head(name)
    ensures S.Yielded(("event: " + name + "\n")[..n]) == []
  {
    var text := ("event: " + name + "\n")[..n];
    assert forall i :: 0 <= i < n - 1 ==> text[i] == ("event: " + name)[i];
    OneLineYieldsNothing(S.RESET, text);
  }

  lemma {:induction false} CutDataYieldsNothing(p: S.Parser, payload: string, m: nat)
    requires OneLine(payload) && m < 8 + |payload|
    ensures S.YieldLines(p, S.Lines((("data: " + payload + "\n") + "\n")[..m])) == []
  {
    var text := (("data: " + payload + "\n") + "\n")[..m];
    assert forall i :: 0 <= i < m - 1 ==> text[i] == ("data: " + payload)[i];
    OneLineYieldsNothing(p, text);
  }

  lemma {:induction false} FirstThenYields(name: string, rest: string)
    requires S.NameOk(name)
    ensures S.Yielded(("event: " + name + "\n") + rest) == S.YieldLines(S.RESET.(name := name), S.Lines(rest))
  {
    var first := "event: " + name + "\n";
    S.OneLine("event: " + name);
    S.LinesConcat(first, rest);
    S.EventLine(S.RESET, name);
    var lines := [first] + S.Lines(rest);
    assert lines[1..] == S.Lines(rest);
    var es := S.YieldLines(S.RESET.(name := name), S.Lines(rest));
    assert [] + es == es;
  }

  /** An event that is not complete yields nothing before the end. */
  lemma {:induction false} CutYieldsNothing(name: string, payload: string, n: nat)
    requires S.NameOk(name) && OneLine(payload) && n < |S.Print(name, payload)|
    ensures S.Yielded(S.Print(name, payload)[..n]) == []
  {
    var first, rest := "event: " + name + "\n", ("data: " + payload + "\n") + "\n";
    if n <= Head(name) {
      assert S.Print(name, payload)[..n] == first[..n];
      CutFirstYieldsNothing(name, n);
    } else {
      var m := n - Head(name);
      assert S.Print(name, payload)[..n] == first + rest[..m];
      FirstThenYields(name, rest[..m]);
      CutDataYieldsNothing(S.RESET.(name := name), payload, m);
    }
  }

  // ---- the whole stream, cut anywhere ----

  /** What reaches the handler: a whole control event, or a fragment of one. */
  datatype Handed = Whole(control: L.Control) | Fragment(name: string, payload: string)

  function Read(w: Wire, e: S.Event): (h: Handed) {
    var c := w.decode(e.payload);
    if c.Some? then Whole(c.value) else Fragment(e.name, e.payload)
  }

  function ReadAll(w: Wire, es: seq<S.Event>): (hs: seq<Handed>)
    ensures |hs| == |es| && forall i :: 0 <= i < |es| ==> hs[i] == Read(w, es[i])
  {
    seq(|es|, i requires 0 <= i < |es| => Read(w, es[i]))
  }

  /** What the handler gets of the events `es` when the connection ends after `n` characters, in good order or not. */
  function Receive(w: Wire, es: seq<L.Control>, n: nat, breaks: bool): (hs: seq<Handed>) {
    if es == [] then []
    else if n >= |Printed(w, es[0])| then [Whole(es[0])] + Receive(w, es[1..], n - |Printed(w, es[0])|, breaks)
    else if breaks then []
    else Tail(w, es[0], n)
  }

  /** What the parser makes of a text after which the connection ends. */
  function Events(text: string, breaks: bool): (es: seq<S.Event>) {
    if breaks then S.Yielded(text) else S.Parse(text)
  }

  /** The last event, cut after `n` characters: nothing, a fragment, or all that matters of it. */
  function Tail(w: Wire, c: L.Control, n: nat): (hs: seq<Handed>) {
    if n < Head(w.name(c)) + 4 then []
    else if n >= Head(w.name(c)) + 6 + |w.text(c)| then [Whole(c)]
    else [Fragment(w.name(c), if n < Head(w.name(c)) + 6 then "" else L.Prefix(w.text(c), n - Head(w.name(c)) - 6))]
  }

  lemma {:induction false} TailIsCut(w: Wire, c: L.Control, n: nat)
    requires Good(w, c)
    ensures ReadAll(w, Cut(w.name(c), w.text(c), n)) == Tail(w, c, n)
  {
    var text, k := w.text(c), n - Head(w.name(c)) - 6;
    assert w.decode(text[..0]) == None && text[..0] == "";
    if 0 <= k < |text| {
      assert w.decode(text[..k]) == None;
    } else if k >= |text| {
      assert text[..|text|] == text;
    }
  }

  lemma {:induction false} PrintedEvent(w: Wire, c: L.Control)
    requires Good(w, c)
    ensures var lines := S.Lines(Printed(w, c));
            && lines != [] && S.IsBlank(lines[|lines| - 1]) && Printed(w, c)[|Printed(w, c)| - 1] == '\n'
            && S.ParseLines(S.RESET, lines) == [S.Event(w.name(c), None, w.text(c))]
            && S.YieldLines(S.RESET, lines) == [S.Event(w.name(c), None, w.text(c))]
  {
    var name, payload := w.name(c), w.text(c);
    assert '\n' !in payload && !S.EndsWithReturn(payload);
    S.PrintedLines(name, payload);
    var e := S.Event(name, None, payload);
    S.PrintThenParse([e]);
    assert [e][1..] == [] && S.PrintAll([e]) == S.Print(name, payload) + "";
    assert S.Print(name, payload) + "" == S.Print(name, payload);
    var lines := S.Lines(Printed(w, c));
    S.BlankEndsClean(S.RESET, lines);
    S.ParseIsYieldAndFlush(S.RESET, lines);
    assert S.YieldLines(S.RESET, lines) + [] == S.YieldLines(S.RESET, lines);
  }

  /** A complete event, whatever follows and however the connection ends. */
  lemma {:induction false} WholePrint(w: Wire, c: L.Control, rest: string, breaks: bool)
    requires Good(w, c)
    ensures Events(Printed(w, c) + rest, breaks)
            == [S.Event(w.name(c), None, w.text(c))] + Events(rest, breaks)
  {
    var lines := S.Lines(Printed(w, c));
    PrintedEvent(w, c);
    if breaks {
      S.LinesConcat(Printed(w, c), rest);
      S.YieldConcat(S.RESET, lines, S.Lines(rest));
      S.BlankEndsClean(S.RESET, lines);
    } else {
      S.CutAfterBlankLine(Printed(w, c), rest);
    }
  }

  lemma {:induction false} ReadAllCons(w: Wire, e: S.Event, es: seq<S.Event>)
    ensures ReadAll(w, [e] + es) == [Read(w, e)] + ReadAll(w, es)
  {
  }

  lemma {:induction false} FirstIsWhole(w: Wire, es: seq<L.Control>, n: nat, breaks: bool)
    requires es != [] && AllGood(w, es) && n >= |Printed(w, es[0])|
    ensures var rest := L.Prefix(Stream(w, es[1..]), n - |Printed(w, es[0])|);
            ReadAll(w, Events(L.Prefix(Stream(w, es), n), breaks)) == [Whole(es[0])] + ReadAll(w, Events(rest, breaks))
  {
    var c, len := es[0], |Printed(w, es[0])|;
    var rest := L.Prefix(Stream(w, es[1..]), n - len);
    PrefixOfConcat(Printed(w, c), Stream(w, es[1..]), n);
    WholePrint(w, c, rest, breaks);
    ReadAllCons(w, S.Event(w.name(c), None, w.text(c)), Events(rest, breaks));
  }

  lemma {:induction false} PrefixOfConcat(a: string, b: string, n: nat)
    ensures n >= |a| ==> L.Prefix(a + b, n) == a + L.Prefix(b, n - |a|)
    ensures n < |a| ==> L.Prefix(a + b, n) == a[..n]
  {
  }

  /** Parsing what was received of a stream and reading each payload gives exactly `Receive`. */
  lemma {:induction false} ReceiveIsParse(w: Wire, es: seq<L.Control>, n: nat, breaks: bool)
    requires AllGood(w, es)
    ensures ReadAll(w, Events(L.Prefix(Stream(w, es), n), breaks)) == Receive(w, es, n, breaks)
  {
    if es == [] {
      assert L.Prefix(Stream(w, es), n) == "";
    } else if n >= |Printed(w, es[0])| {
      ReceiveIsParse(w, es[1..], n - |Printed(w, es[0])|, breaks);
      FirstIsWhole(w, es, n, breaks);
    } else {
      PrefixOfConcat(Printed(w, es[0]), Stream(w, es[1..]), n);
      if breaks {
        CutYieldsNothing(w.name(es[0]), w.text(es[0]), n);
      } else {
        CutEvent(w.name(es[0]), w.text(es[0]), n);
        TailIsCut(w, es[0], n);
      }
    }
  }

  // ---- the listener ----

  /** A connection: how much of the log exists while it is open, after how many characters it ends at the latest, and
      whether it breaks with an error then. */
  datatype Link = Link(visible: nat, chars: nat, breaks: bool)

  function Advance(since: int, hs: seq<Handed>): (r: int) {
    if hs == [] then since
    else
      var front, last := Advance(since, hs[..|hs| - 1]), hs[|hs| - 1];
      if last.Whole? then L.Max(front, last.control.sequence) else front
  }

  /** What the server has to send on a connection. */
  function ToSend(log: seq<L.Control>, since: int, link: Link): (es: seq<L.Control>) {
    L.After(L.Prefix(log, link.visible), since)
  }

  /** Everything handed to the handler over the connections, and the final `since_sequence`. */
  function Delivered(w: Wire, log: seq<L.Control>, links: seq<Link>): (r: (seq<Handed>, int)) {
    if links == [] then ([], 0)
    else
      var (before, since) := Delivered(w, log, links[..|links| - 1]);
      var link := links[|links| - 1];
      var got := ReadAll(w, Events(L.Prefix(Stream(w, ToSend(log, since, link)), link.chars), link.breaks));
      (before + got, Advance(since, got))
  }

  function Wholes(hs: seq<Handed>): (es: seq<L.Control>) {
    if hs == [] then []
    else Wholes(hs[..|hs| - 1]) + if hs[|hs| - 1].Whole? then [hs[|hs| - 1].control] else []
  }

  lemma {:induction false} WholesConcat(a: seq<Handed>, b: seq<Handed>)
    ensures Wholes(a + b) == Wholes(a) + Wholes(b)
  {
    if b == [] {
      assert a + b == a;
    } else {
      var last := if b[|b| - 1].Whole? then [b[|b| - 1].control] else [];
      WholesConcat(a, b[..|b| - 1]);
      assert (a + b)[..|a + b| - 1] == a + b[..|b| - 1];
      ConcatAssoc(Wholes(a), Wholes(b[..|b| - 1]), last);
    }
  }

  lemma {:induction false} AdvanceByWholes(since: int, hs: seq<Handed>)
    ensures Advance(since, hs) == L.Advance(since, Wholes(hs))
  {
    if hs != [] {
      AdvanceByWholes(since, hs[..|hs| - 1]);
      var front := Wholes(hs[..|hs| - 1]);
      if hs[|hs| - 1].Whole? {
        assert (front + [hs[|hs| - 1].control])[..|front|] == front;
      } else {
        assert front + [] == front;
      }
    }
  }

  /** The whole events that are received are the first ones. */
  lemma {:induction false} ReceivedWholes(w: Wire, es: seq<L.Control>, n: nat, breaks: bool) returns (k: nat)
    ensures k <= |es| && Wholes(Receive(w, es, n, breaks)) == es[..k]
  {
    k := 0;
    if es != [] {
      if n >= |Printed(w, es[0])| {
        var rest := Receive(w, es[1..], n - |Printed(w, es[0])|, breaks);
        k := ReceivedWholes(w, es[1..], n - |Printed(w, es[0])|, breaks);
        WholesConcat([Whole(es[0])], rest);
        OneWhole(Whole(es[0]));
        k := k + 1;
        assert es[..k] == [es[0]] + es[1..][..k - 1];
      } else if !breaks {
        var tail := Tail(w, es[0], n);
        if tail != [] {
          OneWhole(tail[0]);
          k := if tail[0].Whole? then 1 else 0;
          assert es[..1] == [es[0]];
        }
      }
    }
  }

  lemma {:induction false} OneWhole(h: Handed)
    ensures Wholes([h]) == if h.Whole? then [h.control] else []
  {
    assert [h][..0] == [];
  }

  lemma {:induction false} AfterIsGood(w: Wire, log: seq<L.Control>, since: int)
    requires AllGood(w, log)
    ensures AllGood(w, L.After(log, since))
  {
    if log != [] {
      AfterIsGood(w, log[1..], since);
    }
  }

  /** As far as whole events go, the listener behaves as if connections ended between events. */
  lemma {:induction false} WholesAreListened(w: Wire, log: seq<L.Control>,
                                             links: seq<Link>) returns (cs: seq<L.Connection>)
    requires AllGood(w, log)
    ensures L.Delivered(log, cs) == (Wholes(Delivered(w, log, links).0), Delivered(w, log, links).1)
  {
    cs := [];
    if links != [] {
      var front, link := links[..|links| - 1], links[|links| - 1];
      cs := WholesAreListened(w, log, front);
      var (before, since) := Delivered(w, log, front);
      var es := ToSend(log, since, link);
      AfterIsGood(w, L.Prefix(log, link.visible), since);
      ReceiveIsParse(w, es, link.chars, link.breaks);
      var got := Receive(w, es, link.chars, link.breaks);
      var k := ReceivedWholes(w, es, link.chars, link.breaks);
      WholesConcat(before, got);
      AdvanceByWholes(since, got);
      cs := ListenOnce(log, cs, since, link.visible, k);
    }
  }

  lemma {:induction false} ListenOnce(log: seq<L.Control>, cs: seq<L.Connection>, since: int, visible: nat, k: nat)
      returns (more: seq<L.Connection>)
    requires L.Delivered(log, cs).1 == since && k <= |L.After(L.Prefix(log, visible), since)|
    ensures var es := L.After(L.Prefix(log, visible), since)[..k];
            L.Delivered(log, more) == (L.Delivered(log, cs).0 + es, L.Advance(since, es))
  {
    more := cs + [L.Connection(visible, k)];
    assert more[..|cs|] == cs;
  }

  /** Over any number of connections that end anywhere, the whole events handed on are the beginning of the log, each
      once and in order, and `since_sequence` is the last of them. */
  lemma {:induction false} WholeEventsOnceInOrder(w: Wire, log: seq<L.Control>, links: seq<Link>)
    requires AllGood(w, log) && L.Increasing(log)
    ensures var (handed, since) := Delivered(w, log, links);
            var es := Wholes(handed);
            |es| <= |log| && es == log[..|es|] && since == L.LastSequence(es)
  {
    var cs := WholesAreListened(w, log, links);
    L.DeliveredOnceInOrder(log, cs);
  }

  // ---- fragments ----

  /** The connection ends inside the data of one of the events: after its data field is complete, and before its text
      is. */
  ghost predicate EndsInside(w: Wire, es: seq<L.Control>, n: nat) {
    exists j :: 0 <= j < |es| && EndsInsideOf(w, es, j, n)
  }

  ghost predicate EndsInsideOf(w: Wire, es: seq<L.Control>, j: nat, n: nat)
    requires j < |es|
  {
    var at := |Stream(w, es[..j])| + Head(w.name(es[j]));
    at + 4 <= n < at + 6 + |w.text(es[j])|
  }

  ghost predicate HasFragment(hs: seq<Handed>) {
    exists i :: 0 <= i < |hs| && hs[i].Fragment?
  }

  lemma {:induction false} StreamPrefix(w: Wire, es: seq<L.Control>, j: nat)
    requires 0 < j <= |es|
    ensures |Stream(w, es[..j])| == |Printed(w, es[0])| + |Stream(w, es[1..][..j - 1])|
  {
    assert es[..j][0] == es[0] && es[..j][1..] == es[1..][..j - 1];
  }

  /** A connection hands on a fragment if and only if it ends in good order inside an event's data. */
  lemma {:induction false} FragmentExactly(w: Wire, es: seq<L.Control>, n: nat, breaks: bool)
    ensures HasFragment(Receive(w, es, n, breaks)) <==> !breaks && EndsInside(w, es, n)
  {
    if es != [] {
      var len := |Printed(w, es[0])|;
      assert |Stream(w, es[..0])| == 0;
      assert len == Head(w.name(es[0])) + 8 + |w.text(es[0])|;
      if n >= len {
        FragmentExactly(w, es[1..], n - len, breaks);
        var rest := Receive(w, es[1..], n - len, breaks);
        FragmentAfterWhole(es[0], rest);
        ShiftInside(w, es, n);
      } else {
        forall j | 0 < j < |es| ensures !EndsInsideOf(w, es, j, n) {
          StreamPrefix(w, es, j);
        }
        assert EndsInside(w, es, n) <==> EndsInsideOf(w, es, 0, n);
        var tail := Tail(w, es[0], n);
        assert HasFragment(tail) <==> tail != [] && tail[0].Fragment?;
      }
    }
  }

  lemma {:induction false} FragmentAfterWhole(c: L.Control, rest: seq<Handed>)
    ensures HasFragment([Whole(c)] + rest) <==> HasFragment(rest)
  {
    var hs := [Whole(c)] + rest;
    if HasFragment(rest) {
      var i :| 0 <= i < |rest| && rest[i].Fragment?;
      assert hs[i + 1].Fragment?;
    }
    if HasFragment(hs) {
      var i :| 0 <= i < |hs| && hs[i].Fragment?;
      assert rest[i - 1].Fragment?;
    }
  }

  lemma {:induction false} ShiftInside(w: Wire, es: seq<L.Control>, n: nat)
    requires es != [] && n >= |Printed(w, es[0])|
    ensures EndsInside(w, es, n) <==> EndsInside(w, es[1..], n - |Printed(w, es[0])|)
  {
    var len := |Printed(w, es[0])|;
    assert len == Head(w.name(es[0])) + 8 + |w.text(es[0])| && |Stream(w, es[..0])| == 0;
    forall j | 0 < j < |es| ensures EndsInsideOf(w, es, j, n) <==> EndsInsideOf(w, es[1..], j - 1, n - len) {
      StreamPrefix(w, es, j);
    }
    if EndsInside(w, es, n) {
      var j :| 0 <= j < |es| && EndsInsideOf(w, es, j, n);
      assert EndsInsideOf(w, es[1..], j - 1, n - len);
    }
    if EndsInside(w, es[1..], n - len) {
      var j :| 0 <= j < |es[1..]| && EndsInsideOf(w, es[1..], j, n - len);
      assert EndsInsideOf(w, es, j + 1, n);
    }
  }

  /** The `i`-th connection ends in good order inside the data of an event. */
  ghost predicate LinkEndsInside(w: Wire, log: seq<L.Control>, links: seq<Link>, i: nat)
    requires i < |links|
  {
    !links[i].breaks && EndsInside(w, ToSend(log, Delivered(w, log, links[..i]).1, links[i]), links[i].chars)
  }

  lemma {:induction false} FragmentsConcat(a: seq<Handed>, b: seq<Handed>)
    ensures HasFragment(a + b) <==> HasFragment(a) || HasFragment(b)
  {
    if HasFragment(a) {
      var i :| 0 <= i < |a| && a[i].Fragment?;
      assert (a + b)[i].Fragment?;
    }
    if HasFragment(b) {
      var i :| 0 <= i < |b| && b[i].Fragment?;
      assert (a + b)[|a| + i].Fragment?;
    }
    if HasFragment(a + b) {
      var i :| 0 <= i < |a + b| && (a + b)[i].Fragment?;
      assert if i < |a| then a[i].Fragment? else b[i - |a|].Fragment?;
    }
  }

  /** The last connection hands on a fragment if and only if it ends inside an event's data. */
  lemma {:induction false} LastLinkFragments(w: Wire, log: seq<L.Control>, links: seq<Link>)
    requires AllGood(w, log) && links != []
    ensures HasFragment(Delivered(w, log, links).0) <==>
            HasFragment(Delivered(w, log, links[..|links| - 1]).0) || LinkEndsInside(w, log, links, |links| - 1)
  {
    var front, link := links[..|links| - 1], links[|links| - 1];
    var (before, since) := Delivered(w, log, front);
    var es := ToSend(log, since, link);
    AfterIsGood(w, L.Prefix(log, link.visible), since);
    ReceiveIsParse(w, es, link.chars, link.breaks);
    FragmentExactly(w, es, link.chars, link.breaks);
    FragmentsConcat(before, Receive(w, es, link.chars, link.breaks));
  }

  lemma {:induction false} EarlierLinks(w: Wire, log: seq<L.Control>, links: seq<Link>, i: nat)
    requires i < |links| - 1
    ensures LinkEndsInside(w, log, links[..|links| - 1], i) <==> LinkEndsInside(w, log, links, i)
  {
    assert links[..|links| - 1][..i] == links[..i];
  }

  /** Some connection ends in good order inside the data of an event. */
  ghost predicate SomeLinkEndsInside(w: Wire, log: seq<L.Control>, links: seq<Link>) {
    links != []
    && (SomeLinkEndsInside(w, log, links[..|links| - 1]) || LinkEndsInside(w, log, links, |links| - 1))
  }

  /** It is one of them, by its position. */
  lemma {:induction false} WhichLink(w: Wire, log: seq<L.Control>, links: seq<Link>) returns (i: nat)
    requires SomeLinkEndsInside(w, log, links)
    ensures i < |links| && LinkEndsInside(w, log, links, i)
  {
    if LinkEndsInside(w, log, links, |links| - 1) {
      i := |links| - 1;
    } else {
      i := WhichLink(w, log, links[..|links| - 1]);
      EarlierLinks(w, log, links, i);
    }
  }

  lemma {:induction false} AnyLink(w: Wire, log: seq<L.Control>, links: seq<Link>, i: nat)
    requires i < |links| && LinkEndsInside(w, log, links, i)
    ensures SomeLinkEndsInside(w, log, links)
  {
    if i < |links| - 1 {
      EarlierLinks(w, log, links, i);
      AnyLink(w, log, links[..|links| - 1], i);
    }
  }

  lemma {:induction false} LinksFragment(w: Wire, log: seq<L.Control>, links: seq<Link>)
    requires AllGood(w, log)
    ensures HasFragment(Delivered(w, log, links).0) <==> SomeLinkEndsInside(w, log, links)
  {
    if links != [] {
      LinksFragment(w, log, links[..|links| - 1]);
      LastLinkFragments(w, log, links);
    }
  }

  /** The handler is called exactly once per event, in order and for nothing else, if and only if no connection ends
      in good order inside an event's data. */
  lemma {:induction false} OnceExactlyWithoutCuts(w: Wire, log: seq<L.Control>, links: seq<Link>)
    requires AllGood(w, log) && L.Increasing(log)
    ensures var handed := Delivered(w, log, links).0;
            (|handed| <= |log| && forall i :: 0 <= i < |handed| ==> handed[i] == Whole(log[i])) <==>
            !SomeLinkEndsInside(w, log, links)
  {
    var handed := Delivered(w, log, links).0;
    LinksFragment(w, log, links);
    WholeEventsOnceInOrder(w, log, links);
    if !HasFragment(handed) {
      NoFragmentsAllWhole(handed);
    }
  }

  lemma {:induction false} NoFragmentsAllWhole(hs: seq<Handed>)
    requires !HasFragment(hs)
    ensures |Wholes(hs)| == |hs| && forall i :: 0 <= i < |hs| ==> hs[i] == Whole(Wholes(hs)[i])
  {
    if hs != [] {
      var front := hs[..|hs| - 1];
      forall i | 0 <= i < |front| ensures !front[i].Fragment? {
        assert front[i] == hs[i];
      }
      assert hs[|hs| - 1].Whole?;
      NoFragmentsAllWhole(front);
    }
  }

  // ---- a delivery with a fragment ----

  const HARD_KILL := L.Control(1, "hard kill")
  const WIRE := Wire((c: L.Control) => "hard_kill", (c: L.Control) => "{}",
                     (s: string) => if s == "{}" then Some(HARD_KILL) else None)

  lemma {:induction false} HardKillIsGood()
    ensures AllGood(WIRE, [HARD_KILL]) && L.Increasing([HARD_KILL])
    ensures Head(WIRE.name(HARD_KILL)) == 17 && |Printed(WIRE, HARD_KILL)| == 27
  {
    assert S.NameOk("hard_kill");
    forall n: nat | n < |"{}"| ensures WIRE.decode("{}"[..n]) == None {
      assert |"{}"[..n]| == n;
    }
    assert Good(WIRE, HARD_KILL);
  }

  lemma {:induction false} HardKillToSend(link: Link)
    requires link.visible == 1
    ensures ToSend([HARD_KILL], 0, link) == [HARD_KILL]
  {
    assert L.Prefix([HARD_KILL], 1) == [HARD_KILL];
    assert [HARD_KILL][1..] == [] && L.After([], 0) == [];
    assert [HARD_KILL] + [] == [HARD_KILL];
  }

  /** One connection after another, as long as nothing whole has arrived. */
  lemma {:induction false} HardKillReceived(links: seq<Link>)
    requires links != [] && links[|links| - 1].visible == 1 && Delivered(WIRE, [HARD_KILL], links[..|links| - 1]).1 == 0
    ensures var link := links[|links| - 1];
            var got := Receive(WIRE, [HARD_KILL], link.chars, link.breaks);
            Delivered(WIRE, [HARD_KILL], links)
            == (Delivered(WIRE, [HARD_KILL], links[..|links| - 1]).0 + got, Advance(0, got))
  {
    var link := links[|links| - 1];
    HardKillIsGood();
    HardKillToSend(link);
    ReceiveIsParse(WIRE, [HARD_KILL], link.chars, link.breaks);
  }

  lemma {:induction false} HardKillCut()
    ensures Receive(WIRE, [HARD_KILL], 24, false) == [Fragment("hard_kill", "{")]
    ensures Receive(WIRE, [HARD_KILL], 100, false) == [Whole(HARD_KILL)]
  {
    HardKillIsGood();
    assert "{}"[..1] == "{" && L.Prefix("{}", 1) == "{";
    assert [HARD_KILL][1..] == [];
    assert [Whole(HARD_KILL)] + [] == [Whole(HARD_KILL)];
  }

  lemma {:induction false} FirstConnection()
    ensures Delivered(WIRE, [HARD_KILL], [Link(1, 24, false)]) == ([Fragment("hard_kill", "{")], 0)
  {
    var first, got := Link(1, 24, false), [Fragment("hard_kill", "{")];
    assert [first][..0] == [];
    HardKillCut();
    HardKillReceived([first]);
    assert [] + got == got && got[..0] == [];
  }

  /** A hard kill whose connection ends after the first character of its data, and a second connection: the handler is
      called with a fragment under the name of the event, and then with the event. */
  lemma {:induction false} HardKillTwice()
    ensures Delivered(WIRE, [HARD_KILL], [Link(1, 24, false), Link(1, 100, false)]).0
            == [Fragment("hard_kill", "{")] + [Whole(HARD_KILL)]
  {
    var first, second := Link(1, 24, false), Link(1, 100, false);
    assert [first, second][..1] == [first];
    FirstConnection();
    HardKillCut();
    HardKillReceived([first, second]);
  }
}
