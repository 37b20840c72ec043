/** The server-sent-event stream that carries control events: the parser of the local worker
    (`iter_control_events` in scripts/orion_local_worker_runtime.py) and the printer of
    scripts/deepseek_anthropic_proxy.py.

    The line format is that of section 9.2.5 and 9.2.6 of the WHATWG HTML Standard, with two differences in the code:
    data pending at the end of the stream is delivered, and the id does not outlive its event. Streams are decoded
    text; the payload of an event is its data text, before it is read as JSON. */
module ControlStream {
  import opened Text
  import J = Json

  datatype Event = Event(name: string, id: Option<string>, payload: string)

  /** The parser's variables: `event_name`, `event_id`, `data_lines`. */
  datatype Parser = Parser(name: string, id: Option<string>, data: seq<string>)

  const RESET := Parser("message", None, [])

  // ---- lines ----

  /** The length of the first line of `s`, with its newline. */
  function LineEnd(s: string): (n: nat)
    ensures n <= |s| && (s != "" ==> n > 0)
  {
    if s == "" then 0 else if s[0] == '\n' then 1 else 1 + LineEnd(s[1..])
  }

  /** What repeated `readline` calls return. */
  function Lines(s: string): (ls: seq<string>) {
    if s == "" then [] else [s[..LineEnd(s)]] + Lines(s[LineEnd(s)..])
  }

  predicate IsNewline(c: char) {
    c == '\r' || c == '\n'
  }

  function Clean(raw: string): (line: string) {
    TrimRight(IsNewline, raw)
  }

  predicate IsBlank(raw: string) {
    Clean(raw) == ""
  }

  predicate IsComment(raw: string) {
    Clean(raw) != "" && Clean(raw)[0] == ':'
  }

  // ---- fields ----

  /** `line.partition(":")` without the separator, one leading space of the value removed. */
  function FieldOf(line: string): (f: string) {
    line[..IndexOf(line, ':')]
  }

  function ValueOf(line: string): (v: string) {
    var n := IndexOf(line, ':');
    if n == |line| then "" else
    var v := line[n + 1..];
    if v != "" && v[0] == ' ' then v[1..] else v
  }

  function Join(lines: seq<string>): (s: string) {
    if lines == [] then "" else if |lines| == 1 then lines[0]
    else Join(lines[..|lines| - 1]) + "\n" + lines[|lines| - 1]
  }

  // ---- the parser ----

  function Flush(p: Parser): (es: seq<Event>) {
    if p.data == [] then [] else [Event(p.name, p.id, Join(p.data))]
  }

  function Take(p: Parser, line: string): (r: Parser) {
    var field, value := FieldOf(line), ValueOf(line);
    if field == "event" then p.(name := if Strip(value) == "" then "message" else Strip(value))
    else if field == "id" then p.(id := if Strip(value) == "" then None else Some(Strip(value)))
    else if field == "data" then p.(data := p.data + [value])
    else p
  }

  /** One line: the parser's new state and the events it yields. */
  function Feed(p: Parser, raw: string): (r: (Parser, seq<Event>)) {
    if IsBlank(raw) then (RESET, Flush(p))
    else if IsComment(raw) then (p, [])
    else (Take(p, Clean(raw)), [])
  }

  function ParseLines(p: Parser, lines: seq<string>): (es: seq<Event>)
    decreases |lines|
  {
    if lines == [] then Flush(p)
    else
      var (p', out) := Feed(p, lines[0]);
      out + ParseLines(p', lines[1..])
  }

  function Parse(stream: string): (es: seq<Event>) {
    ParseLines(RESET, Lines(stream))
  }

  method IterControlEvents(stream: string) returns (events: seq<Event>)
    ensures events == Parse(stream)
  {
    events := [];
    var name, id, data := "message", None, [];
    var rest := stream;
    assert [] + Parse(stream) == Parse(stream);
    while rest != ""
      invariant events + ParseLines(Parser(name, id, data), Lines(rest)) == Parse(stream)
      decreases |rest|
    {
      var raw := rest[..LineEnd(rest)];
      ghost var p, before := Parser(name, id, data), events;
      ParseStep(before, p, rest);
      var line := Clean(raw);
      if line == "" {
        if data != [] {
          events := events + [Event(name, id, Join(data))];
        } else {
          assert events + [] == events;
        }
        name, id, data := "message", None, [];
      } else {
        assert events + [] == events;
        if line[0] != ':' {
          name, id, data := TakeField(name, id, data, line);
        }
      }
      rest := rest[LineEnd(rest)..];
    }
    if data != [] {
      events := events + [Event(name, id, Join(data))];
    }
  }

  method TakeField(name: string, id: Option<string>, data: seq<string>, line: string)
    returns (name': string, id': Option<string>, data': seq<string>)
    ensures Parser(name', id', data') == Take(Parser(name, id, data), line)
  {
    name', id', data' := name, id, data;
    var field, value := FieldOf(line), ValueOf(line);
    if field == "event" {
      name' := if Strip(value) == "" then "message" else Strip(value);
    } else if field == "id" {
      id' := if Strip(value) == "" then None else Some(Strip(value));
    } else if field == "data" {
      data' := data + [value];
    }
  }

  lemma {:induction false} ParseStep(before: seq<Event>, p: Parser, rest: string)
    requires rest != ""
    ensures var r := Feed(p, rest[..LineEnd(rest)]);
            before + ParseLines(p, Lines(rest)) == (before + r.1) + ParseLines(r.0, Lines(rest[LineEnd(rest)..]))
  {
    var n := LineEnd(rest);
    assert Lines(rest) == [rest[..n]] + Lines(rest[n..]);
    assert Lines(rest)[1..] == Lines(rest[n..]);
    var r := Feed(p, rest[..n]);
    var tail := ParseLines(r.0, Lines(rest[n..]));
    assert before + (r.1 + tail) == (before + r.1) + tail;
  }

  // ---- the declarative meaning: events are blocks of lines between blank lines ----

  /** The lines split at blank lines; never empty. */
  function Blocks(lines: seq<string>): (bs: seq<seq<string>>)
    ensures |bs| >= 1
  {
    if lines == [] then [[]]
    else
      var bs := Blocks(lines[1..]);
      if IsBlank(lines[0]) then [[]] + bs else [[lines[0]] + bs[0]] + bs[1..]
  }

  predicate IsField(raw: string, field: string) {
    !IsBlank(raw) && !IsComment(raw) && FieldOf(Clean(raw)) == field
  }

  /** The values of all lines of a block with the given field, in order. */
  function Values(block: seq<string>, field: string): (vs: seq<string>) {
    if block == [] then []
    else
      Values(block[..|block| - 1], field) +
      (if IsField(block[|block| - 1], field) then [ValueOf(Clean(block[|block| - 1]))] else [])
  }

  function LastStripped(vs: seq<string>): (s: string) {
    if vs == [] then "" else Strip(vs[|vs| - 1])
  }

  /** The event a block stands for: all its data lines joined, under its last event name and its last id; a block
      without data stands for none. */
  function BlockEvent(block: seq<string>): (es: seq<Event>) {
    var data := Values(block, "data");
    var name, id := LastStripped(Values(block, "event")), LastStripped(Values(block, "id"));
    if data == [] then []
    else [Event(if name == "" then "message" else name, if id == "" then None else Some(id), Join(data))]
  }

  function BlockEvents(bs: seq<seq<string>>): (es: seq<Event>) {
    if bs == [] then [] else BlockEvent(bs[0]) + BlockEvents(bs[1..])
  }

  /** The parser's state after the lines of an unfinished block. */
  function Scanned(block: seq<string>): (p: Parser) {
    var name, id := LastStripped(Values(block, "event")), LastStripped(Values(block, "id"));
    Parser(if name == "" then "message" else name, if id == "" then None else Some(id), Values(block, "data"))
  }

  lemma {:induction false} ValuesExtend(block: seq<string>, raw: string, field: string)
    ensures Values(block + [raw], field)
            == Values(block, field) + (if IsField(raw, field) then [ValueOf(Clean(raw))] else [])
  {
    assert (block + [raw])[..|block|] == block;
  }

  lemma {:induction false} ScannedExtends(block: seq<string>, raw: string)
    requires !IsBlank(raw)
    ensures Feed(Scanned(block), raw) == (Scanned(block + [raw]), [])
  {
    ValuesExtend(block, raw, "event");
    ValuesExtend(block, raw, "id");
    ValuesExtend(block, raw, "data");
    assert forall vs: seq<string> :: vs + [] == vs;
  }

  /** `block` put in front of the first block. */
  function Prepend(block: seq<string>, bs: seq<seq<string>>): (r: seq<seq<string>>)
    requires |bs| >= 1
  {
    [block + bs[0]] + bs[1..]
  }

  lemma {:induction false} BlockEventsPrepend(block: seq<string>, bs: seq<seq<string>>)
    requires |bs| >= 1
    ensures BlockEvents(Prepend(block, bs)) == BlockEvent(block + bs[0]) + BlockEvents(bs[1..])
  {
    assert Prepend(block, bs)[1..] == bs[1..];
  }

  lemma {:induction false} PrependNothing(bs: seq<seq<string>>)
    requires |bs| >= 1
    ensures Prepend([], bs) == bs
  {
    assert [] + bs[0] == bs[0];
  }

  lemma {:induction false} ParseFromBlock(block: seq<string>, lines: seq<string>)
    ensures ParseLines(Scanned(block), lines) == BlockEvents(Prepend(block, Blocks(lines)))
    decreases |lines|
  {
    BlockEventsPrepend(block, Blocks(lines));
    if lines == [] {
      assert block + [] == block;
      assert BlockEvent(block) + [] == BlockEvent(block);
    } else if IsBlank(lines[0]) {
      ParseFromBlock([], lines[1..]);
      PrependNothing(Blocks(lines[1..]));
      BlankEndsBlock(block, lines);
    } else {
      ParseFromBlock(block + [lines[0]], lines[1..]);
      BlockEventsPrepend(block + [lines[0]], Blocks(lines[1..]));
      LineExtendsBlock(block, lines);
      ScannedExtends(block, lines[0]);
      FedSilently(Scanned(block), Scanned(block + [lines[0]]), lines);
    }
  }

  lemma {:induction false} BlankEndsBlock(block: seq<string>, lines: seq<string>)
    requires lines != [] && IsBlank(lines[0])
    ensures block + Blocks(lines)[0] == block && Blocks(lines)[1..] == Blocks(lines[1..])
    ensures ParseLines(Scanned(block), lines) == BlockEvent(block) + ParseLines(Scanned([]), lines[1..])
  {
    assert Blocks(lines) == [[]] + Blocks(lines[1..]);
    assert Scanned([]) == RESET;
  }

  lemma {:induction false} FedSilently(p: Parser, p': Parser, lines: seq<string>)
    requires lines != [] && Feed(p, lines[0]) == (p', [])
    ensures ParseLines(p, lines) == ParseLines(p', lines[1..])
  {
    assert [] + ParseLines(p', lines[1..]) == ParseLines(p', lines[1..]);
  }

  lemma {:induction false} BlocksUnfold(lines: seq<string>)
    requires lines != [] && !IsBlank(lines[0])
    ensures var bs := Blocks(lines[1..]);
            Blocks(lines)[0] == [lines[0]] + bs[0] && Blocks(lines)[1..] == bs[1..]
  {
  }

  lemma {:induction false} LineExtendsBlock(block: seq<string>, lines: seq<string>)
    requires lines != [] && !IsBlank(lines[0])
    ensures block + Blocks(lines)[0] == (block + [lines[0]]) + Blocks(lines[1..])[0]
    ensures Blocks(lines)[1..] == Blocks(lines[1..])[1..]
  {
    BlocksUnfold(lines);
    ConcatAssoc(block, [lines[0]], Blocks(lines[1..])[0]);
  }

  /** The line-by-line parser yields exactly the events of the blocks between blank lines; the last block counts even
      if the stream ends without a blank line. */
  lemma {:induction false} ParserMeansBlocks(stream: string)
    ensures Parse(stream) == BlockEvents(Blocks(Lines(stream)))
  {
    var bs := Blocks(Lines(stream));
    ParseFromBlock([], Lines(stream));
    PrependNothing(bs);
  }

  // ---- cutting a stream, and comments ----

  lemma {:induction false} LineEndConcat(a: string, b: string)
    requires a != "" && a[|a| - 1] == '\n'
    ensures LineEnd(a + b) == LineEnd(a)
  {
    if a[0] != '\n' {
      assert (a + b)[1..] == a[1..] + b;
      LineEndConcat(a[1..], b);
    }
  }

  lemma {:induction false} LinesUnfold(s: string, n: nat)
    requires s != "" && n == LineEnd(s)
    ensures Lines(s) == [s[..n]] + Lines(s[n..])
  {
  }

  lemma {:induction false} LineEndIsNewline(a: string)
    requires a != "" && a[|a| - 1] == '\n'
    ensures a[LineEnd(a) - 1] == '\n'
  {
    if a[0] != '\n' {
      LineEndIsNewline(a[1..]);
    }
  }

  lemma {:induction false} LinesConcat(a: string, b: string)
    requires a == "" || a[|a| - 1] == '\n'
    ensures Lines(a + b) == Lines(a) + Lines(b)
    decreases |a|
  {
    if a == "" {
      assert a + b == b;
    } else {
      var n := LineEnd(a);
      LineEndConcat(a, b);
      LinesUnfold(a, n);
      LinesUnfold(a + b, n);
      SliceConcat(a, b, n);
      LinesConcat(a[n..], b);
      ConcatAssoc([a[..n]], Lines(a[n..]), Lines(b));
    }
  }

  lemma {:induction false} SliceConcat(a: string, b: string, n: nat)
    requires n <= |a|
    ensures (a + b)[..n] == a[..n] && (a + b)[n..] == a[n..] + b
  {
  }

  lemma {:induction false} OneLine(l: string)
    requires '\n' !in l
    ensures Lines(l + "\n") == [l + "\n"]
  {
    EndOfOneLine(l);
    var s := l + "\n";
    assert s[..|s|] == s && s[|s|..] == "";
    assert Lines(s) == [s[..|s|]] + Lines(s[|s|..]);
  }

  lemma {:induction false} EndOfOneLine(l: string)
    requires '\n' !in l
    ensures LineEnd(l + "\n") == |l| + 1
  {
    if l != "" {
      assert (l + "\n")[1..] == l[1..] + "\n";
      EndOfOneLine(l[1..]);
    }
  }

  lemma {:induction false} ParseLinesCut(p: Parser, a: seq<string>, b: seq<string>)
    requires a != [] && IsBlank(a[|a| - 1])
    ensures ParseLines(p, a + b) == ParseLines(p, a) + ParseLines(RESET, b)
    decreases |a|
  {
    var (p', out) := Feed(p, a[0]);
    assert (a + b)[1..] == a[1..] + b;
    if |a| == 1 {
      assert a[1..] + b == b;
      assert ParseLines(p, a) == out + Flush(RESET);
      assert out + [] == out;
    } else {
      ParseLinesCut(p', a[1..], b);
      ConcatAssoc(out, ParseLines(p', a[1..]), ParseLines(RESET, b));
    }
  }

  // ---- what is yielded before the stream ends ----

  /** The parser's state after some lines. */
  function EndState(p: Parser, lines: seq<string>): (r: Parser)
    decreases |lines|
  {
    if lines == [] then p else EndState(Feed(p, lines[0]).0, lines[1..])
  }

  /** The events yielded at blank lines, without the flush at the end. */
  function YieldLines(p: Parser, lines: seq<string>): (es: seq<Event>)
    decreases |lines|
  {
    if lines == [] then [] else Feed(p, lines[0]).1 + YieldLines(Feed(p, lines[0]).0, lines[1..])
  }

  /** What reading a stream yields if the connection breaks with an error where the text ends. */
  function Yielded(stream: string): (es: seq<Event>) {
    YieldLines(RESET, Lines(stream))
  }

  /** An orderly end adds the flush, and nothing else. */
  lemma {:induction false} ParseIsYieldAndFlush(p: Parser, lines: seq<string>)
    ensures ParseLines(p, lines) == YieldLines(p, lines) + Flush(EndState(p, lines))
    decreases |lines|
  {
    if lines == [] {
      assert [] + Flush(p) == Flush(p);
    } else {
      var (p', out) := Feed(p, lines[0]);
      ParseIsYieldAndFlush(p', lines[1..]);
      ConcatAssoc(out, YieldLines(p', lines[1..]), Flush(EndState(p', lines[1..])));
    }
  }

  lemma {:induction false} YieldConcat(p: Parser, a: seq<string>, b: seq<string>)
    ensures YieldLines(p, a + b) == YieldLines(p, a) + YieldLines(EndState(p, a), b)
    decreases |a|
  {
    if a == [] {
      assert a + b == b;
      assert [] + YieldLines(p, b) == YieldLines(p, b);
    } else {
      var (p', out) := Feed(p, a[0]);
      YieldConcat(p', a[1..], b);
      assert (a + b)[1..] == a[1..] + b;
      ConcatAssoc(out, YieldLines(p', a[1..]), YieldLines(EndState(p', a[1..]), b));
    }
  }

  lemma {:induction false} BlankEndsClean(p: Parser, lines: seq<string>)
    requires lines != [] && IsBlank(lines[|lines| - 1])
    ensures EndState(p, lines) == RESET
    decreases |lines|
  {
    if |lines| > 1 {
      BlankEndsClean(Feed(p, lines[0]).0, lines[1..]);
    } else {
      assert lines[1..] == [];
    }
  }

  lemma {:induction false} NothingYielded(p: Parser, lines: seq<string>)
    requires forall i :: 0 <= i < |lines| ==> !IsBlank(lines[i])
    ensures YieldLines(p, lines) == []
    decreases |lines|
  {
    if lines != [] {
      NothingYielded(Feed(p, lines[0]).0, lines[1..]);
    }
  }

  /** A stream cut after a blank line: parsing the whole is parsing the two parts. */
  lemma {:induction false} CutAfterBlankLine(a: string, b: string)
    requires a == "" || (a[|a| - 1] == '\n' && IsBlank(Lines(a)[|Lines(a)| - 1]))
    ensures Parse(a + b) == Parse(a) + Parse(b)
  {
    LinesConcat(a, b);
    if a == "" {
      assert Lines(a) + Lines(b) == Lines(b);
      assert [] + Parse(b) == Parse(b);
    } else {
      ParseLinesCut(RESET, Lines(a), Lines(b));
    }
  }

  lemma {:induction false} ParseLinesSkipsComment(p: Parser, a: seq<string>, c: string, b: seq<string>)
    requires IsComment(c)
    ensures ParseLines(p, a + [c] + b) == ParseLines(p, a + b)
    decreases |a|
  {
    if a == [] {
      assert a + [c] + b == [c] + b && a + b == b;
      assert ([c] + b)[1..] == b;
      assert [] + ParseLines(p, b) == ParseLines(p, b);
    } else {
      assert (a + [c] + b)[1..] == a[1..] + [c] + b && (a + b)[1..] == a[1..] + b;
      ParseLinesSkipsComment(Feed(p, a[0]).0, a[1..], c, b);
    }
  }

  /** Inserting a comment line anywhere between lines changes nothing. */
  lemma {:induction false} CommentsChangeNothing(a: string, comment: string, b: string)
    requires a == "" || a[|a| - 1] == '\n'
    requires '\n' !in comment
    ensures Parse(a + ((":" + comment + "\n") + b)) == Parse(a + b)
  {
    var c := ":" + comment + "\n";
    assert c == (":" + comment) + "\n";
    OneLine(":" + comment);
    LinesConcat(c, b);
    LinesConcat(a, c + b);
    LinesConcat(a, b);
    CommentIsComment(comment);
    assert Lines(a) + ([c] + Lines(b)) == Lines(a) + [c] + Lines(b);
    ParseLinesSkipsComment(RESET, Lines(a), c, Lines(b));
  }

  lemma {:induction false} CommentIsComment(comment: string)
    ensures IsComment(":" + comment + "\n")
  {
    var c := ":" + comment + "\n";
    assert c == [':'] + (comment + "\n");
    TrimRightCons(IsNewline, ':', comment + "\n");
  }

  // ---- printing, and reading back what was printed ----

  /** `_build_anthropic_stream_event` */
  function Print(name: string, payload: string): (s: string) {
    ("event: " + name + "\n") + (("data: " + payload + "\n") + "\n")
  }

  function PrintAll(es: seq<Event>): (s: string) {
    if es == [] then "" else Print(es[0].name, es[0].payload) + PrintAll(es[1..])
  }

  predicate NameOk(name: string) {
    name != "" && Trimmed(IsSpace, name) && '\n' !in name
  }

  predicate EndsWithReturn(s: string) {
    s != "" && s[|s| - 1] == '\r'
  }

  /** The events that survive printing and parsing. */
  predicate Printable(e: Event) {
    NameOk(e.name) && e.id.None? && '\n' !in e.payload && !EndsWithReturn(e.payload)
  }

  lemma {:induction false} FieldLine(f: string, v: string)
    requires ':' !in f
    ensures FieldOf(f + ": " + v) == f && ValueOf(f + ": " + v) == v
  {
    var line := f + ": " + v;
    assert line == f + [':'] + (" " + v);
    IndexOfAfter(f, ':', " " + v);
    assert line[..|f|] == f;
    assert line[|f| + 1..] == " " + v;
    assert (" " + v)[1..] == v;
  }

  /** The line `f: v` as the parser sees it, whatever `v` is. */
  lemma {:induction false} CleanFieldLine(f: string, v: string)
    requires f != "" && ':' !in f
    ensures var raw := f + ": " + v;
            Clean(raw) == f + ": " + Clean(v) && !IsBlank(raw) && !IsComment(raw)
            && FieldOf(Clean(raw)) == f && ValueOf(Clean(raw)) == Clean(v)
  {
    var prefix := f + ": ";
    assert prefix[|prefix| - 1] == ' ';
    TrimRightKeepsPrefix(IsNewline, prefix, v);
    FieldLine(f, Clean(v));
    assert (prefix + Clean(v))[0] == f[0];
  }

  lemma {:induction false} CleanOneNewline(v: string)
    ensures Clean(v + "\n") == Clean(v)
    ensures v == "" || !IsNewline(v[|v| - 1]) ==> Clean(v) == v
    ensures |Clean(v)| <= |v|
  {
    assert (v + "\n")[..|v + "\n"| - 1] == v;
    TrimRightIsTrimmed(IsNewline, v);
  }

  lemma {:induction false} LastIsNotNewline(v: string)
    requires '\n' !in v && !EndsWithReturn(v)
    ensures v == "" || !IsNewline(v[|v| - 1])
  {
    if v != "" {
      assert v[|v| - 1] in v;
    }
  }

  lemma {:induction false} EventLine(p: Parser, name: string)
    requires NameOk(name)
    ensures Feed(p, "event: " + name + "\n") == (p.(name := name), [])
  {
    assert "event: " + name + "\n" == "event" + ": " + (name + "\n");
    assert ':' !in "event";
    CleanFieldLine("event", name + "\n");
    CleanOneNewline(name);
    TrimIsTrimmed(IsSpace, name);
  }

  lemma {:induction false} DataLine(p: Parser, payload: string)
    requires '\n' !in payload && !EndsWithReturn(payload)
    ensures Feed(p, "data: " + payload + "\n") == (p.(data := p.data + [payload]), [])
  {
    assert "data: " + payload + "\n" == "data" + ": " + (payload + "\n");
    assert ':' !in "data" && "data"[0] != "event"[0] && "data"[0] != "id"[0];
    CleanFieldLine("data", payload + "\n");
    LastIsNotNewline(payload);
    CleanOneNewline(payload);
  }

  lemma {:induction false} PrintedLines(name: string, payload: string)
    requires '\n' !in name
    ensures Lines(Print(name, payload))
            == ["event: " + name + "\n"] + Lines("data: " + payload + "\n") + ["\n"]
    ensures '\n' !in payload ==> Lines("data: " + payload + "\n") == ["data: " + payload + "\n"]
  {
    var first, second := "event: " + name + "\n", "data: " + payload + "\n";
    OneLine("event: " + name);
    LinesConcat(first, second + "\n");
    LinesConcat(second, "\n");
    OneLine("");
    assert "" + "\n" == "\n";
    if '\n' !in payload {
      OneLine("data: " + payload);
    }
  }

  lemma {:induction false} PrintedThenParsed(name: string, payload: string, rest: seq<string>)
    requires NameOk(name) && '\n' !in payload && !EndsWithReturn(payload)
    ensures ParseLines(RESET, ["event: " + name + "\n"] + ["data: " + payload + "\n"] + ["\n"] + rest)
            == [Event(name, None, payload)] + ParseLines(RESET, rest)
  {
    var l1, l2 := "event: " + name + "\n", "data: " + payload + "\n";
    var p1, p2 := RESET.(name := name), Parser(name, None, [payload]);
    var lines := [l1] + [l2] + ["\n"] + rest;
    EventLine(RESET, name);
    DataLine(p1, payload);
    FedSilently(RESET, p1, lines);
    assert lines[1..] == [l2] + (["\n"] + rest);
    assert [] + [payload] == [payload];
    FedSilently(p1, p2, lines[1..]);
    assert lines[1..][1..] == ["\n"] + rest;
    BlankLine(p2, rest);
  }

  lemma {:induction false} BlankLine(p: Parser, rest: seq<string>)
    ensures IsBlank("\n")
    ensures ParseLines(p, ["\n"] + rest) == Flush(p) + ParseLines(RESET, rest)
  {
    assert "\n"[..0] == "";
    assert (["\n"] + rest)[1..] == rest;
  }

  /** Printing well-formed events and parsing the text gives the same events back. */
  lemma {:induction false} PrintThenParse(es: seq<Event>)
    requires forall i :: 0 <= i < |es| ==>
               NameOk(es[i].name) && '\n' !in es[i].payload && !EndsWithReturn(es[i].payload)
    ensures |Parse(PrintAll(es))| == |es|
    ensures forall i :: 0 <= i < |es| ==> Parse(PrintAll(es))[i] == es[i].(id := None)
  {
    if es != [] {
      var e := es[0];
      PrintThenParse(es[1..]);
      PrintedLines(e.name, e.payload);
      LinesConcat(Print(e.name, e.payload), PrintAll(es[1..]));
      PrintedThenParsed(e.name, e.payload, Lines(PrintAll(es[1..])));
      assert Parse(PrintAll(es)) == [e.(id := None)] + Parse(PrintAll(es[1..]));
    }
  }

  // ---- only well-formed events survive: what parsed events look like ----

  /** A line has no newline except at its end. */
  predicate IsLine(raw: string) {
    raw != "" && '\n' !in raw[..|raw| - 1]
  }

  lemma {:induction false} LineEndMeans(s: string)
    requires s != ""
    ensures IsLine(s[..LineEnd(s)])
  {
    var n := LineEnd(s);
    if s[0] != '\n' && s[1..] != "" {
      LineEndMeans(s[1..]);
      assert s[..n] == [s[0]] + s[1..][..n - 1];
      assert s[..n][..n - 1] == [s[0]] + s[1..][..n - 1][..n - 2];
    }
  }

  lemma {:induction false} LinesAreLines(s: string)
    ensures forall l :: l in Lines(s) ==> IsLine(l)
    decreases |s|
  {
    if s != "" {
      LineEndMeans(s);
      LinesAreLines(s[LineEnd(s)..]);
    }
  }

  predicate ValueOk(v: string) {
    '\n' !in v && !EndsWithReturn(v)
  }

  lemma {:induction false} CleanIsOk(raw: string)
    requires IsLine(raw)
    ensures ValueOk(Clean(raw))
  {
    TrimRightIsTrimmed(IsNewline, raw);
    var c := Clean(raw);
    if c == raw {
      assert forall i :: 0 <= i < |raw| - 1 ==> raw[i] == raw[..|raw| - 1][i];
    } else {
      assert forall i :: 0 <= i < |c| ==> c[i] == raw[..|raw| - 1][i];
    }
  }

  lemma {:induction false} ValueIsOk(line: string)
    requires ValueOk(line)
    ensures ValueOk(ValueOf(line))
  {
    var v := ValueOf(line);
    assert exists k :: 0 <= k <= |line| && v == line[k..] by {
      var n := IndexOf(line, ':');
      if n == |line| {
        assert v == line[n..];
      } else {
        assert v == line[n + 1..] || v == line[n + 1..][1..];
        if v != line[n + 1..] {
          assert v == line[n + 2..];
        }
      }
    }
  }

  predicate ParserOk(p: Parser) {
    NameOk(p.name) && forall v :: v in p.data ==> ValueOk(v)
  }

  predicate EventOk(e: Event) {
    NameOk(e.name) && !EndsWithReturn(e.payload)
  }

  lemma {:induction false} JoinIsOk(data: seq<string>)
    requires data != [] && forall v :: v in data ==> ValueOk(v)
    ensures !EndsWithReturn(Join(data))
  {
    assert data[|data| - 1] in data;
  }

  lemma {:induction false} FeedKeepsOk(p: Parser, raw: string)
    requires ParserOk(p) && IsLine(raw)
    ensures ParserOk(Feed(p, raw).0) && forall e :: e in Feed(p, raw).1 ==> EventOk(e)
  {
    if IsBlank(raw) {
      if p.data != [] {
        JoinIsOk(p.data);
      }
    } else {
      CleanIsOk(raw);
      ValueIsOk(Clean(raw));
      TrimIsTrimmed(IsSpace, ValueOf(Clean(raw)));
    }
  }

  lemma {:induction false} ParsedEventsAreOk(p: Parser, lines: seq<string>)
    requires ParserOk(p) && forall l :: l in lines ==> IsLine(l)
    ensures forall e :: e in ParseLines(p, lines) ==> EventOk(e)
    decreases |lines|
  {
    if lines == [] {
      if p.data != [] {
        JoinIsOk(p.data);
      }
    } else {
      FeedKeepsOk(p, lines[0]);
      ParsedEventsAreOk(Feed(p, lines[0]).0, lines[1..]);
    }
  }

  // ---- a payload with a newline comes back shorter ----

  function DataWeight(data: seq<string>): (n: nat) {
    if data == [] then 0 else DataWeight(data[..|data| - 1]) + |data[|data| - 1]| + 1
  }

  function EventsWeight(es: seq<Event>): (n: nat) {
    if es == [] then 0 else |es[0].payload| + 1 + EventsWeight(es[1..])
  }

  function LineWeight(raw: string): (n: nat) {
    if IsField(raw, "data") then |ValueOf(Clean(raw))| + 1 else 0
  }

  function LinesWeight(lines: seq<string>): (n: nat) {
    if lines == [] then 0 else LineWeight(lines[0]) + LinesWeight(lines[1..])
  }

  lemma {:induction false} JoinWeight(data: seq<string>)
    requires data != []
    ensures |Join(data)| + 1 == DataWeight(data)
  {
    if |data| > 1 {
      JoinWeight(data[..|data| - 1]);
    }
  }

  lemma {:induction false} FeedWeight(p: Parser, raw: string)
    ensures EventsWeight(Feed(p, raw).1) + DataWeight(Feed(p, raw).0.data) <= DataWeight(p.data) + LineWeight(raw)
  {
    if IsBlank(raw) {
      if p.data != [] {
        JoinWeight(p.data);
        assert Flush(p)[1..] == [];
      }
    } else if IsField(raw, "data") {
      var v := ValueOf(Clean(raw));
      assert (p.data + [v])[..|p.data|] == p.data;
      assert "data"[0] != "event"[0] && "data"[0] != "id"[0];
    }
  }

  lemma {:induction false} EventsWeightConcat(a: seq<Event>, b: seq<Event>)
    ensures EventsWeight(a + b) == EventsWeight(a) + EventsWeight(b)
  {
    if a == [] {
      assert a + b == b;
    } else {
      EventsWeightConcat(a[1..], b);
      assert (a + b)[1..] == a[1..] + b;
    }
  }

  lemma {:induction false} ParsedWeight(p: Parser, lines: seq<string>)
    ensures EventsWeight(ParseLines(p, lines)) <= DataWeight(p.data) + LinesWeight(lines)
    decreases |lines|
  {
    if lines == [] {
      if p.data != [] {
        JoinWeight(p.data);
        assert Flush(p)[1..] == [];
      }
    } else {
      var (p', out) := Feed(p, lines[0]);
      FeedWeight(p, lines[0]);
      ParsedWeight(p', lines[1..]);
      EventsWeightConcat(out, ParseLines(p', lines[1..]));
    }
  }

  lemma {:induction false} LinesWeightConcat(a: seq<string>, b: seq<string>)
    ensures LinesWeight(a + b) == LinesWeight(a) + LinesWeight(b)
  {
    if a == [] {
      assert a + b == b;
    } else {
      LinesWeightConcat(a[1..], b);
      assert (a + b)[1..] == a[1..] + b;
    }
  }

  lemma {:induction false} LineWeightBound(raw: string)
    requires raw != ""
    ensures LineWeight(raw) < |raw|
  {
    TrimRightIsTrimmed(IsNewline, raw);
    if IsField(raw, "data") {
      assert |FieldOf(Clean(raw))| == 4;
    }
  }

  lemma {:induction false} TextWeightBound(s: string)
    requires s != ""
    ensures LinesWeight(Lines(s)) < |s|
    decreases |s|
  {
    var n := LineEnd(s);
    LinesUnfold(s, n);
    LineWeightBound(s[..n]);
    assert ([s[..n]] + Lines(s[n..]))[1..] == Lines(s[n..]);
    if s[n..] != "" {
      TextWeightBound(s[n..]);
    }
  }

  lemma {:induction false} OneDataLineWeight(d: string)
    ensures LineWeight("data: " + d + "\n") <= |d| + 1
  {
    assert "data: " + d + "\n" == "data" + ": " + (d + "\n");
    assert ':' !in "data";
    CleanFieldLine("data", d + "\n");
    CleanOneNewline(d);
  }

  lemma {:induction false} DataLinesWeight(d: string)
    ensures LinesWeight(Lines("data: " + d + "\n")) <= |d| + 1
    ensures '\n' in d ==> LinesWeight(Lines("data: " + d + "\n")) < |d| + 1
  {
    if '\n' in d {
      var n := LineEnd(d);
      SplitAtFirstNewline(d);
      var d1, d2 := d[..n - 1], d[n..];
      assert "data: " + d + "\n" == ("data: " + d1 + "\n") + (d2 + "\n");
      LinesConcat("data: " + d1 + "\n", d2 + "\n");
      OneLine("data: " + d1);
      LinesWeightConcat(["data: " + d1 + "\n"], Lines(d2 + "\n"));
      assert ["data: " + d1 + "\n"][1..] == [];
      OneDataLineWeight(d1);
      TextWeightBound(d2 + "\n");
    } else {
      OneLine("data: " + d);
      OneDataLineWeight(d);
      assert ["data: " + d + "\n"][1..] == [];
    }
  }

  lemma {:induction false} LineEndsAtNewline(d: string)
    requires '\n' in d
    ensures d[LineEnd(d) - 1] == '\n'
  {
    if d[0] != '\n' {
      LineEndsAtNewline(d[1..]);
    }
  }

  lemma {:induction false} SplitAtFirstNewline(d: string)
    requires '\n' in d
    ensures var n := LineEnd(d); d[n - 1] == '\n' && '\n' !in d[..n - 1] && d == d[..n - 1] + "\n" + d[n..]
  {
    LineEndMeans(d);
    LineEndsAtNewline(d);
    var n := LineEnd(d);
    assert d[..n][..n - 1] == d[..n - 1];
  }

  lemma {:induction false} PrintedWeight(es: seq<Event>)
    requires forall i :: 0 <= i < |es| ==> '\n' !in es[i].name
    ensures LinesWeight(Lines(PrintAll(es))) <= EventsWeight(es)
    ensures (exists i :: 0 <= i < |es| && '\n' in es[i].payload) ==>
              LinesWeight(Lines(PrintAll(es))) < EventsWeight(es)
  {
    if es != [] {
      var e := es[0];
      PrintedWeight(es[1..]);
      DataLinesWeight(e.payload);
      PrintedLines(e.name, e.payload);
      LinesConcat(Print(e.name, e.payload), PrintAll(es[1..]));
      LinesWeightConcat(Lines(Print(e.name, e.payload)), Lines(PrintAll(es[1..])));
      OtherLinesWeigh0(e.name, Lines("data: " + e.payload + "\n"));
      if i :| 0 <= i < |es| && '\n' in es[i].payload {
        assert i > 0 ==> es[1..][i - 1] == es[i];
      }
    }
  }

  lemma {:induction false} OtherLinesWeigh0(name: string, lines: seq<string>)
    ensures LinesWeight(["event: " + name + "\n"] + lines + ["\n"]) == LinesWeight(lines)
  {
    var l := "event: " + name + "\n";
    LinesWeightConcat([l] + lines, ["\n"]);
    LinesWeightConcat([l], lines);
    assert [l][1..] == [] && ["\n"][1..] == [];
    assert l == "event" + ": " + (name + "\n");
    assert ':' !in "event" && "event"[0] != "data"[0];
    CleanFieldLine("event", name + "\n");
    BlankLine(RESET, []);
  }

  /** The round trip, exactly: a list of events comes back unchanged from printing and parsing if and only if every
      event has a non-empty name without surrounding white space or newlines, no id, and a payload without newline
      that does not end with a carriage return. */
  lemma {:induction false} RoundTrip(es: seq<Event>)
    ensures Parse(PrintAll(es)) == es <==> forall i :: 0 <= i < |es| ==> Printable(es[i])
  {
    if forall i :: 0 <= i < |es| ==> Printable(es[i]) {
      PrintThenParse(es);
    }
    if Parse(PrintAll(es)) == es {
      LinesAreLines(PrintAll(es));
      ResetIsOk();
      ParsedEventsAreOk(RESET, Lines(PrintAll(es)));
      assert forall i :: 0 <= i < |es| ==> es[i] in es;
      ParsedWeight(RESET, Lines(PrintAll(es)));
      PrintedWeight(es);
      PrintThenParse(es);
    }
  }

  /** What the printer really prints are JSON payloads, which are always on one line: they all come back. */
  lemma {:induction false} JsonRoundTrip(es: seq<Event>, data: seq<J.Value>)
    requires |data| == |es|
    requires forall i :: 0 <= i < |es| ==>
               NameOk(es[i].name) && es[i].id.None? && J.WellFormed(data[i]) && es[i].payload == J.Dumps(data[i])
    ensures Parse(PrintAll(es)) == es
  {
    forall i | 0 <= i < |es| ensures Printable(es[i]) {
      J.DumpsIsAscii(data[i]);
      AsciiIsOneLine(es[i].payload);
    }
    RoundTrip(es);
  }

  lemma {:induction false} AsciiIsOneLine(s: string)
    requires J.Ascii(s)
    ensures '\n' !in s && '\r' !in s && !EndsWithReturn(s)
  {
  }

  lemma {:induction false} ResetIsOk()
    ensures ParserOk(RESET)
  {
    assert "message"[0] == 'm' && "message"[6] == 'e';
  }
}
