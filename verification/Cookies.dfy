/** Cookie headers in the frontend's proxy (frontend/proxy.ts): reading a header into an ordered map, setting one
    cookie, writing the map back, and folding a list of set-cookie headers into a request's cookie header. The text
    of a header is the cookie-string of section 4.2.1 of RFC 6265. */
module Cookies {
  import opened Text

  datatype Cookie = Cookie(name: string, value: string)

  /** White space as JavaScript's `trim` sees it. */
  predicate IsJsSpace(c: char) {
    || '\t' <= c <= '\r' || c == ' ' || c == '\U{a0}' || c == '\U{1680}'
    || '\U{2000}' <= c <= '\U{200a}'
    || c == '\U{2028}' || c == '\U{2029}' || c == '\U{202f}' || c == '\U{205f}' || c == '\U{3000}' || c == '\U{feff}'
  }

  function JsTrim(s: string): (r: string) {
    Trim(IsJsSpace, s)
  }

  /** `s.split(sep)` */
  function Split(s: string, sep: char): (parts: seq<string>)
    ensures |parts| >= 1
  {
    if s == "" then [""]
    else
      var rest := Split(s[1..], sep);
      if s[0] == sep then [""] + rest else [[s[0]] + rest[0]] + rest[1..]
  }

  // ---- a Map that remembers insertion order ----

  /** Position of a name in the map, or its size. */
  function Find(cs: seq<Cookie>, name: string): (i: nat)
    ensures i <= |cs|
    ensures i < |cs| ==> cs[i].name == name
    ensures forall k :: 0 <= k < i ==> cs[k].name != name
  {
    if cs == [] then 0 else if cs[0].name == name then 0 else 1 + Find(cs[1..], name)
  }

  function Get(cs: seq<Cookie>, name: string): (v: Option<string>) {
    if Find(cs, name) < |cs| then Some(cs[Find(cs, name)].value) else None
  }

  /** `map.set`: a known name keeps its place. */
  function Set(cs: seq<Cookie>, name: string, value: string): (r: seq<Cookie>) {
    var i := Find(cs, name);
    if i < |cs| then cs[i := Cookie(name, value)] else cs + [Cookie(name, value)]
  }

  ghost predicate Distinct(cs: seq<Cookie>) {
    forall i, j :: 0 <= i < j < |cs| ==> cs[i].name != cs[j].name
  }

  function Names(cs: seq<Cookie>): (ns: seq<string>)
    ensures |ns| == |cs|
    ensures forall i :: 0 <= i < |cs| ==> ns[i] == cs[i].name
  {
    seq(|cs|, i requires 0 <= i < |cs| => cs[i].name)
  }

  lemma {:induction false} SetIsUpdate(cs: seq<Cookie>, name: string, value: string)
    requires Distinct(cs)
    ensures Distinct(Set(cs, name, value))
    ensures Names(Set(cs, name, value)) == if name in Names(cs) then Names(cs) else Names(cs) + [name]
    ensures Get(Set(cs, name, value), name) == Some(value)
    ensures forall x :: x != name ==> Get(Set(cs, name, value), x) == Get(cs, x)
  {
    var r := Set(cs, name, value);
    assert name in Names(cs) <==> Find(cs, name) < |cs| by {
      if Find(cs, name) < |cs| {
        assert Names(cs)[Find(cs, name)] == name;
      }
    }
    assert r[if Find(cs, name) < |cs| then Find(cs, name) else |cs|].name == name;
    forall x | x != name ensures Get(r, x) == Get(cs, x) {
      var i := Find(cs, x);
      if i < |cs| {
        assert r[i] == cs[i];
      }
    }
  }

  // ---- reading and writing ----

  function ParsePart(part: string): (c: Option<Cookie>) {
    var t := JsTrim(part);
    var k := IndexOf(t, '=');
    if k == 0 || k == |t| then None else Some(Cookie(t[..k], t[k + 1..]))
  }

  function ParseParts(parts: seq<string>): (cs: seq<Cookie>) {
    if parts == [] then []
    else
      var cs := ParseParts(parts[..|parts| - 1]);
      var c := ParsePart(parts[|parts| - 1]);
      if c.None? then cs else Set(cs, c.value.name, c.value.value)
  }

  /** The cookies of a header, in first-seen order, each with its last value. */
  function ParseHeader(header: string): (cs: seq<Cookie>) {
    ParseParts(Split(header, ';'))
  }

  function Show(c: Cookie): (s: string) {
    c.name + "=" + c.value
  }

  function Print(cs: seq<Cookie>): (s: string) {
    if cs == [] then "" else if |cs| == 1 then Show(cs[0]) else Show(cs[0]) + "; " + Print(cs[1..])
  }

  function Upsert(header: string, name: string, value: string): (s: string) {
    Print(Set(ParseHeader(header), name, value))
  }

  method UpsertCookieHeader(header: string, name: string, value: string) returns (s: string)
    ensures s == Upsert(header, name, value)
  {
    var cookies: seq<Cookie> := [];
    var parts := Split(header, ';');
    for i := 0 to |parts|
      invariant cookies == ParseParts(parts[..i])
    {
      assert parts[..i + 1][..i] == parts[..i];
      var trimmed := JsTrim(parts[i]);
      var k := IndexOf(trimmed, '=');
      if k == 0 || k == |trimmed| {
        continue;
      }
      cookies := Set(cookies, trimmed[..k], trimmed[k + 1..]);
    }
    assert parts[..|parts|] == parts;
    cookies := Set(cookies, name, value);
    s := JoinCookies(cookies);
  }

  method JoinCookies(cs: seq<Cookie>) returns (s: string)
    ensures s == Print(cs)
  {
    s := "";
    var i := |cs|;
    while i > 0
      invariant 0 <= i <= |cs| && s == Print(cs[i..])
    {
      i := i - 1;
      assert cs[i..][1..] == cs[i + 1..];
      s := if i == |cs| - 1 then Show(cs[i]) else Show(cs[i]) + "; " + s;
    }
  }

  // ---- what can be written and read back ----

  /** The cookies that a header can carry: the name is not empty, holds neither '=' nor ';' and does not start with
      white space; the value holds no ';' and does not end with white space. */
  predicate CookieOk(c: Cookie) {
    && c.name != "" && '=' !in c.name && ';' !in c.name && !IsJsSpace(c.name[0])
    && ';' !in c.value && (c.value != "" ==> !IsJsSpace(c.value[|c.value| - 1]))
  }

  ghost predicate MapOk(cs: seq<Cookie>) {
    Distinct(cs) && forall i :: 0 <= i < |cs| ==> CookieOk(cs[i])
  }

  lemma {:induction false} PartsHaveNoSeparator(s: string, sep: char)
    ensures forall i :: 0 <= i < |Split(s, sep)| ==> sep !in Split(s, sep)[i]
  {
    if s != "" {
      PartsHaveNoSeparator(s[1..], sep);
    }
  }

  lemma {:induction false} ParsedPartIsOk(part: string)
    requires ';' !in part && ParsePart(part).Some?
    ensures CookieOk(ParsePart(part).value)
  {
    var t := JsTrim(part);
    TrimIsTrimmed(IsJsSpace, part);
    IndexOfIsFirst(t, '=');
    var k := IndexOf(t, '=');
    assert forall c :: c in t[..k] ==> c in t;
    assert forall c :: c in t[k + 1..] ==> c in t;
  }

  lemma {:induction false} SetKeepsOk(cs: seq<Cookie>, c: Cookie)
    requires MapOk(cs) && CookieOk(c)
    ensures MapOk(Set(cs, c.name, c.value))
  {
    SetIsUpdate(cs, c.name, c.value);
  }

  lemma {:induction false} ParsedPartsAreOk(parts: seq<string>)
    requires forall i :: 0 <= i < |parts| ==> ';' !in parts[i]
    ensures MapOk(ParseParts(parts))
  {
    if parts != [] {
      ParsedPartsAreOk(parts[..|parts| - 1]);
      var c := ParsePart(parts[|parts| - 1]);
      if c.Some? {
        ParsedPartIsOk(parts[|parts| - 1]);
        SetKeepsOk(ParseParts(parts[..|parts| - 1]), c.value);
      }
    }
  }

  lemma {:induction false} ParsedHeaderIsOk(header: string)
    ensures MapOk(ParseHeader(header))
  {
    PartsHaveNoSeparator(header, ';');
    ParsedPartsAreOk(Split(header, ';'));
  }

  lemma {:induction false} ShownIsParsed(c: Cookie)
    requires CookieOk(c)
    ensures ParsePart(Show(c)) == Some(c) && ParsePart(" " + Show(c)) == Some(c)
    ensures ';' !in Show(c)
  {
    var t := Show(c);
    assert t[|t| - 1] == if c.value == "" then '=' else c.value[|c.value| - 1];
    TrimIsTrimmed(IsJsSpace, t);
    assert t == c.name + ['='] + c.value;
    IndexOfAfter(c.name, '=', c.value);
    assert t[..|c.name|] == c.name && t[|c.name| + 1..] == c.value;
    assert [' '] + t == " " + t;
    TrimSkipsOne(IsJsSpace, ' ', t);
  }

  lemma {:induction false} SplitAtSeparator(a: string, rest: string, sep: char)
    requires sep !in a
    ensures Split(a + [sep] + rest, sep) == [a] + Split(rest, sep)
  {
    if a == "" {
      assert (a + [sep] + rest)[1..] == rest;
    } else {
      assert (a + [sep] + rest)[1..] == a[1..] + [sep] + rest;
      SplitAtSeparator(a[1..], rest, sep);
      assert [a[0]] + a[1..] == a;
    }
  }

  lemma {:induction false} SplitWithout(a: string, sep: char)
    requires sep !in a
    ensures Split(a, sep) == [a]
  {
    if a != "" {
      SplitWithout(a[1..], sep);
      assert [a[0]] + a[1..] == a;
    }
  }

  /** A cookie that is shown, possibly after a space, is one part. */
  lemma {:induction false} LedIsParsed(c: Cookie, lead: string)
    requires CookieOk(c) && (lead == "" || lead == " ")
    ensures ParsePart(lead + Show(c)) == Some(c)
    ensures ';' !in lead + Show(c)
  {
    ShownIsParsed(c);
    assert "" + Show(c) == Show(c);
  }

  lemma {:induction false} PrintUnfolds(cs: seq<Cookie>, lead: string)
    requires |cs| > 1
    ensures lead + Print(cs) == lead + Show(cs[0]) + [';'] + (" " + Print(cs[1..]))
  {
    assert "; " == [';'] + " ";
  }

  /** `parts` are the cookies `cs`, one by one. */
  ghost predicate PartsAre(parts: seq<string>, cs: seq<Cookie>) {
    |parts| == |cs| && forall i :: 0 <= i < |cs| ==> ParsePart(parts[i]) == Some(cs[i])
  }

  lemma {:induction false} PartsAreCons(part: string, parts: seq<string>, cs: seq<Cookie>)
    requires cs != [] && ParsePart(part) == Some(cs[0]) && PartsAre(parts, cs[1..])
    ensures PartsAre([part] + parts, cs)
  {
  }

  /** Reading the parts of a printed map, the first of them possibly after a space. */
  lemma {:induction false} PrintedParts(cs: seq<Cookie>, lead: string)
    requires cs != [] && (forall i :: 0 <= i < |cs| ==> CookieOk(cs[i])) && (lead == "" || lead == " ")
    ensures PartsAre(Split(lead + Print(cs), ';'), cs)
  {
    var first := lead + Show(cs[0]);
    LedIsParsed(cs[0], lead);
    if |cs| == 1 {
      SplitWithout(first, ';');
    } else {
      PrintUnfolds(cs, lead);
      SplitAtSeparator(first, " " + Print(cs[1..]), ';');
      PrintedParts(cs[1..], " ");
      PartsAreCons(first, Split(" " + Print(cs[1..]), ';'), cs);
    }
  }

  lemma {:induction false} ParsePartsIs(parts: seq<string>, cs: seq<Cookie>)
    requires Distinct(cs) && PartsAre(parts, cs)
    ensures ParseParts(parts) == cs
  {
    if parts != [] {
      ParsePartsIs(parts[..|parts| - 1], cs[..|cs| - 1]);
    }
  }

  /** Round trip: writing a map of carryable cookies and reading it gives the same map, order included. */
  lemma {:induction false} PrintThenParse(cs: seq<Cookie>)
    requires MapOk(cs)
    ensures ParseHeader(Print(cs)) == cs
  {
    if cs == [] {
      TrimIsTrimmed(IsJsSpace, "");
      assert ParsePart("").None?;
      assert [""][..0] == [];
    } else {
      PrintedParts(cs, "");
      assert "" + Print(cs) == Print(cs);
      ParsePartsIs(Split(Print(cs), ';'), cs);
    }
  }

  /** Reading an upserted header gives the old cookies with just that name set, the order kept; this holds exactly
      for the names and values that a header can carry. */
  lemma {:induction false} UpsertMeansSet(header: string, name: string, value: string)
    ensures ParseHeader(Upsert(header, name, value)) == Set(ParseHeader(header), name, value)
            <==> CookieOk(Cookie(name, value))
  {
    ParsedHeaderIsOk(header);
    var cs := Set(ParseHeader(header), name, value);
    if CookieOk(Cookie(name, value)) {
      SetKeepsOk(ParseHeader(header), Cookie(name, value));
      PrintThenParse(cs);
    } else {
      ParsedHeaderIsOk(Upsert(header, name, value));
      var i := Find(ParseHeader(header), name);
      assert cs[i] == Cookie(name, value);
    }
  }

  // ---- set-cookie headers ----

  /** The name and value of a set-cookie header, if it has one. */
  function SetCookieNameValue(cookie: string): (c: Option<Cookie>) {
    var first := JsTrim(Split(cookie, ';')[0]);
    var k := IndexOf(first, '=');
    if k == 0 || k == |first| then None else Some(Cookie(JsTrim(first[..k]), first[k + 1..]))
  }

  /** Whatever the server sends, the cookies read from it can be carried. */
  lemma {:induction false} SetCookieIsOk(cookie: string)
    requires SetCookieNameValue(cookie).Some?
    ensures CookieOk(SetCookieNameValue(cookie).value)
  {
    var part := Split(cookie, ';')[0];
    PartsHaveNoSeparator(cookie, ';');
    ParsedPartIsOk(part);
    var name := ParsePart(part).value.name;
    TrimIsTrimmed(IsJsSpace, name);
    TrimKeepsFirst(name);
  }

  lemma {:induction false} TrimKeepsFirst(s: string)
    requires s != "" && !IsJsSpace(s[0])
    ensures JsTrim(s) != "" && JsTrim(s)[0] == s[0]
  {
    assert s == [s[0]] + s[1..];
    TrimRightCons(IsJsSpace, s[0], s[1..]);
  }

  /** The set-cookie list as a list of updates, unreadable entries left out. */
  function Updates(setCookies: seq<string>): (us: seq<Cookie>) {
    if setCookies == [] then []
    else
      var c := SetCookieNameValue(setCookies[|setCookies| - 1]);
      Updates(setCookies[..|setCookies| - 1]) + (if c.Some? then [c.value] else [])
  }

  function SetAll(cs: seq<Cookie>, us: seq<Cookie>): (r: seq<Cookie>) {
    if us == [] then cs
    else Set(SetAll(cs, us[..|us| - 1]), us[|us| - 1].name, us[|us| - 1].value)
  }

  /** The loop of `proxy` over the set-cookie headers: reading the resulting header gives the old cookies updated by
      all readable set-cookie headers in order, for every header and every list. */
  method ApplySetCookies(header: string, setCookies: seq<string>) returns (result: string)
    ensures ParseHeader(result) == SetAll(ParseHeader(header), Updates(setCookies))
    ensures Updates(setCookies) == [] ==> result == header
  {
    result := header;
    for i := 0 to |setCookies|
      invariant ParseHeader(result) == SetAll(ParseHeader(header), Updates(setCookies[..i]))
      invariant Updates(setCookies[..i]) == [] ==> result == header
    {
      assert setCookies[..i + 1][..i] == setCookies[..i];
      var us, c := Updates(setCookies[..i]), SetCookieNameValue(setCookies[i]);
      if c.Some? {
        SetCookieIsOk(setCookies[i]);
        UpsertMeansSet(result, c.value.name, c.value.value);
        result := UpsertCookieHeader(result, c.value.name, c.value.value);
        assert (us + [c.value])[..|us|] == us;
      } else {
        assert us + [] == us;
      }
    }
    assert setCookies[..|setCookies|] == setCookies;
  }

  /** The last value that the updates give a name. */
  function LastValue(us: seq<Cookie>, name: string): (v: Option<string>) {
    if us == [] then None
    else if us[|us| - 1].name == name then Some(us[|us| - 1].value)
    else LastValue(us[..|us| - 1], name)
  }

  /** Folding the updates gives each updated name its last value, leaves all other cookies as they were, and keeps the
      old cookies in their order in front of the new ones. */
  lemma {:induction false} SetAllMeans(cs: seq<Cookie>, us: seq<Cookie>)
    requires Distinct(cs)
    ensures Distinct(SetAll(cs, us))
    ensures forall x :: Get(SetAll(cs, us), x) == if LastValue(us, x).Some? then LastValue(us, x) else Get(cs, x)
    ensures Names(cs) <= Names(SetAll(cs, us))
  {
    if us != [] {
      var front, last := us[..|us| - 1], us[|us| - 1];
      SetAllMeans(cs, front);
      SetIsUpdate(SetAll(cs, front), last.name, last.value);
    }
  }

  // ---- what a header says ----

  ghost predicate AllSpace(s: string) {
    forall i :: 0 <= i < |s| ==> IsJsSpace(s[i])
  }

  lemma {:induction false} TrimRightLeaves(s: string) returns (b: string)
    ensures AllSpace(b) && s == TrimRight(IsJsSpace, s) + b
  {
    b := "";
    if s != "" && IsJsSpace(s[|s| - 1]) {
      var rest := TrimRightLeaves(s[..|s| - 1]);
      b := rest + [s[|s| - 1]];
      assert s == s[..|s| - 1] + [s[|s| - 1]];
    }
  }

  lemma {:induction false} TrimLeftLeaves(s: string) returns (a: string)
    ensures AllSpace(a) && s == a + TrimLeft(IsJsSpace, s)
  {
    a := "";
    if s != "" && IsJsSpace(s[0]) {
      var rest := TrimLeftLeaves(s[1..]);
      a := [s[0]] + rest;
      assert s == [s[0]] + s[1..];
    }
  }

  /** Trimming takes away white space at both ends. */
  lemma {:induction false} TrimLeaves(s: string) returns (a: string, b: string)
    ensures AllSpace(a) && AllSpace(b) && s == a + JsTrim(s) + b
  {
    b := TrimRightLeaves(s);
    a := TrimLeftLeaves(TrimRight(IsJsSpace, s));
  }

  lemma {:induction false} TrimRightDrops(t: string, b: string)
    requires AllSpace(b) && t != "" && !IsJsSpace(t[|t| - 1])
    ensures TrimRight(IsJsSpace, t + b) == t
  {
    if b == "" {
      assert t + b == t;
    } else {
      assert (t + b)[..|t + b| - 1] == t + b[..|b| - 1];
      TrimRightDrops(t, b[..|b| - 1]);
    }
  }

  lemma {:induction false} TrimDrops(a: string, t: string, b: string)
    requires AllSpace(a) && AllSpace(b) && t != "" && Trimmed(IsJsSpace, t)
    ensures JsTrim(a + t + b) == t
  {
    if a == "" {
      assert a + t + b == t + b;
      TrimRightDrops(t, b);
    } else {
      assert a + t + b == [a[0]] + (a[1..] + t + b);
      TrimSkipsOne(IsJsSpace, a[0], a[1..] + t + b);
      TrimDrops(a[1..], t, b);
    }
  }

  /** The name and value that a text can stand for: a name without '=', and no white space at the two ends. */
  predicate Plain(name: string, value: string) {
    name != "" && '=' !in name && Trimmed(IsJsSpace, name + "=" + value)
  }

  lemma {:induction false} EqualsAt(name: string, value: string)
    requires '=' !in name
    ensures var t := name + "=" + value;
            IndexOf(t, '=') == |name| && t[..|name|] == name && t[|name| + 1..] == value
  {
    assert name + "=" + value == name + ['='] + value;
    IndexOfAfter(name, '=', value);
  }

  lemma {:induction false} PartReads(part: string) returns (a: string, b: string)
    requires ParsePart(part).Some?
    ensures var c := ParsePart(part).value;
            Plain(c.name, c.value) && AllSpace(a) && AllSpace(b) && part == a + (c.name + "=" + c.value) + b
  {
    var t := JsTrim(part);
    TrimIsTrimmed(IsJsSpace, part);
    IndexOfIsFirst(t, '=');
    var c := ParsePart(part).value;
    assert t == c.name + "=" + c.value;
    a, b := TrimLeaves(part);
  }

  /** A part of a header reads as a cookie if and only if it is the name, '=' and the value, with white space around
      them. */
  lemma {:induction false} PartMeans(part: string, c: Cookie)
    ensures ParsePart(part) == Some(c) <==>
            && Plain(c.name, c.value)
            && exists a, b :: AllSpace(a) && AllSpace(b) && part == a + (c.name + "=" + c.value) + b
  {
    if ParsePart(part) == Some(c) {
      var a, b := PartReads(part);
    }
    if Plain(c.name, c.value) {
      if a, b :| AllSpace(a) && AllSpace(b) && part == a + (c.name + "=" + c.value) + b {
        TrimDrops(a, c.name + "=" + c.value, b);
        EqualsAt(c.name, c.value);
      }
    }
  }

  function JoinWith(parts: seq<string>, sep: char): (s: string)
    requires parts != []
  {
    if |parts| == 1 then parts[0] else parts[0] + [sep] + JoinWith(parts[1..], sep)
  }

  /** The parts are what stands between the separators. */
  lemma {:induction false} SplitMeans(s: string, sep: char)
    ensures JoinWith(Split(s, sep), sep) == s
    ensures forall i :: 0 <= i < |Split(s, sep)| ==> sep !in Split(s, sep)[i]
  {
    PartsHaveNoSeparator(s, sep);
    if s != "" {
      SplitMeans(s[1..], sep);
      var rest := Split(s[1..], sep);
      if s[0] == sep {
        assert ([""] + rest)[1..] == rest;
      } else {
        assert ([[s[0]] + rest[0]] + rest[1..])[1..] == rest[1..];
      }
    }
  }

  /** The cookies that the parts of a header read as, in order. */
  function Readable(parts: seq<string>): (us: seq<Cookie>) {
    if parts == [] then []
    else
      var c := ParsePart(parts[|parts| - 1]);
      Readable(parts[..|parts| - 1]) + if c.Some? then [c.value] else []
  }

  lemma {:induction false} ReadInOrder(parts: seq<string>)
    ensures ParseParts(parts) == SetAll([], Readable(parts))
  {
    if parts != [] {
      var front, c := parts[..|parts| - 1], ParsePart(parts[|parts| - 1]);
      ReadInOrder(front);
      if c.Some? {
        assert (Readable(front) + [c.value])[..|Readable(front)|] == Readable(front);
      } else {
        assert Readable(front) + [] == Readable(front);
      }
    }
  }

  /** Reading a header gives each name the value of the last part that reads as a cookie of that name. */
  lemma {:induction false} HeaderMeans(header: string, name: string)
    ensures Get(ParseHeader(header), name) == LastValue(Readable(Split(header, ';')), name)
  {
    ReadInOrder(Split(header, ';'));
    SetAllMeans([], Readable(Split(header, ';')));
  }

  lemma {:induction false} SetCookieReads(cookie: string)
    ensures var p := ParsePart(Split(cookie, ';')[0]);
            SetCookieNameValue(cookie) == if p.None? then None else Some(Cookie(JsTrim(p.value.name), p.value.value))
  {
  }

  /** The name of a cookie, with white space behind it. */
  lemma {:induction false} NameAndGap(raw: string, value: string) returns (gap: string)
    requires Plain(raw, value)
    ensures AllSpace(gap) && raw == JsTrim(raw) + gap
    ensures Plain(JsTrim(raw), value) && Trimmed(IsJsSpace, JsTrim(raw))
  {
    assert raw[0] == (raw + "=" + value)[0];
    TrimKeepsFirst(raw);
    TrimIsTrimmed(IsJsSpace, raw);
    var a, b := TrimLeaves(raw);
    assert a == "";
    gap := b;
    var name := JsTrim(raw);
    var t, t' := name + "=" + value, raw + "=" + value;
    assert t[|t| - 1] == t'[|t'| - 1];
  }

  lemma {:induction false} GapIsTrimmed(name: string, gap: string)
    requires name != "" && Trimmed(IsJsSpace, name) && AllSpace(gap)
    ensures JsTrim(name + gap) == name
  {
    TrimDrops("", name, gap);
    assert "" + name + gap == name + gap;
  }

  /** A set-cookie header gives a name and value if and only if what stands before its first ';' is the name, '=' and
      the value, with white space around them and behind the name. */
  lemma {:induction false} SetCookieMeans(cookie: string, c: Cookie)
    ensures SetCookieNameValue(cookie) == Some(c) <==>
            && Plain(c.name, c.value) && Trimmed(IsJsSpace, c.name)
            && exists gap :: AllSpace(gap) && ParsePart(Split(cookie, ';')[0]) == Some(Cookie(c.name + gap, c.value))
  {
    var p := ParsePart(Split(cookie, ';')[0]);
    SetCookieReads(cookie);
    if SetCookieNameValue(cookie) == Some(c) {
      PartMeans(Split(cookie, ';')[0], p.value);
      var gap := NameAndGap(p.value.name, p.value.value);
    }
    if Plain(c.name, c.value) && Trimmed(IsJsSpace, c.name) {
      if gap :| AllSpace(gap) && p == Some(Cookie(c.name + gap, c.value)) {
        GapIsTrimmed(c.name, gap);
      }
    }
  }
}
