/** JSON texts can be read back (`json.dumps`): from a text that starts with the text of a value, both the value and
    where its text ends are determined. So different values have different texts, and no proper prefix of the text of an
    object is the text of a value. */
module JsonReading {
  import opened Json
  import opened Text

  // ---- characters of strings ----

  /** The hexadecimal digits. */
  lemma {:induction false} HexMeans(n: nat)
    requires n < 16
    ensures Hex(n) == "0123456789abcdef"[n]
  {
  }

  lemma {:induction false} HexIsDistinct(m: nat, n: nat)
    requires m < 16 && n < 16 && Hex(m) == Hex(n)
    ensures m == n
  {
  }

  /** Four hexadecimal digits determine the unit. */
  lemma {:induction false} UnitIsDistinct(m: nat, n: nat)
    requires m < 0x10000 && n < 0x10000 && Unit(m) == Unit(n)
    ensures m == n
  {
    var a, b := Unit(m), Unit(n);
    assert a[2] == Hex(m / 4096) && a[3] == Hex(m / 256 % 16) && a[4] == Hex(m / 16 % 16) && a[5] == Hex(m % 16);
    assert b[2] == Hex(n / 4096) && b[3] == Hex(n / 256 % 16) && b[4] == Hex(n / 16 % 16) && b[5] == Hex(n % 16);
    HexIsDistinct(m / 4096, n / 4096);
    HexIsDistinct(m / 256 % 16, n / 256 % 16);
    HexIsDistinct(m / 16 % 16, n / 16 % 16);
    HexIsDistinct(m % 16, n % 16);
    DigitsMake(m);
    DigitsMake(n);
  }

  lemma {:induction false} DigitsMake(n: nat)
    requires n < 0x10000
    ensures n == n / 4096 * 4096 + n / 256 % 16 * 256 + n / 16 % 16 * 16 + n % 16
  {
    var a, b := n / 16, n / 256;
    assert a / 16 == b && b / 16 == n / 4096;
    assert n == a * 16 + n % 16;
    assert a == b * 16 + a % 16;
    assert b == n / 4096 * 16 + b % 16;
  }

  /** What two texts have in front, when both have at least `n` characters there. */
  lemma {:induction false} SameFront(a: string, x: string, b: string, y: string, n: nat)
    requires a + x == b + y && n <= |a| && n <= |b|
    ensures a[..n] == b[..n]
  {
    assert a[..n] == (a + x)[..n];
    assert b[..n] == (b + y)[..n];
  }

  lemma {:induction false} SameLength(a: string, x: string, b: string, y: string)
    requires a + x == b + y && |a| == |b|
    ensures a == b && x == y
  {
    SameFront(a, x, b, y, |a|);
    assert x == (a + x)[|a|..] && y == (b + y)[|b|..];
  }

  /** The first, or only, unit of a character. */
  function First(n: nat): (u: nat)
    requires IsChar(n)
    ensures u < 0x10000 && (n >= 0x10000 <==> 0xd800 <= u < 0xdc00)
  {
    if n < 0x10000 then n else 0xd800 + (n - 0x10000) / 0x400
  }

  function Second(n: nat): (u: nat)
    requires n >= 0x10000
    ensures u < 0x10000
  {
    0xdc00 + (n - 0x10000) % 0x400
  }

  /** Surrogates are no characters. */
  predicate IsChar(n: nat) {
    n < 0xd800 || 0xe000 <= n < 0x110000
  }

  lemma {:induction false} UnitsAre(n: nat)
    requires IsChar(n)
    ensures CodeUnits(n) == Unit(First(n)) + if n < 0x10000 then "" else Unit(Second(n))
  {
    if n >= 0x10000 {
      InRange(n);
    }
  }

  lemma {:induction false} InRange(n: nat)
    requires 0x10000 <= n < 0x110000
    ensures (n - 0x10000) / 0x400 % 0x400 == (n - 0x10000) / 0x400
  {
  }

  lemma {:induction false} PairMakes(n: nat)
    requires IsChar(n) && n >= 0x10000
    ensures n == 0x10000 + (First(n) - 0xd800) * 0x400 + (Second(n) - 0xdc00)
  {
  }

  lemma {:induction false} TwoParts(u: string, a: string, x: string, v: string, b: string, y: string)
    requires |u| == |v| && (u + a) + x == (v + b) + y
    ensures u == v && a + x == b + y
  {
    ConcatAssoc(u, a, x);
    ConcatAssoc(v, b, y);
    SameLength(u, a + x, v, b + y);
  }

  lemma {:induction false} UnitHasSix(n: nat)
    requires n < 0x10000
    ensures |Unit(n)| == 6
  {
  }

  /** The first of two units is no character, so it is known whether there is a second one. */
  lemma {:induction false} CodeUnitsAreReadable(m: nat, n: nat, x: string, y: string)
    requires IsChar(m) && IsChar(n) && CodeUnits(m) + x == CodeUnits(n) + y
    ensures m == n && x == y
  {
    UnitsAre(m);
    UnitsAre(n);
    UnitHasSix(First(m));
    UnitHasSix(First(n));
    var a := if m < 0x10000 then "" else Unit(Second(m));
    var b := if n < 0x10000 then "" else Unit(Second(n));
    TwoParts(Unit(First(m)), a, x, Unit(First(n)), b, y);
    UnitIsDistinct(First(m), First(n));
    SecondsAreReadable(m, n, x, y);
  }

  lemma {:induction false} SecondsAreReadable(m: nat, n: nat, x: string, y: string)
    requires IsChar(m) && IsChar(n) && First(m) == First(n)
    requires (if m < 0x10000 then "" else Unit(Second(m))) + x == (if n < 0x10000 then "" else Unit(Second(n))) + y
    ensures m == n && x == y
  {
    if m >= 0x10000 {
      PairMakes(m);
      PairMakes(n);
      UnitHasSix(Second(m));
      UnitHasSix(Second(n));
      SameLength(Unit(Second(m)), x, Unit(Second(n)), y);
      UnitIsDistinct(Second(m), Second(n));
    } else {
      SameLength("", x, "", y);
    }
  }

  /** The character behind the backslash of a short escape; a space if the character is not written that way. */
  function Short(c: char): (e: char) {
    match c
    case '"' => '"'
    case '\\' => '\\'
    case '\n' => 'n'
    case '\r' => 'r'
    case '\t' => 't'
    case '\U{0c}' => 'f'
    case '\U{08}' => 'b'
    case _ => ' '
  }

  lemma {:induction false} EscapeKinds(c: char)
    ensures Short(c) != ' ' ==> EscapeChar(c) == ['\\', Short(c)]
    ensures Short(c) == ' ' && ' ' <= c <= '~' ==> EscapeChar(c) == [c]
    ensures Short(c) == ' ' && !(' ' <= c <= '~') ==>
              EscapeChar(c) == CodeUnits(c as int) && |CodeUnits(c as int)| >= 6 && EscapeChar(c)[1] == 'u'
    ensures EscapeChar(c) != "" && (EscapeChar(c)[0] == '\\' || EscapeChar(c) == [c]) && EscapeChar(c)[0] != '"'
  {
  }

  /** The escapes of characters are a prefix code. */
  lemma {:induction false} EscapesAreReadable(c: char, d: char, x: string, y: string)
    requires EscapeChar(c) + x == EscapeChar(d) + y
    ensures c == d && x == y
  {
    EscapeKinds(c);
    EscapeKinds(d);
    var a, b := EscapeChar(c), EscapeChar(d);
    assert (a + x)[0] == a[0] && (b + y)[0] == b[0];
    if a[0] == '\\' {
      assert (a + x)[1] == a[1] && (b + y)[1] == b[1];
      if a[1] == 'u' {
        CodeUnitsAreReadable(c as int, d as int, x, y);
      } else {
        SameLength(a, x, b, y);
      }
    } else {
      SameLength(a, x, b, y);
    }
  }

  // ---- strings ----

  ghost predicate Appends(esc: string -> string, enc: char -> string, s: string, c: char) {
    esc(s + [c]) == esc(s) + enc(c)
  }

  /** Writing from the left is writing from the right. */
  lemma {:induction false} FromTheLeft(esc: string -> string, enc: char -> string, c: char, s: string)
    requires esc("") == "" && forall r, d :: Appends(esc, enc, r, d)
    ensures esc([c] + s) == enc(c) + esc(s)
  {
    if s == "" {
      assert Appends(esc, enc, "", c);
      assert [c] + s == "" + [c];
      assert "" + enc(c) == enc(c) + "";
    } else {
      var front, d := s[..|s| - 1], s[|s| - 1];
      assert s == front + [d] && [c] + s == ([c] + front) + [d];
      assert Appends(esc, enc, front, d) && Appends(esc, enc, [c] + front, d);
      FromTheLeft(esc, enc, c, front);
      ConcatAssoc(enc(c), esc(front), enc(d));
    }
  }

  lemma {:induction false} EscapeCons(esc: string -> string, enc: char -> string, c: char, s: string)
    requires (forall r :: esc(r) == Escape(r)) && forall d :: enc(d) == EscapeChar(d)
    ensures esc([c] + s) == enc(c) + esc(s)
  {
    forall r: string, d: char ensures Appends(esc, enc, r, d) {
      assert (r + [d])[..|r|] == r;
    }
    FromTheLeft(esc, enc, c, s);
  }

  /** `esc` writes strings character by character, with a prefix code whose words do not start with a quote. */
  ghost predicate Writes(esc: string -> string, enc: char -> string) {
    && esc("") == ""
    && (forall s :: Unfolds(esc, enc, s))
    && (forall c :: enc(c) != "" && enc(c)[0] != '"')
    && (forall c, d, x, y :: Separates(enc, c, d, x, y))
  }

  ghost predicate Unfolds(esc: string -> string, enc: char -> string, s: string) {
    s != "" ==> esc(s) == enc(s[0]) + esc(s[1..])
  }

  ghost predicate Separates(enc: char -> string, c: char, d: char, x: string, y: string) {
    enc(c) + x == enc(d) + y ==> c == d && x == y
  }

  lemma {:induction false} QuoteIsNoWord(esc: string -> string, enc: char -> string, s: string, x: string, y: string)
    requires Writes(esc, enc) && s != ""
    ensures esc(s) + ("\"" + x) != "\"" + y
  {
    assert Unfolds(esc, enc, s);
    assert esc(s)[0] == enc(s[0])[0];
    assert (esc(s) + ("\"" + x))[0] == esc(s)[0] && ("\"" + y)[0] == '"';
  }

  lemma {:induction false} FirstIsReadable(esc: string -> string, enc: char -> string, s: string, t: string, x: string,
                                           y: string)
    requires Writes(esc, enc) && s != "" && t != "" && esc(s) + x == esc(t) + y
    ensures s[0] == t[0] && esc(s[1..]) + x == esc(t[1..]) + y
  {
    assert Unfolds(esc, enc, s) && Unfolds(esc, enc, t);
    ConcatAssoc(enc(s[0]), esc(s[1..]), x);
    ConcatAssoc(enc(t[0]), esc(t[1..]), y);
    assert Separates(enc, s[0], t[0], esc(s[1..]) + x, esc(t[1..]) + y);
  }

  lemma {:induction false} WordsAreReadable(esc: string -> string, enc: char -> string, s: string, t: string, x: string,
                                            y: string)
    requires Writes(esc, enc) && esc(s) + ("\"" + x) == esc(t) + ("\"" + y)
    ensures s == t && x == y
    decreases |s|
  {
    if s == "" && t == "" {
      assert "" + ("\"" + x) == "\"" + x && "" + ("\"" + y) == "\"" + y;
      SameLength("\"", x, "\"", y);
    } else if s == "" {
      assert "" + ("\"" + x) == "\"" + x;
      QuoteIsNoWord(esc, enc, t, y, x);
    } else if t == "" {
      assert "" + ("\"" + y) == "\"" + y;
      QuoteIsNoWord(esc, enc, s, x, y);
    } else {
      FirstIsReadable(esc, enc, s, t, "\"" + x, "\"" + y);
      WordsAreReadable(esc, enc, s[1..], t[1..], x, y);
      assert [s[0]] + s[1..] == s && [t[0]] + t[1..] == t;
    }
  }

  lemma {:induction false} EscapeWrites(esc: string -> string, enc: char -> string)
    requires (forall s :: esc(s) == Escape(s)) && forall c :: enc(c) == EscapeChar(c)
    ensures Writes(esc, enc)
  {
    forall s: string ensures Unfolds(esc, enc, s) {
      if s != "" {
        EscapeCons(esc, enc, s[0], s[1..]);
        assert [s[0]] + s[1..] == s;
      }
    }
    forall c ensures enc(c) != "" && enc(c)[0] != '"' {
      EscapeKinds(c);
    }
    forall c: char, d: char, x: string, y: string ensures Separates(enc, c, d, x, y) {
      if enc(c) + x == enc(d) + y {
        EscapesAreReadable(c, d, x, y);
      }
    }
  }

  lemma {:induction false} QuoteFrames(e: string, x: string)
    ensures ("\"" + e + "\"") + x == "\"" + (e + ("\"" + x))
  {
  }

  /** The closing quote of a string is the first one that is not part of an escape. */
  lemma {:induction false} StringsAreReadable(s: string, t: string, x: string, y: string)
    requires Quote(s) + x == Quote(t) + y
    ensures s == t && x == y
  {
    QuoteFrames(Escape(s), x);
    QuoteFrames(Escape(t), y);
    SameLength("\"", Escape(s) + ("\"" + x), "\"", Escape(t) + ("\"" + y));
    var esc, enc := (r: string) => Escape(r), (c: char) => EscapeChar(c);
    EscapeWrites(esc, enc);
    WordsAreReadable(esc, enc, s, t, x, y);
  }

  // ---- values ----

  /** Where the text of a number ends. */
  predicate Delimited(x: string) {
    x == "" || x[0] == ',' || x[0] == ']' || x[0] == '}'
  }

  function Separator(k: nat): (s: string) {
    if k == 0 then "" else ", "
  }

  /** The texts of a list from the `k`-th on, with what separates and closes them. */
  function ListFrom(texts: seq<string>, close: string, k: nat): (s: string)
    requires k <= |texts|
    decreases |texts| - k
  {
    if k == |texts| then close else Separator(k) + (texts[k] + ListFrom(texts, close, k + 1))
  }

  /** `joined(k)` are the first `k` texts with separators. */
  ghost predicate Joins(joined: nat -> string, texts: seq<string>) {
    joined(0) == "" && forall k: nat :: k < |texts| ==> JoinsAt(joined, texts, k)
  }

  ghost predicate JoinsAt(joined: nat -> string, texts: seq<string>, k: nat)
    requires k < |texts|
  {
    joined(k + 1) == joined(k) + Separator(k) + texts[k]
  }

  lemma {:induction false} ListIsJoined(joined: nat -> string, texts: seq<string>, close: string, k: nat)
    requires Joins(joined, texts) && k <= |texts|
    ensures joined(k) + ListFrom(texts, close, k) == joined(|texts|) + close
    decreases |texts| - k
  {
    if k < |texts| {
      assert JoinsAt(joined, texts, k);
      ListIsJoined(joined, texts, close, k + 1);
      Regroup(joined(k), Separator(k), texts[k], ListFrom(texts, close, k + 1));
    }
  }

  lemma {:induction false} Regroup(a: string, b: string, c: string, d: string)
    ensures ((a + b) + c) + d == a + (b + (c + d))
  {
  }

  /** Texts that are not empty and do not start like the end of a list. */
  ghost predicate Startable(texts: seq<string>, close: string) {
    && (close == "]" || close == "}")
    && forall k :: 0 <= k < |texts| ==> texts[k] != "" && texts[k][0] != close[0]
  }

  lemma {:induction false} ListStarts(texts: seq<string>, close: string, k: nat)
    requires Startable(texts, close) && k <= |texts|
    ensures ListFrom(texts, close, k) != "" && (ListFrom(texts, close, k)[0] == close[0] <==> k == |texts|)
    ensures k > 0 ==> Delimited(ListFrom(texts, close, k))
  {
  }

  /** Delimited texts that start the same are told apart by `same`. */
  ghost predicate Tells(ta: seq<string>, tb: seq<string>, same: nat -> bool, k: nat, x: string, y: string) {
    k < |ta| && k < |tb| && Delimited(x) && Delimited(y) && ta[k] + x == tb[k] + y ==> same(k) && x == y
  }

  lemma {:induction false} ListsAreReadable(ta: seq<string>, tb: seq<string>, close: string, same: nat -> bool, k: nat,
                                            x: string, y: string)
    requires Startable(ta, close) && Startable(tb, close) && k <= |ta| && k <= |tb|
    requires forall i, p, q :: Tells(ta, tb, same, i, p, q)
    requires ListFrom(ta, close, k) + x == ListFrom(tb, close, k) + y
    ensures |ta| == |tb| && x == y && forall i: nat :: k <= i < |ta| ==> same(i)
    decreases |ta| - k
  {
    ListStarts(ta, close, k);
    ListStarts(tb, close, k);
    SameStart(ListFrom(ta, close, k), x, ListFrom(tb, close, k), y);
    if k == |ta| {
      SameLength(close, x, close, y);
    } else {
      ListStep(ta, tb, close, k, x, y);
      var p, q := ListFrom(ta, close, k + 1) + x, ListFrom(tb, close, k + 1) + y;
      assert Tells(ta, tb, same, k, p, q);
      ListsAreReadable(ta, tb, close, same, k + 1, x, y);
    }
  }

  /** One text on. */
  lemma {:induction false} ListStep(ta: seq<string>, tb: seq<string>, close: string, k: nat, x: string, y: string)
    requires Startable(ta, close) && Startable(tb, close) && k < |ta| && k < |tb|
    requires ListFrom(ta, close, k) + x == ListFrom(tb, close, k) + y
    ensures ta[k] + (ListFrom(ta, close, k + 1) + x) == tb[k] + (ListFrom(tb, close, k + 1) + y)
    ensures Delimited(ListFrom(ta, close, k + 1) + x) && Delimited(ListFrom(tb, close, k + 1) + y)
  {
    ListStarts(ta, close, k + 1);
    ListStarts(tb, close, k + 1);
    StillDelimited(ListFrom(ta, close, k + 1), x);
    StillDelimited(ListFrom(tb, close, k + 1), y);
    AfterSeparator(Separator(k), ta[k], ListFrom(ta, close, k + 1), x, tb[k], ListFrom(tb, close, k + 1), y);
  }

  lemma {:induction false} AfterSeparator(sep: string, one: string, rest: string, x: string, two: string, more: string,
                                          y: string)
    requires (sep + (one + rest)) + x == (sep + (two + more)) + y
    ensures one + (rest + x) == two + (more + y)
  {
    ConcatAssoc(sep, one + rest, x);
    ConcatAssoc(sep, two + more, y);
    SameLength(sep, (one + rest) + x, sep, (two + more) + y);
    ConcatAssoc(one, rest, x);
    ConcatAssoc(two, more, y);
  }

  lemma {:induction false} SameStart(a: string, x: string, b: string, y: string)
    requires a + x == b + y && a != "" && b != ""
    ensures a[0] == b[0]
  {
    assert (a + x)[0] == a[0] && (b + y)[0] == b[0];
  }

  /** A text in front of others is delimited with what follows. */
  lemma {:induction false} StillDelimited(s: string, x: string)
    requires s != "" && Delimited(s)
    ensures Delimited(s + x)
  {
    assert (s + x)[0] == s[0];
  }

  // ---- arrays and objects ----

  function Member(m: (string, Value)): (s: string) {
    Quote(m.0) + ": " + Dumps(m.1)
  }

  function ItemTexts(items: seq<Value>): (ts: seq<string>) {
    seq(|items|, k requires 0 <= k < |items| => Dumps(items[k]))
  }

  function MemberTexts(members: seq<(string, Value)>): (ts: seq<string>) {
    seq(|members|, k requires 0 <= k < |members| => Member(members[k]))
  }

  lemma {:induction false} ArrayIsList(v: Value)
    requires v.Arr?
    ensures Dumps(v) == "[" + ListFrom(ItemTexts(v.items), "]", 0)
  {
    var joined := (n: nat) => if n <= |v.items| then DumpItems(v, n) else "";
    var texts := ItemTexts(v.items);
    forall k: nat | k < |texts| ensures JoinsAt(joined, texts, k) {
      ItemsOneMore(v, k);
    }
    ListIsJoined(joined, texts, "]", 0);
    Framed("[", DumpItems(v, |v.items|), "]", ListFrom(texts, "]", 0));
  }

  lemma {:induction false} ItemsOneMore(v: Value, k: nat)
    requires v.Arr? && k < |v.items|
    ensures DumpItems(v, k + 1) == DumpItems(v, k) + Separator(k) + Dumps(v.items[k])
  {
    assert "" + "" + Dumps(v.items[k]) == Dumps(v.items[k]);
  }

  lemma {:induction false} ObjectIsList(v: Value)
    requires v.Obj?
    ensures Dumps(v) == "{" + ListFrom(MemberTexts(v.members), "}", 0)
  {
    var joined := (n: nat) => if n <= |v.members| then DumpMembers(v, n) else "";
    var texts := MemberTexts(v.members);
    forall k: nat | k < |texts| ensures JoinsAt(joined, texts, k) {
      MembersOneMore(v, k);
    }
    ListIsJoined(joined, texts, "}", 0);
    Framed("{", DumpMembers(v, |v.members|), "}", ListFrom(texts, "}", 0));
  }

  lemma {:induction false} MembersOneMore(v: Value, k: nat)
    requires v.Obj? && k < |v.members|
    ensures DumpMembers(v, k + 1) == DumpMembers(v, k) + Separator(k) + Member(v.members[k])
  {
    assert "" + "" + Member(v.members[k]) == Member(v.members[k]);
  }

  lemma {:induction false} Framed(open: string, inside: string, close: string, list: string)
    requires "" + list == inside + close
    ensures open + inside + close == open + list
  {
    assert list == inside + close;
  }

  /** How the text of a value starts: the kinds of values differ in it. */
  predicate StartsLike(v: Value, c: char) {
    match v
    case Null => c == 'n'
    case Bool(b) => c == if b then 't' else 'f'
    case Number(_) => IsNumeric(c)
    case Str(_) => c == '"'
    case Arr(_) => c == '['
    case Obj(_) => c == '{'
  }

  lemma {:induction false} TextStarts(v: Value)
    requires WellFormed(v)
    ensures Dumps(v) != "" && StartsLike(v, Dumps(v)[0])
  {
  }

  ghost predicate AllNumeric(s: string) {
    forall i :: 0 <= i < |s| ==> IsNumeric(s[i])
  }

  /** How many characters of numbers a text starts with. */
  function Lead(s: string): (n: nat) {
    if s == "" || !IsNumeric(s[0]) then 0 else 1 + Lead(s[1..])
  }

  lemma {:induction false} LeadIs(l: string, x: string)
    requires AllNumeric(l) && (x == "" || !IsNumeric(x[0]))
    ensures Lead(l + x) == |l| && (l + x)[|l|..] == x
  {
    if l == "" {
      assert l + x == x;
    } else {
      assert (l + x)[1..] == l[1..] + x;
      LeadIs(l[1..], x);
    }
  }

  lemma {:induction false} NumbersAreReadable(l: string, m: string, x: string, y: string)
    requires AllNumeric(l) && AllNumeric(m) && Delimited(x) && Delimited(y) && l + x == m + y
    ensures l == m && x == y
  {
    LeadIs(l, x);
    LeadIs(m, y);
    SameLength(l, x, m, y);
  }

  /** A word with a letter that numbers do not have is no number. */
  lemma {:induction false} WordIsNoNumber(w: string, k: nat, x: string, l: string, y: string)
    requires k < |w| && AllNumeric(w[..k]) && !IsNumeric(w[k]) && 'a' <= w[k] <= 'z'
    requires AllNumeric(l) && Delimited(y)
    ensures w + x != l + y
  {
    assert w + x == w[..k] + (w[k..] + x);
    LeadIs(w[..k], w[k..] + x);
    LeadIs(l, y);
    assert (w + x)[k..] == w[k..] + x && (w[k..] + x)[0] == w[k];
  }

  lemma {:induction false} NumberIsNoWord(v: Value, l: string, x: string, y: string)
    requires (v.Null? || v.Bool?) && AllNumeric(l) && Delimited(y)
    ensures Dumps(v) + x != l + y
  {
    match v
    case Null => WordIsNoNumber("null", 1, x, l, y);
    case Bool(b) =>
      if b {
        WordIsNoNumber("true", 1, x, l, y);
      } else {
        WordIsNoNumber("false", 2, x, l, y);
      }
  }

  /** The text of a value, followed by anything if the value is closed and by a delimiter if it is a number, determines
      the value and what follows. */
  lemma {:induction false} TextsAreReadable(a: Value, b: Value, x: string, y: string)
    requires WellFormed(a) && WellFormed(b) && Dumps(a) + x == Dumps(b) + y
    requires (a.Number? ==> Delimited(x)) && (b.Number? ==> Delimited(y))
    ensures a == b && x == y
    decreases a, 1, 0
  {
    TextStarts(a);
    TextStarts(b);
    SameStart(Dumps(a), x, Dumps(b), y);
    if a.Number? && b.Number? {
      NumbersAreReadable(a.literal, b.literal, x, y);
    } else if a.Number? {
      assert b.Null? || b.Bool?;
      NumberIsNoWord(b, a.literal, y, x);
    } else if b.Number? {
      assert a.Null? || a.Bool?;
      NumberIsNoWord(a, b.literal, x, y);
    } else {
      SameKindIsReadable(a, b, x, y);
    }
  }

  lemma {:induction false} SameKindIsReadable(a: Value, b: Value, x: string, y: string)
    requires WellFormed(a) && WellFormed(b) && !a.Number? && !b.Number? && Dumps(a) + x == Dumps(b) + y
    requires StartsLike(b, Dumps(a)[0])
    ensures a == b && x == y
    decreases a, 0, 2, 0
  {
    TextStarts(a);
    match a
    case Null => SameLength("null", x, "null", y);
    case Bool(c) => SameLength(Dumps(a), x, Dumps(b), y);
    case Str(s) => StringsAreReadable(s, b.s, x, y);
    case Arr(_) => ArraysAreReadable(a, b, x, y);
    case Obj(_) => ObjectsAreReadable(a, b, x, y);
  }

  /** Two sequences with the same items. */
  predicate SameAt<T(==)>(a: seq<T>, b: seq<T>, k: nat) {
    k < |a| && k < |b| && a[k] == b[k]
  }

  lemma {:induction false} SameEverywhere<T>(a: seq<T>, b: seq<T>, same: nat -> bool)
    requires |a| == |b| && (forall k: nat :: same(k) == SameAt(a, b, k)) && forall k: nat :: k < |a| ==> same(k)
    ensures a == b
  {
    forall k | 0 <= k < |a| ensures a[k] == b[k] {
      assert same(k);
    }
  }

  /** Behind the opening brackets. */
  lemma {:induction false} ArraysOpen(a: Value, b: Value, x: string, y: string)
    requires a.Arr? && b.Arr? && WellFormed(a) && WellFormed(b) && Dumps(a) + x == Dumps(b) + y
    ensures Startable(ItemTexts(a.items), "]") && Startable(ItemTexts(b.items), "]")
    ensures ListFrom(ItemTexts(a.items), "]", 0) + x == ListFrom(ItemTexts(b.items), "]", 0) + y
  {
    ArrayIsList(a);
    ArrayIsList(b);
    ItemsStart(a);
    ItemsStart(b);
    TwoParts("[", ListFrom(ItemTexts(a.items), "]", 0), x, "[", ListFrom(ItemTexts(b.items), "]", 0), y);
  }

  lemma {:induction false} ArraysAreReadable(a: Value, b: Value, x: string, y: string)
    requires a.Arr? && b.Arr? && WellFormed(a) && WellFormed(b) && Dumps(a) + x == Dumps(b) + y
    ensures a == b && x == y
    decreases a, 0, 1, 0
  {
    ArraysOpen(a, b, x, y);
    var ta, tb := ItemTexts(a.items), ItemTexts(b.items);
    var same := (i: nat) => SameAt(a.items, b.items, i);
    forall i: nat, p, q ensures Tells(ta, tb, same, i, p, q) {
      if i < |a.items| && i < |b.items| {
        ItemTells(a, b, i, p, q);
      }
    }
    ListsAreReadable(ta, tb, "]", same, 0, x, y);
    SameEverywhere(a.items, b.items, same);
  }

  lemma {:induction false} ItemTells(a: Value, b: Value, i: nat, p: string, q: string)
    requires a.Arr? && b.Arr? && WellFormed(a) && WellFormed(b) && i < |a.items| && i < |b.items|
    ensures Delimited(p) && Delimited(q) && Dumps(a.items[i]) + p == Dumps(b.items[i]) + q ==>
              a.items[i] == b.items[i] && p == q
    decreases a, 0, 0, 0
  {
    if Delimited(p) && Delimited(q) && Dumps(a.items[i]) + p == Dumps(b.items[i]) + q {
      TextsAreReadable(a.items[i], b.items[i], p, q);
    }
  }

  lemma {:induction false} ItemsStart(v: Value)
    requires v.Arr? && WellFormed(v)
    ensures Startable(ItemTexts(v.items), "]")
  {
    forall k | 0 <= k < |v.items| ensures Dumps(v.items[k]) != "" && Dumps(v.items[k])[0] != ']' {
      TextStarts(v.items[k]);
    }
  }

  lemma {:induction false} MembersStart(members: seq<(string, Value)>)
    ensures Startable(MemberTexts(members), "}")
  {
  }

  lemma {:induction false} ObjectsOpen(a: Value, b: Value, x: string, y: string)
    requires a.Obj? && b.Obj? && Dumps(a) + x == Dumps(b) + y
    ensures Startable(MemberTexts(a.members), "}") && Startable(MemberTexts(b.members), "}")
    ensures ListFrom(MemberTexts(a.members), "}", 0) + x == ListFrom(MemberTexts(b.members), "}", 0) + y
  {
    ObjectIsList(a);
    ObjectIsList(b);
    MembersStart(a.members);
    MembersStart(b.members);
    TwoParts("{", ListFrom(MemberTexts(a.members), "}", 0), x, "{", ListFrom(MemberTexts(b.members), "}", 0), y);
  }

  lemma {:induction false} ObjectsAreReadable(a: Value, b: Value, x: string, y: string)
    requires a.Obj? && b.Obj? && WellFormed(a) && WellFormed(b) && Dumps(a) + x == Dumps(b) + y
    ensures a == b && x == y
    decreases a, 0, 1, 0
  {
    ObjectsOpen(a, b, x, y);
    var ta, tb := MemberTexts(a.members), MemberTexts(b.members);
    var same := (i: nat) => SameAt(a.members, b.members, i);
    forall i: nat, p, q ensures Tells(ta, tb, same, i, p, q) {
      if i < |a.members| && i < |b.members| {
        MemberTells(a, b, i, p, q);
      }
    }
    ListsAreReadable(ta, tb, "}", same, 0, x, y);
    SameEverywhere(a.members, b.members, same);
  }

  lemma {:induction false} MemberTells(a: Value, b: Value, i: nat, p: string, q: string)
    requires a.Obj? && b.Obj? && WellFormed(a) && WellFormed(b) && i < |a.members| && i < |b.members|
    ensures Delimited(p) && Delimited(q) && Member(a.members[i]) + p == Member(b.members[i]) + q ==>
              a.members[i] == b.members[i] && p == q
    decreases a, 0, 0, 1
  {
    if Delimited(p) && Delimited(q) && Member(a.members[i]) + p == Member(b.members[i]) + q {
      MemberIsReadable(a, b, i, p, q);
    }
  }

  lemma {:induction false} MemberIsReadable(a: Value, b: Value, k: nat, x: string, y: string)
    requires a.Obj? && b.Obj? && WellFormed(a) && WellFormed(b) && k < |a.members| && k < |b.members|
    requires Delimited(x) && Delimited(y) && Member(a.members[k]) + x == Member(b.members[k]) + y
    ensures a.members[k] == b.members[k] && x == y
    decreases a, 0, 0, 0
  {
    var (key, one) := a.members[k];
    var (key', two) := b.members[k];
    Regroup(Quote(key), ": ", Dumps(one), x);
    Regroup(Quote(key'), ": ", Dumps(two), y);
    StringsAreReadable(key, key', ": " + (Dumps(one) + x), ": " + (Dumps(two) + y));
    SameLength(": ", Dumps(one) + x, ": ", Dumps(two) + y);
    TextsAreReadable(one, two, x, y);
  }

  /** Different values have different texts. */
  lemma {:induction false} DumpsIsInjective(a: Value, b: Value)
    requires WellFormed(a) && WellFormed(b) && Dumps(a) == Dumps(b)
    ensures a == b
  {
    assert Dumps(a) + "" == Dumps(b) + "";
    TextsAreReadable(a, b, "", "");
  }

  /** No proper prefix of the text of an object is the text of a value. */
  lemma {:induction false} ObjectsHaveNoPrefix(v: Value, a: Value, n: nat)
    requires WellFormed(v) && WellFormed(a) && v.Obj? && n < |Dumps(v)|
    ensures Dumps(a) != Dumps(v)[..n]
  {
    var text := Dumps(v);
    if Dumps(a) == text[..n] {
      TextStarts(a);
      TextStarts(v);
      assert text == text[..n] + text[n..] && text + "" == text;
      assert a.Obj?;
      TextsAreReadable(a, v, text[n..], "");
    }
  }
}
