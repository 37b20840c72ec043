/** JSON as `json.dumps` writes it, with its default settings: everything outside printable ASCII is escaped, so the
    text fits on one line of an event stream. */
module Json {

  datatype Value =
    | Null
    | Bool(b: bool)
    | Number(literal: string)
    | Str(s: string)
    | Arr(items: seq<Value>)
    | Obj(members: seq<(string, Value)>)

  /** A character of a number as Python writes it, NaN and infinities included. */
  predicate IsNumeric(c: char) {
    '0' <= c <= '9' || c in "+-.eNaInfity"
  }

  predicate WellFormed(v: Value)
    decreases v, 1, 0
  {
    match v
    case Number(literal) => literal != "" && forall i :: 0 <= i < |literal| ==> IsNumeric(literal[i])
    case Arr(items) => forall i :: 0 <= i < |items| ==> WellFormed(items[i])
    case Obj(members) => forall i :: 0 <= i < |members| ==> WellFormed(members[i].1)
    case _ => true
  }

  function Hex(n: nat): (c: char)
    requires n < 16
  {
    if n < 10 then '0' + n as char else 'a' + (n - 10) as char
  }

  /** A UTF-16 code unit. */
  function Unit(n: nat): (s: string)
    requires n < 0x10000
  {
    "\\u" + [Hex(n / 4096), Hex(n / 256 % 16), Hex(n / 16 % 16), Hex(n % 16)]
  }

  function EscapeChar(c: char): (s: string) {
    if c == '"' then "\\\""
    else if c == '\\' then "\\\\"
    else if ' ' <= c <= '~' then [c]
    else if c == '\n' then "\\n"
    else if c == '\r' then "\\r"
    else if c == '\t' then "\\t"
    else if c == '\U{0c}' then "\\f"
    else if c == '\U{08}' then "\\b"
    else CodeUnits(c as int)
  }

  /** One unit, or a surrogate pair. */
  function CodeUnits(n: nat): (s: string) {
    if n < 0x10000 then Unit(n) else Unit(0xd800 + (n - 0x10000) / 0x400 % 0x400) + Unit(0xdc00 + (n - 0x10000) % 0x400)
  }

  function Escape(s: string): (r: string) {
    if s == "" then "" else Escape(s[..|s| - 1]) + EscapeChar(s[|s| - 1])
  }

  function Quote(s: string): (r: string) {
    "\"" + Escape(s) + "\""
  }

  function Dumps(v: Value): (s: string)
    decreases v, 1, 0
  {
    match v
    case Null => "null"
    case Bool(b) => if b then "true" else "false"
    case Number(literal) => literal
    case Str(s) => Quote(s)
    case Arr(items) => "[" + DumpItems(v, |items|) + "]"
    case Obj(members) => "{" + DumpMembers(v, |members|) + "}"
  }

  /** The first `n` items of an array. */
  function DumpItems(v: Value, n: nat): (s: string)
    requires v.Arr? && n <= |v.items|
    decreases v, 0, n
  {
    if n == 0 then "" else if n == 1 then Dumps(v.items[0]) else DumpItems(v, n - 1) + ", " + Dumps(v.items[n - 1])
  }

  /** The first `n` members of an object. */
  function DumpMembers(v: Value, n: nat): (s: string)
    requires v.Obj? && n <= |v.members|
    decreases v, 0, n
  {
    if n == 0 then ""
    else
      var one := Quote(v.members[n - 1].0) + ": " + Dumps(v.members[n - 1].1);
      if n == 1 then one else DumpMembers(v, n - 1) + ", " + one
  }

  // ---- one line of printable ASCII ----

  predicate Ascii(s: string) {
    forall i :: 0 <= i < |s| ==> ' ' <= s[i] <= '~'
  }

  lemma {:induction false} AsciiJoins(a: string, b: string)
    requires Ascii(a) && Ascii(b)
    ensures Ascii(a + b)
  {
  }

  lemma {:induction false} HexIsAscii(n: nat)
    requires n < 16
    ensures ' ' <= Hex(n) <= '~'
  {
  }

  lemma {:induction false} UnitIsAscii(n: nat)
    requires n < 0x10000
    ensures Ascii(Unit(n))
  {
    HexIsAscii(n / 4096);
    HexIsAscii(n / 256 % 16);
    HexIsAscii(n / 16 % 16);
    HexIsAscii(n % 16);
  }

  lemma {:induction false} CodeUnitsAreAscii(n: nat)
    ensures Ascii(CodeUnits(n))
  {
    if n < 0x10000 {
      UnitIsAscii(n);
    } else {
      var high, low := 0xd800 + (n - 0x10000) / 0x400 % 0x400, 0xdc00 + (n - 0x10000) % 0x400;
      UnitIsAscii(high);
      UnitIsAscii(low);
      AsciiJoins(Unit(high), Unit(low));
    }
  }

  lemma {:induction false} EscapedCharIsAscii(c: char)
    ensures Ascii(EscapeChar(c))
  {
    CodeUnitsAreAscii(c as int);
  }

  lemma {:induction false} EscapedIsAscii(s: string)
    ensures Ascii(Escape(s)) && Ascii(Quote(s))
  {
    if s != "" {
      EscapedIsAscii(s[..|s| - 1]);
      EscapedCharIsAscii(s[|s| - 1]);
      AsciiJoins(Escape(s[..|s| - 1]), EscapeChar(s[|s| - 1]));
    }
  }

  /** Whatever the value, its text is printable ASCII on one line. */
  lemma {:induction false} DumpsIsAscii(v: Value)
    requires WellFormed(v)
    ensures Ascii(Dumps(v))
    decreases v, 1, 0
  {
    match v
    case Str(s) => EscapedIsAscii(s);
    case Arr(items) => ItemsAreAscii(v, |items|);
    case Obj(members) => MembersAreAscii(v, |members|);
    case _ =>
  }

  lemma {:induction false} ItemsAreAscii(v: Value, n: nat)
    requires v.Arr? && WellFormed(v) && n <= |v.items|
    ensures Ascii(DumpItems(v, n))
    decreases v, 0, n
  {
    if n > 0 {
      ItemsAreAscii(v, n - 1);
      DumpsIsAscii(v.items[n - 1]);
      AsciiJoins(DumpItems(v, n - 1), ", ");
      AsciiJoins(DumpItems(v, n - 1) + ", ", Dumps(v.items[n - 1]));
    }
  }

  lemma {:induction false} MembersAreAscii(v: Value, n: nat)
    requires v.Obj? && WellFormed(v) && n <= |v.members|
    ensures Ascii(DumpMembers(v, n))
    decreases v, 0, n
  {
    if n > 0 {
      var key, text := Quote(v.members[n - 1].0), Dumps(v.members[n - 1].1);
      MembersAreAscii(v, n - 1);
      EscapedIsAscii(v.members[n - 1].0);
      DumpsIsAscii(v.members[n - 1].1);
      AsciiJoins(key, ": ");
      AsciiJoins(key + ": ", text);
      AsciiJoins(DumpMembers(v, n - 1), ", ");
      AsciiJoins(DumpMembers(v, n - 1) + ", ", key + ": " + text);
    }
  }
}
