/** The few string operations that the local worker, the control stream and the content planner share:
    `strip`, ASCII lower-casing, and optional values. */
module Text {

  datatype Option<+T> = None | Some(value: T)

  lemma {:induction false} ConcatAssoc<T>(a: seq<T>, b: seq<T>, c: seq<T>)
    ensures (a + b) + c == a + (b + c)
  {
  }

  /** White space as `str.strip` sees it. */
  predicate IsSpace(c: char) {
    || '\t' <= c <= '\r'
    || '\U{1c}' <= c <= ' '
    || c == '\U{85}' || c == '\U{a0}' || c == '\U{1680}'
    || '\U{2000}' <= c <= '\U{200a}'
    || c == '\U{2028}' || c == '\U{2029}' || c == '\U{202f}' || c == '\U{205f}' || c == '\U{3000}'
  }

  /** The longest suffix of `s` that does not start with a character of `drop`. */
  function TrimLeft(drop: char -> bool, s: string): (r: string) {
    if s != "" && drop(s[0]) then TrimLeft(drop, s[1..]) else s
  }

  /** The longest prefix of `s` that does not end with a character of `drop`. */
  function TrimRight(drop: char -> bool, s: string): (r: string) {
    if s != "" && drop(s[|s| - 1]) then TrimRight(drop, s[..|s| - 1]) else s
  }

  function Trim(drop: char -> bool, s: string): (r: string) {
    TrimLeft(drop, TrimRight(drop, s))
  }

  function Strip(s: string): (r: string) {
    Trim(IsSpace, s)
  }

  /** Neither end of `s` is a character of `drop`. */
  predicate Trimmed(drop: char -> bool, s: string) {
    s != "" ==> !drop(s[0]) && !drop(s[|s| - 1])
  }

  lemma {:induction false} TrimRightIsTrimmed(drop: char -> bool, s: string)
    ensures TrimRight(drop, s) <= s
    ensures TrimRight(drop, s) != "" ==> !drop(TrimRight(drop, s)[|TrimRight(drop, s)| - 1])
  {
    if s != "" && drop(s[|s| - 1]) {
      TrimRightIsTrimmed(drop, s[..|s| - 1]);
    }
  }

  lemma {:induction false} TrimLeftIsTrimmed(drop: char -> bool, s: string)
    ensures |TrimLeft(drop, s)| <= |s|
    ensures TrimLeft(drop, s) == s[|s| - |TrimLeft(drop, s)|..]
    ensures TrimLeft(drop, s) != "" ==> !drop(TrimLeft(drop, s)[0])
  {
    if s != "" && drop(s[0]) {
      TrimLeftIsTrimmed(drop, s[1..]);
    }
  }

  /** Trimming yields a trimmed substring, and is the identity exactly on trimmed strings. */
  lemma {:induction false} TrimIsTrimmed(drop: char -> bool, s: string)
    ensures Trimmed(drop, Trim(drop, s))
    ensures Trim(drop, s) == s <==> Trimmed(drop, s)
    ensures forall c :: c in Trim(drop, s) ==> c in s
  {
    TrimRightIsTrimmed(drop, s);
    TrimLeftIsTrimmed(drop, TrimRight(drop, s));
  }

  /** Leading characters that are dropped do not matter. */
  lemma {:induction false} TrimSkipsOne(drop: char -> bool, c: char, s: string)
    requires drop(c)
    ensures Trim(drop, [c] + s) == Trim(drop, s)
  {
    TrimRightCons(drop, c, s);
    assert ([c] + TrimRight(drop, s))[1..] == TrimRight(drop, s);
  }

  lemma {:induction false} TrimRightCons(drop: char -> bool, c: char, s: string)
    ensures TrimRight(drop, [c] + s) ==
            if TrimRight(drop, s) == "" && drop(c) then "" else [c] + TrimRight(drop, s)
  {
    if s != "" && drop(s[|s| - 1]) {
      assert ([c] + s)[..|s|] == [c] + s[..|s| - 1];
      TrimRightCons(drop, c, s[..|s| - 1]);
    } else if s == "" {
      assert [c] + s == [c];
      assert [c][..0] == "";
    }
  }

  /** What stands before a character that is kept is not touched. */
  lemma {:induction false} TrimRightKeepsPrefix(drop: char -> bool, prefix: string, s: string)
    requires prefix != "" && !drop(prefix[|prefix| - 1])
    ensures TrimRight(drop, prefix + s) == prefix + TrimRight(drop, s)
  {
    if s == "" {
      assert prefix + s == prefix;
    } else if drop(s[|s| - 1]) {
      TrimRightKeepsPrefix(drop, prefix, s[..|s| - 1]);
      assert (prefix + s)[..|prefix + s| - 1] == prefix + s[..|s| - 1];
    }
  }

  function LowerChar(c: char): (r: char) {
    if 'A' <= c <= 'Z' then c - 'A' + 'a' else c
  }

  /** `str.lower` on the ASCII letters. */
  function Lower(s: string): (r: string)
    ensures |r| == |s|
    ensures forall i :: 0 <= i < |s| ==> r[i] == LowerChar(s[i])
  {
    seq(|s|, i requires 0 <= i < |s| => LowerChar(s[i]))
  }

  /** `str(value or "").strip().lower() or fallback` */
  function Token(value: string, fallback: string): (r: string) {
    var t := Lower(Strip(if value == "" then fallback else value));
    if t == "" then fallback else t
  }

  /** The index of the first `c` in `s`, or `|s|` if there is none. */
  function IndexOf(s: string, c: char): (n: nat)
    ensures n <= |s|
  {
    if s == "" then 0 else if s[0] == c then 0 else 1 + IndexOf(s[1..], c)
  }

  lemma {:induction false} IndexOfIsFirst(s: string, c: char)
    ensures IndexOf(s, c) < |s| <==> c in s
    ensures IndexOf(s, c) < |s| ==> s[IndexOf(s, c)] == c
    ensures c !in s[..IndexOf(s, c)]
  {
    if s != "" && s[0] != c {
      IndexOfIsFirst(s[1..], c);
      var n := IndexOf(s, c);
      assert s[..n] == [s[0]] + s[1..][..n - 1];
    }
  }

  lemma {:induction false} IndexOfAfter(prefix: string, c: char, rest: string)
    requires c !in prefix
    ensures IndexOf(prefix + [c] + rest, c) == |prefix|
  {
    if prefix == "" {
      assert (prefix + [c] + rest)[0] == c;
    } else {
      assert (prefix + [c] + rest)[1..] == prefix[1..] + [c] + rest;
      IndexOfAfter(prefix[1..], c, rest);
    }
  }

  /** `a < b` on strings. */
  predicate Less(a: string, b: string) {
    b != "" && (a == "" || a[0] < b[0] || (a[0] == b[0] && Less(a[1..], b[1..])))
  }

  lemma {:induction false} LessIsTotal(a: string, b: string)
    ensures Less(a, b) || Less(b, a) || a == b
    ensures !(Less(a, b) && Less(b, a))
  {
    if a != "" && b != "" && a[0] == b[0] {
      LessIsTotal(a[1..], b[1..]);
      assert a == [a[0]] + a[1..] && b == [b[0]] + b[1..];
    }
  }

  lemma {:induction false} LessIsTransitive(a: string, b: string, c: string)
    requires Less(a, b) && Less(b, c)
    ensures Less(a, c)
  {
    if a != "" && a[0] == b[0] == c[0] {
      LessIsTransitive(a[1..], b[1..], c[1..]);
    }
  }
}
