/** The content planner of the local worker (scripts/orion_local_worker_content.py): a plan of at most seven posts whose
    topics, calls to action and headlines are repaired until no two of them read the same. */
module ContentPlan {
  import opened Text

  // ---- reading the same ----

  /** `s.split()`: the words of `s`, where `space` says what separates them. */
  function Words(space: char -> bool, s: string): (ws: seq<string>)
    ensures s != "" && !space(s[|s| - 1]) ==> ws != []
  {
    if s == "" then [] else AddChar(space, Words(space, s[..|s| - 1]), s[..|s| - 1], s[|s| - 1])
  }

  /** The words `ws` of `front` after one more character. */
  function AddChar(space: char -> bool, ws: seq<string>, front: string, c: char): (r: seq<string>)
    requires front != "" && !space(front[|front| - 1]) ==> ws != []
    ensures !space(c) ==> r != []
  {
    if space(c) then ws
    else if front == "" || space(front[|front| - 1]) then ws + [[c]]
    else ws[..|ws| - 1] + [ws[|ws| - 1] + [c]]
  }

  /** `" ".join(ws)` */
  function Join(ws: seq<string>): (s: string) {
    if ws == [] then "" else if |ws| == 1 then ws[0] else Join(ws[..|ws| - 1]) + " " + ws[|ws| - 1]
  }

  /** Two texts read the same if they have the same key: case and the amount of white space do not matter. */
  function Key(s: string): (k: string) {
    Join(Words(IsSpace, Lower(Strip(s))))
  }

  lemma {:induction false} WordsSnoc(space: char -> bool, front: string, c: char)
    ensures Words(space, front + [c]) == AddChar(space, Words(space, front), front, c)
  {
    assert (front + [c])[..|front|] == front;
  }

  lemma {:induction false} LeadingSpaceIsNoWord(space: char -> bool, c: char, s: string)
    requires space(c)
    ensures Words(space, [c] + s) == Words(space, s)
  {
    if s == "" {
      WordsSnoc(space, "", c);
      assert "" + [c] == [c] + s;
    } else {
      var front, last := s[..|s| - 1], s[|s| - 1];
      LeadingSpaceIsNoWord(space, c, front);
      WordsSnoc(space, [c] + front, last);
      assert [c] + front + [last] == [c] + s;
    }
  }

  lemma {:induction false} LowerKeepsSpace(s: string)
    requires s != ""
    ensures IsSpace(s[0]) ==> Lower(s) == [s[0]] + Lower(s[1..])
    ensures IsSpace(s[|s| - 1]) ==> Lower(s) == Lower(s[..|s| - 1]) + [s[|s| - 1]]
  {
  }

  lemma {:induction false} WordsOfTrimLeft(s: string)
    ensures Words(IsSpace, Lower(TrimLeft(IsSpace, s))) == Words(IsSpace, Lower(s))
  {
    if s != "" && IsSpace(s[0]) {
      WordsOfTrimLeft(s[1..]);
      LowerKeepsSpace(s);
      LeadingSpaceIsNoWord(IsSpace, s[0], Lower(s[1..]));
    }
  }

  lemma {:induction false} WordsOfTrimRight(s: string)
    ensures Words(IsSpace, Lower(TrimRight(IsSpace, s))) == Words(IsSpace, Lower(s))
  {
    if s != "" && IsSpace(s[|s| - 1]) {
      WordsOfTrimRight(s[..|s| - 1]);
      LowerKeepsSpace(s);
      WordsSnoc(IsSpace, Lower(s[..|s| - 1]), s[|s| - 1]);
    }
  }

  /** Stripping is not needed for the key. */
  lemma {:induction false} KeyOfUnstripped(s: string)
    ensures Key(s) == Join(Words(IsSpace, Lower(s)))
  {
    WordsOfTrimLeft(TrimRight(IsSpace, s));
    WordsOfTrimRight(s);
  }

  /** A last word: not empty, without white space, and the same in lower case. */
  ghost predicate IsWord(d: string) {
    d != "" && forall i :: 0 <= i < |d| ==> !IsSpace(d[i]) && LowerChar(d[i]) == d[i]
  }

  lemma {:induction false} LastWord(space: char -> bool, x: string, c: char, d: string)
    requires space(c) && d != "" && forall i :: 0 <= i < |d| ==> !space(d[i])
    ensures Words(space, x + [c] + d) == Words(space, x) + [d]
  {
    var front, last := d[..|d| - 1], d[|d| - 1];
    assert x + [c] + d == (x + [c] + front) + [last];
    WordsSnoc(space, x + [c] + front, last);
    if front == "" {
      assert x + [c] + front == x + [c];
      WordsSnoc(space, x, c);
      assert d == [last];
    } else {
      LastWord(space, x, c, front);
      assert front + [last] == d;
    }
  }

  /** Something that is not white space leaves a word behind. */
  lemma {:induction false} HasWords(space: char -> bool, s: string, i: nat)
    requires i < |s| && !space(s[i])
    ensures Words(space, s) != []
  {
    if i < |s| - 1 {
      HasWords(space, s[..|s| - 1], i);
    }
  }

  lemma {:induction false} WordsAreNotEmpty(space: char -> bool, s: string)
    ensures forall i :: 0 <= i < |Words(space, s)| ==> Words(space, s)[i] != ""
  {
    if s != "" {
      WordsAreNotEmpty(space, s[..|s| - 1]);
    }
  }

  lemma {:induction false} KeyIsNotEmpty(s: string, i: nat)
    requires i < |s| && !IsSpace(s[i])
    ensures Key(s) != ""
  {
    KeyOfUnstripped(s);
    HasWords(IsSpace, Lower(s), i);
    WordsAreNotEmpty(IsSpace, Lower(s));
  }

  lemma {:induction false} JoinSnoc(ws: seq<string>, d: string)
    requires ws != []
    ensures Join(ws + [d]) == Join(ws) + " " + d
  {
    assert (ws + [d])[..|ws|] == ws;
  }

  lemma {:induction false} JoinGrows(ws: seq<string>, c: char)
    requires ws != []
    ensures Join(ws[..|ws| - 1] + [ws[|ws| - 1] + [c]]) == Join(ws) + [c]
  {
    var front, w := ws[..|ws| - 1], ws[|ws| - 1];
    if front == [] {
      assert front + [w + [c]] == [w + [c]];
    } else {
      JoinSnoc(front, w);
      JoinSnoc(front, w + [c]);
      assert front + [w] == ws;
    }
  }

  /** A word put after a text is put after its key. */
  lemma {:induction false} KeyOfSuffix(x: string, d: string)
    requires IsWord(d) && Key(x) != ""
    ensures Key(x + " " + d) == Key(x) + " " + d
  {
    KeyOfUnstripped(x);
    KeyOfUnstripped(x + " " + d);
    assert Lower(x + " " + d) == Lower(x) + [' '] + d;
    LastWord(IsSpace, Lower(x), ' ', d);
    JoinSnoc(Words(IsSpace, Lower(x)), d);
  }

  // ---- numbers ----

  function Digit(n: nat): (c: char)
    requires n < 10
  {
    '0' + (n as char)
  }

  /** `str(n)` */
  function Digits(n: nat): (s: string) {
    if n < 10 then [Digit(n)] else Digits(n / 10) + [Digit(n % 10)]
  }

  lemma {:induction false} DigitsAreAWord(n: nat)
    ensures IsWord(Digits(n))
  {
    if n >= 10 {
      DigitsAreAWord(n / 10);
    }
  }

  /** The number that some digits stand for. */
  function ValueOf(s: string): (n: int) {
    if s == "" then 0 else 10 * ValueOf(s[..|s| - 1]) + (s[|s| - 1] as int - '0' as int)
  }

  lemma {:induction false} DigitsRead(n: nat)
    ensures ValueOf(Digits(n)) == n
  {
    if n < 10 {
      assert ValueOf([Digit(n)][..0]) == 0;
    } else {
      DigitsRead(n / 10);
      assert Digits(n)[..|Digits(n)| - 1] == Digits(n / 10);
    }
  }

  lemma {:induction false} DigitsDiffer(m: nat, n: nat)
    requires m != n
    ensures Digits(m) != Digits(n)
  {
    DigitsRead(m);
    DigitsRead(n);
  }

  // ---- the tables ----

  const WEEKDAYS := ["Monday", "Tuesday", "Wednesday", "Thursday", "Friday", "Saturday", "Sunday"]
  const FORMATS := ["Video", "Image", "Carousel", "Story", "Reel", "Text", "Live"]
  const ANGLES := ["How-to", "FAQ", "Behind the Scenes", "Customer Story", "Offer Spotlight", "Checklist", "Comparison"]
  const TEMPLATES := [
    ("Discover the benefits of ", ""), ("How to get started with ", ""), ("Common mistakes to avoid with ", ""),
    ("Real examples: ", ""), ("Quick guide: ", ""), ("What makes ", " different"), ("Before you start: ", "")
  ]

  datatype Item = Item(day: string, channel: string, format: string, topic: string, headline: string, cta: string,
                       status: string)
  datatype Post = Post(id: string, day: string, channel: string, format: string, topic: string, headline: string,
                       cta: string, status: string)

  /** `value or fallback` */
  function Or(value: string, fallback: string): (r: string) {
    if value == "" then fallback else value
  }

  // ---- topics ----

  /** The `b`-th topic to try: the angle alone, then numbered from 2. */
  function TopicTry(seed: string, angle: string, b: nat): (t: string) {
    if b <= 1 then seed + ": " + angle else seed + ": " + angle + " " + Digits(b)
  }

  function TopicTries(seed: string, angle: string): (f: nat -> string) {
    (b: nat) => TopicTry(seed, angle, b)
  }

  lemma {:induction false} TopicTriesDiffer(seed: string, angle: string, b: nat, c: nat)
    requires 1 <= b < c
    ensures Key(TopicTry(seed, angle, b)) != Key(TopicTry(seed, angle, c))
  {
    var x := seed + ": " + angle;
    assert x[|seed|] == ':';
    KeyIsNotEmpty(x, |seed|);
    DigitsAreAWord(b);
    DigitsAreAWord(c);
    KeyOfSuffix(x, Digits(b));
    KeyOfSuffix(x, Digits(c));
    DigitsDiffer(b, c);
    SuffixesDiffer(Key(x) + " ", Digits(b), Digits(c));
  }

  lemma {:induction false} SuffixesDiffer(p: string, s: string, t: string)
    requires s != t
    ensures p + s != p + t
  {
    assert s == (p + s)[|p|..] && t == (p + t)[|p|..];
  }

  lemma {:induction false} PrefixesDiffer(s: string, t: string, p: string)
    requires s != t
    ensures s + p != t + p
  {
    assert s == (s + p)[..|s + p| - |p|] && t == (t + p)[..|t + p| - |p|];
  }

  // ---- calls to action ----

  /** The `b`-th numbered call to action: the weekday alone, then numbered from 2. */
  function CtaTry(base: string, day: string, b: nat): (t: string) {
    if b <= 1 then base + " (" + day + ")" else base + " (" + day + " " + Digits(b) + ")"
  }

  function CtaTries(base: string, day: string): (f: nat -> string) {
    (b: nat) => CtaTry(base, day, b)
  }

  lemma {:induction false} CtaTriesDiffer(base: string, day: string, b: nat, c: nat)
    requires 1 <= b < c
    requires day in WEEKDAYS
    ensures Key(CtaTry(base, day, b)) != Key(CtaTry(base, day, c))
  {
    var x := base + " (" + day;
    assert x[|base| + 1] == '(';
    KeyIsNotEmpty(x, |base| + 1);
    CtaTryKey(base, day, c);
    if b == 1 {
      CtaFirstKey(base, day);
    } else {
      CtaTryKey(base, day, b);
      DigitsDiffer(b, c);
      PrefixesDiffer(Digits(b), Digits(c), ")");
      SuffixesDiffer(Key(x) + " ", Digits(b) + ")", Digits(c) + ")");
    }
  }

  lemma {:induction false} CtaTryKey(base: string, day: string, b: nat)
    requires b >= 2
    ensures Key(base + " (" + day) != ""
    ensures Key(CtaTry(base, day, b)) == Key(base + " (" + day) + " " + (Digits(b) + ")")
  {
    var x := base + " (" + day;
    assert x[|base| + 1] == '(';
    KeyIsNotEmpty(x, |base| + 1);
    DigitsAreAWord(b);
    assert IsWord(Digits(b) + ")");
    KeyOfSuffix(x, Digits(b) + ")");
    assert CtaTry(base, day, b) == x + " " + (Digits(b) + ")");
  }

  /** Appending to the last word appends to the key. */
  lemma {:induction false} KeyOfGrownWord(x: string, c: char)
    requires x != "" && !IsSpace(x[|x| - 1]) && !IsSpace(c) && LowerChar(c) == c
    ensures Key(x + [c]) == Key(x) + [c]
  {
    KeyOfUnstripped(x);
    KeyOfUnstripped(x + [c]);
    LowerGrows(x, c);
    WordGrows(IsSpace, Lower(x), c);
  }

  lemma {:induction false} LowerGrows(x: string, c: char)
    requires x != "" && !IsSpace(x[|x| - 1]) && LowerChar(c) == c
    ensures Lower(x + [c]) == Lower(x) + [c]
    ensures !IsSpace(Lower(x)[|x| - 1])
  {
  }

  lemma {:induction false} WordGrows(space: char -> bool, x: string, c: char)
    requires x != "" && !space(x[|x| - 1]) && !space(c)
    ensures Join(Words(space, x + [c])) == Join(Words(space, x)) + [c]
  {
    WordsSnoc(space, x, c);
    JoinGrows(Words(space, x), c);
  }

  lemma {:induction false} CtaFirstKey(base: string, day: string)
    requires day in WEEKDAYS
    ensures Key(CtaTry(base, day, 1)) == Key(base + " (" + day) + ")"
  {
    var x := base + " (" + day;
    assert day[|day| - 1] == 'y';
    assert x[|x| - 1] == 'y';
    KeyOfGrownWord(x, ')');
    assert CtaTry(base, day, 1) == x + [')'];
  }

  // ---- headlines ----

  /** The headline after `b - 1` numbers were put behind it, one after the other. */
  function HeadlineTry(base: string, b: nat): (t: string) {
    if b <= 1 then base else HeadlineTry(base, b - 1) + " (" + Digits(b) + ")"
  }

  lemma {:induction false} KeyOfNumbered(x: string, b: nat)
    requires Key(x) != ""
    ensures |Key(x + " (" + Digits(b) + ")")| > |Key(x)|
  {
    var d := "(" + Digits(b) + ")";
    DigitsAreAWord(b);
    assert IsWord(d);
    KeyOfSuffix(x, d);
    assert x + " (" + Digits(b) + ")" == x + " " + d;
  }

  /** Each number makes the key longer. */
  lemma {:induction false} HeadlineGrows(base: string, b: nat)
    requires Key(base) != "" && b >= 2
    ensures Key(HeadlineTry(base, b - 1)) != ""
    ensures |Key(HeadlineTry(base, b))| > |Key(HeadlineTry(base, b - 1))|
  {
    if b > 2 {
      HeadlineGrows(base, b - 1);
    }
    KeyOfNumbered(HeadlineTry(base, b - 1), b);
  }

  function HeadlineTries(base: string): (f: nat -> string) {
    (b: nat) => HeadlineTry(base, b)
  }

  lemma {:induction false} HeadlineTriesDiffer(base: string, b: nat, c: nat)
    requires Key(base) != "" && 1 <= b < c
    ensures |Key(HeadlineTry(base, b))| < |Key(HeadlineTry(base, c))|
  {
    HeadlineGrows(base, c);
    if b < c - 1 {
      HeadlineTriesDiffer(base, b, c - 1);
    }
  }

  function Template(idx: nat, topic: string): (t: string)
    ensures Key(t) != ""
  {
    var (before, after) := TEMPLATES[idx % 7];
    assert !IsSpace(before[0]);
    assert (before + topic + after)[0] == before[0];
    KeyIsNotEmpty(before + topic + after, 0);
    before + topic + after
  }

  // ---- the repair loop ----

  /** What the loops below need of a key: no two texts that one loop tries have the same. */
  ghost predicate GoodKey(key: string -> string) {
    && (forall seed, angle :: AllDiffer(key, TopicTries(seed, angle)))
    && (forall base, day :: day in WEEKDAYS ==> AllDiffer(key, CtaTries(base, day)))
    && (forall idx: nat, topic :: AllDiffer(key, HeadlineTries(Template(idx, topic))))
  }

  ghost predicate AllDiffer(key: string -> string, tries: nat -> string) {
    forall b: nat, c: nat :: 1 <= b < c ==> key(tries(b)) != key(tries(c))
  }

  lemma {:induction false} KeyIsGood()
    ensures GoodKey(Key)
  {
    forall seed, angle ensures AllDiffer(Key, TopicTries(seed, angle)) {
      forall b: nat, c: nat | 1 <= b < c
        ensures Key(TopicTries(seed, angle)(b)) != Key(TopicTries(seed, angle)(c))
      {
        TopicTriesDiffer(seed, angle, b, c);
      }
    }
    forall base, day | day in WEEKDAYS ensures AllDiffer(Key, CtaTries(base, day)) {
      forall b: nat, c: nat | 1 <= b < c ensures Key(CtaTries(base, day)(b)) != Key(CtaTries(base, day)(c)) {
        CtaTriesDiffer(base, day, b, c);
      }
    }
    forall idx: nat, topic ensures AllDiffer(Key, HeadlineTries(Template(idx, topic))) {
      var base := Template(idx, topic);
      forall b: nat, c: nat | 1 <= b < c ensures Key(HeadlineTries(base)(b)) != Key(HeadlineTries(base)(c)) {
        HeadlineTriesDiffer(base, b, c);
      }
    }
  }

  /** `s` is the first of the texts whose key is not used. */
  ghost predicate FirstFree(key: string -> string, used: set<string>, tries: nat -> string, s: string) {
    exists b: nat :: b >= 1 && s == tries(b) && FreeAt(key, used, tries, b)
  }

  ghost predicate FreeAt(key: string -> string, used: set<string>, tries: nat -> string, b: nat) {
    key(tries(b)) !in used && forall c: nat :: 1 <= c < b ==> key(tries(c)) in used
  }

  /** The three repair loops. They end, because the texts tried have different keys and only finitely many are used. */
  method Repair(key: string -> string, used: set<string>, tries: nat -> string) returns (s: string)
    requires AllDiffer(key, tries)
    ensures FirstFree(key, used, tries, s)
    ensures key(s) !in used
  {
    s := tries(1);
    var bump := 2;
    ghost var tried: set<string> := {};
    while key(s) in used
      invariant bump >= 2 && s == tries(bump - 1)
      invariant forall c: nat :: 1 <= c < bump - 1 ==> key(tries(c)) in used
      invariant tried <= used
      invariant forall k :: k in tried ==> exists c: nat :: 1 <= c < bump - 1 && k == key(tries(c))
      decreases used - tried
    {
      tried := tried + {key(tries(bump - 1))};
      s := tries(bump);
      bump := bump + 1;
    }
    assert FreeAt(key, used, tries, bump - 1);
  }

  // ---- one post ----

  /** The base topic if it is new, and otherwise the first variation that is. */
  ghost predicate TopicIs(key: string -> string, used: set<string>, base: string, seed: string, angle: string,
                          topic: string) {
    if key(base) !in used then topic == base else FirstFree(key, used, TopicTries(seed, angle), topic)
  }

  /** What is chosen before the used keys are looked at: the item's own text unless it is blank or repeats the last. */
  function CtaFirst(key: string -> string, last: Option<string>, own: string, cycle: seq<string>, idx: nat): (r: string)
    requires cycle != []
  {
    var cta := Strip(own);
    if cta == "" || (last.Some? && key(cta) == key(last.value)) then cycle[idx % |cycle|] else cta
  }

  function Around(cycle: seq<string>, idx: nat, offset: nat): (r: string)
    requires cycle != []
  {
    cycle[(idx + offset) % |cycle|]
  }

  /** Going round the cycle from `offset` on, the first entry that is new; `fallback` exactly if all are taken. */
  function CtaAround(key: string -> string, used: set<string>, cycle: seq<string>, idx: nat, offset: nat,
                     fallback: string)
      : (r: string)
    requires cycle != [] && offset <= |cycle| + 1 && key(fallback) in used
    ensures key(r) in used <==> forall k: nat :: offset <= k <= |cycle| ==> key(Around(cycle, idx, k)) in used
    ensures key(r) in used ==> r == fallback
    decreases |cycle| + 1 - offset
  {
    if offset > |cycle| then fallback
    else if key(Around(cycle, idx, offset)) !in used then Around(cycle, idx, offset)
    else CtaAround(key, used, cycle, idx, offset + 1, fallback)
  }

  /** The call to action before it is numbered. */
  function CtaBase(key: string -> string, used: set<string>, last: Option<string>, own: string, cycle: seq<string>,
                   idx: nat)
      : (r: string)
    requires cycle != []
  {
    var first := CtaFirst(key, last, own, cycle, idx);
    if key(first) in used && |cycle| > 1 then CtaAround(key, used, cycle, idx, 1, first) else first
  }

  /** The chosen call to action if it is new, and otherwise the first numbered default that is. */
  ghost predicate CtaIs(key: string -> string, used: set<string>, base: string, fallback: string, day: string,
                        cta: string) {
    if key(base) !in used then cta == base else FirstFree(key, used, CtaTries(fallback, day), cta)
  }

  method RepairCta(key: string -> string, used: set<string>, last: Option<string>, own: string, cycle: seq<string>,
                   fallback: string, idx: nat) returns (cta: string)
    requires GoodKey(key) && cycle != []
    ensures CtaIs(key, used, CtaBase(key, used, last, own, cycle, idx), fallback, WEEKDAYS[idx % 7], cta)
    ensures key(cta) !in used
  {
    cta := Strip(own);
    if cta == "" || (last.Some? && key(cta) == key(last.value)) {
      cta := cycle[idx % |cycle|];
    }
    ghost var first := cta;
    if key(cta) in used && |cycle| > 1 {
      for offset := 1 to |cycle| + 1
        invariant cta == first
        invariant CtaAround(key, used, cycle, idx, 1, first) == CtaAround(key, used, cycle, idx, offset, first)
      {
        if key(Around(cycle, idx, offset)) !in used {
          cta := Around(cycle, idx, offset);
          break;
        }
      }
    }
    assert cta == CtaBase(key, used, last, own, cycle, idx);
    if key(cta) in used {
      cta := Repair(key, used, CtaTries(fallback, WEEKDAYS[idx % 7]));
    }
  }

  /** The item's own headline if it is new, and otherwise the template with as few numbers as make it new. */
  ghost predicate HeadlineIs(key: string -> string, used: set<string>, own: string, template: string,
                             headline: string) {
    if Strip(own) != "" && key(Strip(own)) !in used then headline == Strip(own)
    else FirstFree(key, used, HeadlineTries(template), headline)
  }

  function DayChoice(key: string -> string, used: set<string>, own: string, idx: nat): (day: string) {
    if Strip(own) == "" || key(Strip(own)) in used then WEEKDAYS[idx % 7] else Strip(own)
  }

  function FormatChoice(key: string -> string, last: Option<string>, own: string, idx: nat): (r: string) {
    if Strip(own) == "" || (last.Some? && key(Strip(own)) == key(last.value)) then FORMATS[idx % 7] else Strip(own)
  }

  datatype Seeds = Seeds(topics: seq<string>, channels: seq<string>, cta: string)

  function SeedTopic(seeds: Seeds, idx: nat, otherwise: string): (t: string) {
    if seeds.topics != [] then seeds.topics[idx % |seeds.topics|] else otherwise
  }

  function BaseTopic(seeds: Seeds, item: Item, idx: nat): (t: string) {
    if Strip(item.topic) != "" then Strip(item.topic) else SeedTopic(seeds, idx, "Update " + Digits(idx + 1))
  }

  predicate HasChannel(seeds: Seeds, item: Item) {
    Strip(item.channel) != "" || seeds.channels != []
  }

  function Channel(seeds: Seeds, item: Item, idx: nat): (c: string)
    requires HasChannel(seeds, item)
  {
    if Strip(item.channel) != "" then Strip(item.channel)
    else Or(seeds.channels[idx % |seeds.channels|], "Instagram")
  }

  // ---- the plan ----

  function Min(a: nat, b: nat): (m: nat) {
    if a <= b then a else b
  }

  /** The keys in use after some posts. */
  datatype Used = Used(days: set<string>, topics: set<string>, headlines: set<string>, ctas: set<string>)

  function UsedBy(key: string -> string, ps: seq<Post>): (u: Used) {
    if ps == [] then Used({}, {}, {}, {})
    else Note(key, UsedBy(key, ps[..|ps| - 1]), ps[|ps| - 1])
  }

  function Note(key: string -> string, u: Used, p: Post): (r: Used) {
    Used(u.days + {key(p.day)}, u.topics + {key(p.topic)}, u.headlines + {key(p.headline)}, u.ctas + {key(p.cta)})
  }

  lemma {:induction false} UsedByAll(key: string -> string, ps: seq<Post>, i: nat)
    requires i < |ps|
    ensures key(ps[i].topic) in UsedBy(key, ps).topics
    ensures key(ps[i].headline) in UsedBy(key, ps).headlines
    ensures key(ps[i].cta) in UsedBy(key, ps).ctas
  {
    if i < |ps| - 1 {
      UsedByAll(key, ps[..|ps| - 1], i);
    }
  }

  /** The posts have topics, headlines and calls to action that read differently. */
  ghost predicate Differ(key: string -> string, p: Post, q: Post) {
    key(p.topic) != key(q.topic) && key(p.headline) != key(q.headline) && key(p.cta) != key(q.cta)
  }

  ghost predicate AllPostsDiffer(key: string -> string, ps: seq<Post>) {
    forall i, j :: 0 <= i < j < |ps| ==> Differ(key, ps[i], ps[j])
  }

  lemma {:induction false} StillDifferent(key: string -> string, ps: seq<Post>, p: Post)
    requires AllPostsDiffer(key, ps)
    requires var u := UsedBy(key, ps);
             key(p.topic) !in u.topics && key(p.headline) !in u.headlines && key(p.cta) !in u.ctas
    ensures AllPostsDiffer(key, ps + [p])
  {
    forall i | 0 <= i < |ps| ensures Differ(key, ps[i], p) {
      UsedByAll(key, ps, i);
    }
  }

  /** `p` is what the rules make of `item`, after the posts `before`. */
  ghost predicate PostIs(key: string -> string, seeds: Seeds, cycle: seq<string>, before: seq<Post>, item: Item,
                         p: Post)
    requires cycle != [] && HasChannel(seeds, item)
  {
    var idx, used := |before|, UsedBy(key, before);
    var base := BaseTopic(seeds, item, idx);
    && p.id == "local-" + Digits(idx + 1)
    && p.day == DayChoice(key, used.days, item.day, idx)
    && p.channel == Channel(seeds, item, idx)
    && p.format == FormatChoice(key, LastFormat(before), item.format, idx)
    && p.status == Or(Strip(item.status), "drafted")
    && TopicIs(key, used.topics, base, SeedTopic(seeds, idx, base), ANGLES[idx % 7], p.topic)
    && CtaIs(key, used.ctas, CtaBase(key, used.ctas, LastCta(before), item.cta, cycle, idx),
             Or(seeds.cta, "Learn more"), WEEKDAYS[idx % 7], p.cta)
    && HeadlineIs(key, used.headlines, item.headline, Template(idx, p.topic), p.headline)
  }

  function LastFormat(ps: seq<Post>): (r: Option<string>) {
    if ps == [] then None else Some(ps[|ps| - 1].format)
  }

  function LastCta(ps: seq<Post>): (r: Option<string>) {
    if ps == [] then None else Some(ps[|ps| - 1].cta)
  }

  ghost predicate PlanIs(key: string -> string, seeds: Seeds, cycle: seq<string>, items: seq<Item>, ps: seq<Post>)
    requires cycle != [] && |ps| <= |items|
    requires forall i :: 0 <= i < |ps| ==> HasChannel(seeds, items[i])
  {
    ps != [] ==>
      var front := ps[..|ps| - 1];
      PlanIs(key, seeds, cycle, items, front) && PostIs(key, seeds, cycle, front, items[|front|], ps[|ps| - 1])
  }

  method NextPost(key: string -> string, seeds: Seeds, cycle: seq<string>, out: seq<Post>, item: Item, used: Used)
      returns (p: Post)
    requires GoodKey(key) && cycle != [] && HasChannel(seeds, item) && used == UsedBy(key, out)
    ensures PostIs(key, seeds, cycle, out, item, p)
    ensures key(p.topic) !in used.topics && key(p.headline) !in used.headlines && key(p.cta) !in used.ctas
  {
    var idx := |out|;
    var base := BaseTopic(seeds, item, idx);
    var topic := base;
    if key(topic) in used.topics {
      topic := Repair(key, used.topics, TopicTries(SeedTopic(seeds, idx, base), ANGLES[idx % 7]));
    }
    var cta := RepairCta(key, used.ctas, LastCta(out), item.cta, cycle, Or(seeds.cta, "Learn more"), idx);
    var headline := Strip(item.headline);
    if headline == "" || key(headline) in used.headlines {
      headline := Repair(key, used.headlines, HeadlineTries(Template(idx, topic)));
    }
    p := Post("local-" + Digits(idx + 1), DayChoice(key, used.days, item.day, idx), Channel(seeds, item, idx),
              FormatChoice(key, LastFormat(out), item.format, idx), topic, headline, cta,
              Or(Strip(item.status), "drafted"));
  }

  // ---- the cycle of calls to action ----

  const CTA_CANDIDATES := ["Learn more", "Start now", "Book today", "See examples", "Try now", "Join today"]

  /** The candidates that read differently from those before them, blank ones left out. */
  function Cycle(key: string -> string, candidates: seq<string>): (cycle: seq<string>) {
    if candidates == [] then []
    else
      var front, c := Cycle(key, candidates[..|candidates| - 1]), candidates[|candidates| - 1];
      if key(c) != "" && key(c) !in Keys(key, front) then front + [c] else front
  }

  function Keys(key: string -> string, ss: seq<string>): (ks: set<string>) {
    set i | 0 <= i < |ss| :: key(ss[i])
  }

  lemma {:induction false} KeysSnoc(key: string -> string, ss: seq<string>, s: string)
    ensures Keys(key, ss + [s]) == Keys(key, ss) + {key(s)}
  {
    var all := ss + [s];
    assert all[|ss|] == s;
    assert forall i :: 0 <= i < |ss| ==> all[i] == ss[i];
  }

  function CtaCycle(defaultCta: string): (cycle: seq<string>) {
    Cycle(Key, [Or(defaultCta, "Learn more")] + CTA_CANDIDATES)
  }

  /** The cycle has the key of every candidate that is not blank. */
  lemma {:induction false} CycleCovers(key: string -> string, candidates: seq<string>, k: nat)
    requires k < |candidates| && key(candidates[k]) != ""
    ensures key(candidates[k]) in Keys(key, Cycle(key, candidates))
  {
    var front := candidates[..|candidates| - 1];
    KeysSnoc(key, Cycle(key, front), candidates[|candidates| - 1]);
    if k < |candidates| - 1 {
      CycleCovers(key, front, k);
    }
  }

  lemma {:induction false} CtaCycleIsNotEmpty(defaultCta: string)
    ensures CtaCycle(defaultCta) != []
  {
    var candidates := [Or(defaultCta, "Learn more")] + CTA_CANDIDATES;
    assert candidates[1] == "Learn more";
    KeyIsNotEmpty("Learn more", 0);
    CycleCovers(Key, candidates, 1);
  }

  method BuildCtaCycle(key: string -> string, candidates: seq<string>) returns (cycle: seq<string>)
    ensures cycle == Cycle(key, candidates)
  {
    var keys: set<string> := {};
    cycle := [];
    for n := 0 to |candidates|
      invariant cycle == Cycle(key, candidates[..n]) && keys == Keys(key, cycle)
    {
      assert candidates[..n + 1][..n] == candidates[..n];
      if key(candidates[n]) != "" && key(candidates[n]) !in keys {
        KeysSnoc(key, cycle, candidates[n]);
        cycle := cycle + [candidates[n]];
        keys := keys + {key(candidates[n])};
      }
    }
    assert candidates[..|candidates|] == candidates;
  }

  lemma {:induction false} PlanOneMore(key: string -> string, seeds: Seeds, cycle: seq<string>, items: seq<Item>,
                                       ps: seq<Post>, p: Post)
    requires cycle != [] && |ps| < |items|
    requires forall i :: 0 <= i <= |ps| ==> HasChannel(seeds, items[i])
    requires PlanIs(key, seeds, cycle, items, ps) && PostIs(key, seeds, cycle, ps, items[|ps|], p)
    ensures PlanIs(key, seeds, cycle, items, ps + [p])
    ensures UsedBy(key, ps + [p]) == Note(key, UsedBy(key, ps), p)
  {
    assert (ps + [p])[..|ps|] == ps;
  }

  /** The planner's loop, for any key. */
  method Vary(key: string -> string, items: seq<Item>, seeds: Seeds, cycle: seq<string>) returns (out: seq<Post>)
    requires GoodKey(key) && cycle != []
    requires forall i :: 0 <= i < Min(7, |items|) ==> HasChannel(seeds, items[i])
    ensures |out| == Min(7, |items|)
    ensures AllPostsDiffer(key, out)
    ensures PlanIs(key, seeds, cycle, items, out)
  {
    out := [];
    var used := Used({}, {}, {}, {});
    for idx := 0 to Min(7, |items|)
      invariant |out| == idx && used == UsedBy(key, out)
      invariant AllPostsDiffer(key, out) && PlanIs(key, seeds, cycle, items, out)
    {
      var post := NextPost(key, seeds, cycle, out, items[idx], used);
      StillDifferent(key, out, post);
      PlanOneMore(key, seeds, cycle, items, out, post);
      out := out + [post];
      used := Note(key, used, post);
    }
  }

  /** For every input the posts' topics, headlines and calls to action all read differently, and each post is what the
      rules make of its item, given the posts before it. */
  method ApplyContentPlanVariation(items: seq<Item>, seeds: Seeds) returns (out: seq<Post>)
    requires forall i :: 0 <= i < Min(7, |items|) ==> HasChannel(seeds, items[i])
    ensures |out| == Min(7, |items|)
    ensures AllPostsDiffer(Key, out)
    ensures CtaCycle(seeds.cta) != [] && PlanIs(Key, seeds, CtaCycle(seeds.cta), items, out)
  {
    KeyIsGood();
    CtaCycleIsNotEmpty(seeds.cta);
    var cycle := BuildCtaCycle(Key, [Or(seeds.cta, "Learn more")] + CTA_CANDIDATES);
    out := Vary(Key, items, seeds, cycle);
  }

  // ---- normalizing what the model wrote ----

  /** `str(value or fallback).strip() or fallback` */
  function StripOr(value: string, fallback: string): (r: string) {
    Or(Strip(Or(value, fallback)), fallback)
  }

  function NormalItem(seeds: Seeds, raw: Item, idx: nat): (item: Item)
    requires seeds.topics != [] && seeds.channels != []
  {
    var topic := StripOr(raw.topic, seeds.topics[idx % |seeds.topics|]);
    Item(StripOr(raw.day, "Day " + Digits(idx + 1)), StripOr(raw.channel, seeds.channels[idx % |seeds.channels|]),
         StripOr(raw.format, "Post"), topic, StripOr(raw.headline, topic + " in one minute"),
         StripOr(raw.cta, seeds.cta), StripOr(raw.status, "drafted"))
  }

  function SeedItem(seeds: Seeds, idx: nat): (item: Item)
    requires idx < |seeds.topics| && seeds.channels != []
  {
    Item("Day " + Digits(idx + 1), seeds.channels[idx % |seeds.channels|], "Post", seeds.topics[idx],
         seeds.topics[idx] + " in one minute", seeds.cta, "drafted")
  }

  /** The entries that are records, filled in; the others are skipped, but count for the numbering. */
  function NormalItems(seeds: Seeds, listed: seq<Option<Item>>): (items: seq<Item>)
    requires seeds.topics != [] && seeds.channels != []
    ensures |items| <= |listed|
    ensures items == [] <==> forall i :: 0 <= i < |listed| ==> listed[i].None?
  {
    if listed == [] then []
    else
      var idx := |listed| - 1;
      NormalItems(seeds, listed[..idx]) + if listed[idx].Some? then [NormalItem(seeds, listed[idx].value, idx)] else []
  }

  /** The first seven entries, or one item per seed topic if none of them is a record. */
  function PlanItems(seeds: Seeds, listed: seq<Option<Item>>): (items: seq<Item>)
    requires seeds.topics != [] && seeds.channels != []
    ensures items != []
  {
    var items := NormalItems(seeds, listed);
    if items != [] then items else seq(|seeds.topics|, i requires 0 <= i < |seeds.topics| => SeedItem(seeds, i))
  }

  function DefaultSeeds(topics: seq<string>, channels: seq<string>, offers: string): (seeds: Seeds)
    ensures seeds.topics != [] && |seeds.topics| <= 4 && seeds.channels != []
  {
    Seeds(if topics == [] then ["General update"] else topics[..Min(4, |topics|)],
          if channels == [] then ["Instagram"] else channels, Or(offers, "Learn more"))
  }

  function Listed(items: Option<seq<Option<Item>>>): (r: seq<Option<Item>>)
    ensures |r| <= 7
  {
    if items.None? then [] else items.value[..Min(7, |items.value|)]
  }

  /** Whatever was written (`None` is not a list), the plan is not empty, its posts all read differently, and it has one
      post for each record among the first seven entries, or for each seed topic if there is none. */
  method NormalizeContentPlanItems(items: Option<seq<Option<Item>>>, topics: seq<string>, channels: seq<string>,
                                   offers: string) returns (out: seq<Post>)
    ensures AllPostsDiffer(Key, out)
    ensures var seeds := DefaultSeeds(topics, channels, offers);
            var filled := PlanItems(seeds, Listed(items));
            |out| == |filled| && CtaCycle(seeds.cta) != [] && PlanIs(Key, seeds, CtaCycle(seeds.cta), filled, out)
  {
    var seeds := DefaultSeeds(topics, channels, offers);
    var listed := Listed(items);
    var normalized: seq<Item> := [];
    for idx := 0 to |listed|
      invariant normalized == NormalItems(seeds, listed[..idx])
    {
      NormalOneMore(seeds, listed, idx);
      if listed[idx].Some? {
        normalized := normalized + [NormalItem(seeds, listed[idx].value, idx)];
      }
    }
    assert listed[..|listed|] == listed;
    if normalized == [] {
      normalized := SeedItems(seeds);
    }
    assert normalized == PlanItems(seeds, listed);
    out := ApplyContentPlanVariation(normalized, seeds);
  }

  method SeedItems(seeds: Seeds) returns (items: seq<Item>)
    requires seeds.channels != []
    ensures |items| == |seeds.topics| && forall i :: 0 <= i < |items| ==> items[i] == SeedItem(seeds, i)
  {
    items := [];
    for idx := 0 to |seeds.topics|
      invariant |items| == idx && forall i :: 0 <= i < idx ==> items[i] == SeedItem(seeds, i)
    {
      items := items + [SeedItem(seeds, idx)];
    }
  }

  lemma {:induction false} NormalOneMore(seeds: Seeds, listed: seq<Option<Item>>, idx: nat)
    requires seeds.topics != [] && seeds.channels != [] && idx < |listed|
    ensures NormalItems(seeds, listed[..idx + 1]) ==
            NormalItems(seeds, listed[..idx])
            + if listed[idx].Some? then [NormalItem(seeds, listed[idx].value, idx)] else []
  {
    assert listed[..idx + 1][..idx] == listed[..idx];
  }
}
