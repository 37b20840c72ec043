/** What a content plan makes of its items (scripts/orion_local_worker_content.py), told by the posts themselves: own
    texts are kept unless an earlier post reads the same, and blanks are filled from the seeds and the cycles. */
module ContentRules {
  import opened ContentPlan
  import opened Text

  ghost predicate Planned(key: string -> string, seeds: Seeds, cycle: seq<string>, items: seq<Item>, ps: seq<Post>) {
    && cycle != [] && |ps| <= |items| && (forall i :: 0 <= i < |ps| ==> HasChannel(seeds, items[i]))
    && PlanIs(key, seeds, cycle, items, ps)
  }

  /** Post `i` is what the rules make of its item. */
  ghost predicate Follows(key: string -> string, seeds: Seeds, cycle: seq<string>, items: seq<Item>, ps: seq<Post>,
                          i: nat)
    requires cycle != [] && i < |ps| && i < |items|
  {
    HasChannel(seeds, items[i]) && PostIs(key, seeds, cycle, ps[..i], items[i], ps[i])
  }

  lemma {:induction false} LastFollows(key: string -> string, seeds: Seeds, cycle: seq<string>, items: seq<Item>,
                                       ps: seq<Post>, n: nat)
    requires n < |ps| <= |items| && Planned(key, seeds, cycle, items, ps[..n + 1])
    ensures Planned(key, seeds, cycle, items, ps[..n])
    ensures var follows := Follows(key, seeds, cycle, items, ps, n); follows
  {
    assert ps[..n + 1][..n] == ps[..n];
  }

  lemma {:induction false} PostAt(key: string -> string, seeds: Seeds, cycle: seq<string>, items: seq<Item>,
                                  ps: seq<Post>, n: nat, i: nat)
    requires i < n <= |ps| <= |items| && Planned(key, seeds, cycle, items, ps[..n])
    ensures var follows := Follows(key, seeds, cycle, items, ps, i); follows
    decreases n
  {
    LastFollows(key, seeds, cycle, items, ps, n - 1);
    if i < n - 1 {
      PostAt(key, seeds, cycle, items, ps, n - 1, i);
    }
  }

  // ---- used texts ----

  /** None of the posts reads like `s`, in the text that `of` picks. */
  ghost predicate Fresh(key: string -> string, of: Post -> string, ps: seq<Post>, s: string) {
    forall j :: 0 <= j < |ps| ==> key(of(ps[j])) != key(s)
  }

  lemma {:induction false} FreshSnoc(key: string -> string, of: Post -> string, ps: seq<Post>, s: string)
    requires ps != []
    ensures var n := |ps| - 1; Fresh(key, of, ps, s) <==> Fresh(key, of, ps[..n], s) && key(of(ps[n])) != key(s)
  {
    var n := |ps| - 1;
    if Fresh(key, of, ps[..n], s) && key(of(ps[n])) != key(s) {
      forall j | 0 <= j < |ps| ensures key(of(ps[j])) != key(s) {
        assert j < n ==> ps[..n][j] == ps[j];
      }
    }
  }

  const DAY: Post -> string := (p: Post) => p.day
  const TOPIC: Post -> string := (p: Post) => p.topic
  const HEADLINE: Post -> string := (p: Post) => p.headline
  const CTA: Post -> string := (p: Post) => p.cta

  /** The keys in use are those of the posts. */
  lemma {:induction false} UsedExactly(key: string -> string, ps: seq<Post>, s: string)
    ensures var u := UsedBy(key, ps);
            && (key(s) !in u.days <==> Fresh(key, DAY, ps, s))
            && (key(s) !in u.topics <==> Fresh(key, TOPIC, ps, s))
            && (key(s) !in u.headlines <==> Fresh(key, HEADLINE, ps, s))
            && (key(s) !in u.ctas <==> Fresh(key, CTA, ps, s))
  {
    if ps != [] {
      UsedExactly(key, ps[..|ps| - 1], s);
      FreshSnoc(key, DAY, ps, s);
      FreshSnoc(key, TOPIC, ps, s);
      FreshSnoc(key, HEADLINE, ps, s);
      FreshSnoc(key, CTA, ps, s);
    }
  }

  // ---- own texts ----

  /** The item's own text is not blank, and no earlier post reads like it. */
  ghost predicate Keeps(key: string -> string, of: Post -> string, before: seq<Post>, own: string) {
    Strip(own) != "" && Fresh(key, of, before, Strip(own))
  }

  lemma {:induction false} OwnCta(key: string -> string, before: seq<Post>, own: string, cycle: seq<string>)
    requires cycle != [] && Keeps(key, CTA, before, own)
    ensures CtaBase(key, UsedBy(key, before).ctas, LastCta(before), own, cycle, |before|) == Strip(own)
  {
    UsedExactly(key, before, Strip(own));
    if before != [] {
      assert key(CTA(before[|before| - 1])) != key(Strip(own));
    }
  }

  /** Own texts are kept: topic, headline, call to action and day if no earlier post reads like them, the format if the
      post before has another, channel and status always. */
  lemma {:induction false} OwnTextsAreKept(key: string -> string, seeds: Seeds, cycle: seq<string>, items: seq<Item>,
                                           ps: seq<Post>, i: nat)
    requires Planned(key, seeds, cycle, items, ps) && i < |ps|
    ensures var own, p, before := items[i], ps[i], ps[..i];
            && (Keeps(key, TOPIC, before, own.topic) ==> p.topic == Strip(own.topic))
            && (Keeps(key, HEADLINE, before, own.headline) ==> p.headline == Strip(own.headline))
            && (Keeps(key, CTA, before, own.cta) ==> p.cta == Strip(own.cta))
            && (Keeps(key, DAY, before, own.day) ==> p.day == Strip(own.day))
            && (Strip(own.format) != "" && (i > 0 ==> key(ps[i - 1].format) != key(Strip(own.format))) ==>
                  p.format == Strip(own.format))
            && (Strip(own.channel) != "" ==> p.channel == Strip(own.channel))
            && (Strip(own.status) != "" ==> p.status == Strip(own.status))
  {
    var own, before := items[i], ps[..i];
    assert ps[..|ps|] == ps;
    PostAt(key, seeds, cycle, items, ps, |ps|, i);
    UsedExactly(key, before, Strip(own.topic));
    UsedExactly(key, before, Strip(own.headline));
    UsedExactly(key, before, Strip(own.cta));
    UsedExactly(key, before, Strip(own.day));
    if Keeps(key, CTA, before, own.cta) {
      OwnCta(key, before, own.cta, cycle);
    }
  }

  // ---- blanks ----

  /** What a blank is filled with, before anything is repaired. */
  function FilledTopic(seeds: Seeds, i: nat): (t: string) {
    if seeds.topics == [] then "Update " + Digits(i + 1) else seeds.topics[i % |seeds.topics|]
  }

  function FilledChannel(seeds: Seeds, i: nat): (c: string)
    requires seeds.channels != []
  {
    var c := seeds.channels[i % |seeds.channels|];
    if c == "" then "Instagram" else c
  }

  lemma {:induction false} BlankCta(key: string -> string, before: seq<Post>, own: string, cycle: seq<string>)
    requires cycle != [] && Strip(own) == "" && Fresh(key, CTA, before, cycle[|before| % |cycle|])
    ensures CtaBase(key, UsedBy(key, before).ctas, LastCta(before), own, cycle, |before|) ==
            cycle[|before| % |cycle|]
  {
    UsedExactly(key, before, cycle[|before| % |cycle|]);
  }

  /** The fields of a post that are filled by its position alone. */
  ghost predicate PlainBlanks(seeds: Seeds, own: Item, i: nat, p: Post)
    requires HasChannel(seeds, own)
  {
    && p.id == "local-" + Digits(i + 1)
    && (Strip(own.day) == "" ==> p.day == WEEKDAYS[i % 7])
    && (Strip(own.format) == "" ==> p.format == FORMATS[i % 7])
    && (Strip(own.status) == "" ==> p.status == "drafted")
    && (Strip(own.channel) == "" ==> p.channel == FilledChannel(seeds, i))
  }

  /** Those that are filled by position if no earlier post reads like them, or because one does. */
  ghost predicate FreshBlanks(key: string -> string, seeds: Seeds, cycle: seq<string>, before: seq<Post>, own: Item,
                              p: Post)
    requires cycle != []
  {
    var i := |before|;
    && (Strip(own.topic) == "" && Fresh(key, TOPIC, before, FilledTopic(seeds, i)) ==> p.topic == FilledTopic(seeds, i))
    && (Strip(own.cta) == "" && Fresh(key, CTA, before, cycle[i % |cycle|]) ==> p.cta == cycle[i % |cycle|])
    && (Strip(own.headline) == "" && Fresh(key, HEADLINE, before, Template(i, p.topic)) ==>
          p.headline == Template(i, p.topic))
    && (before != [] && key(before[i - 1].format) == key(Strip(own.format)) ==> p.format == FORMATS[i % 7])
    && (!Fresh(key, DAY, before, Strip(own.day)) ==> p.day == WEEKDAYS[i % 7])
  }

  lemma {:induction false} PostFillsPlain(key: string -> string, seeds: Seeds, cycle: seq<string>, before: seq<Post>,
                                          own: Item, p: Post)
    requires cycle != [] && HasChannel(seeds, own) && PostIs(key, seeds, cycle, before, own, p)
    ensures PlainBlanks(seeds, own, |before|, p)
  {
  }

  lemma {:induction false} PostFillsCta(key: string -> string, seeds: Seeds, cycle: seq<string>, before: seq<Post>,
                                        own: Item, p: Post)
    requires cycle != [] && HasChannel(seeds, own) && PostIs(key, seeds, cycle, before, own, p)
    ensures Strip(own.cta) == "" && Fresh(key, CTA, before, cycle[|before| % |cycle|]) ==>
              p.cta == cycle[|before| % |cycle|]
  {
    if Strip(own.cta) == "" && Fresh(key, CTA, before, cycle[|before| % |cycle|]) {
      UsedExactly(key, before, cycle[|before| % |cycle|]);
      BlankCta(key, before, own.cta, cycle);
    }
  }

  lemma {:induction false} PostFillsFresh(key: string -> string, seeds: Seeds, cycle: seq<string>, before: seq<Post>,
                                          own: Item, p: Post)
    requires cycle != [] && HasChannel(seeds, own) && PostIs(key, seeds, cycle, before, own, p)
    ensures FreshBlanks(key, seeds, cycle, before, own, p)
  {
    var i := |before|;
    UsedExactly(key, before, FilledTopic(seeds, i));
    UsedExactly(key, before, Template(i, p.topic));
    UsedExactly(key, before, Strip(own.day));
    PostFillsCta(key, seeds, cycle, before, own, p);
    FirstTry(key, UsedBy(key, before).headlines, HeadlineTries(Template(i, p.topic)), p.headline);
  }

  /** Blanks are filled by position: the day of the week, the format, the seed topic and channel, the call to action
      from the cycle and the headline from its template, the last three if no earlier post reads like them. */
  lemma {:induction false} BlanksAreFilled(key: string -> string, seeds: Seeds, cycle: seq<string>, items: seq<Item>,
                                           ps: seq<Post>, i: nat)
    requires Planned(key, seeds, cycle, items, ps) && i < |ps|
    ensures PlainBlanks(seeds, items[i], i, ps[i]) && FreshBlanks(key, seeds, cycle, ps[..i], items[i], ps[i])
  {
    assert ps[..|ps|] == ps;
    PostAt(key, seeds, cycle, items, ps, |ps|, i);
    PostFillsPlain(key, seeds, cycle, ps[..i], items[i], ps[i]);
    PostFillsFresh(key, seeds, cycle, ps[..i], items[i], ps[i]);
  }

  /** If the first text to try is free, it is taken. */
  lemma {:induction false} FirstTry(key: string -> string, used: set<string>, tries: nat -> string, s: string)
    ensures key(tries(1)) !in used && FirstFree(key, used, tries, s) ==> s == tries(1)
  {
    if key(tries(1)) !in used && FirstFree(key, used, tries, s) {
      var b: nat :| b >= 1 && s == tries(b) && FreeAt(key, used, tries, b);
      assert b == 1;
    }
  }

  // ---- repairs ----

  /** The texts that the repair loops try: the plain variation first, then numbered ones from 2 on; headlines collect
      their numbers. */
  lemma {:induction false} TriesAre(seed: string, angle: string, base: string, day: string, b: nat)
    requires b >= 1
    ensures TopicTries(seed, angle)(1) == seed + ": " + angle
    ensures b >= 2 ==> TopicTries(seed, angle)(b) == seed + ": " + angle + " " + Digits(b)
    ensures CtaTries(base, day)(1) == base + " (" + day + ")"
    ensures b >= 2 ==> CtaTries(base, day)(b) == base + " (" + day + " " + Digits(b) + ")"
    ensures HeadlineTries(base)(1) == base
    ensures b >= 2 ==> HeadlineTries(base)(b) == HeadlineTries(base)(b - 1) + " (" + Digits(b) + ")"
  {
  }

  /** Entry `k` places on in the cycle is the first free one behind the post's own place. */
  ghost predicate FirstBehind(key: string -> string, before: seq<Post>, cycle: seq<string>, k: nat)
    requires cycle != []
  {
    && 1 <= k <= |cycle| && Fresh(key, CTA, before, Around(cycle, |before|, k))
    && forall h :: 1 <= h < k ==> !Fresh(key, CTA, before, Around(cycle, |before|, h))
  }

  lemma {:induction false} AroundFinds(key: string -> string, before: seq<Post>, cycle: seq<string>, offset: nat,
                                       k: nat, fallback: string)
    requires cycle != [] && 1 <= offset <= k && FirstBehind(key, before, cycle, k)
    requires key(fallback) in UsedBy(key, before).ctas
    ensures CtaAround(key, UsedBy(key, before).ctas, cycle, |before|, offset, fallback) == Around(cycle, |before|, k)
    decreases k - offset
  {
    UsedExactly(key, before, Around(cycle, |before|, offset));
    if offset < k {
      AroundFinds(key, before, cycle, offset + 1, k, fallback);
    }
  }

  lemma {:induction false} PostMovesOn(key: string -> string, seeds: Seeds, cycle: seq<string>, before: seq<Post>,
                                       own: Item, p: Post, k: nat)
    requires |cycle| > 1 && HasChannel(seeds, own) && PostIs(key, seeds, cycle, before, own, p)
    requires !Fresh(key, CTA, before, CtaFirst(key, LastCta(before), own.cta, cycle, |before|))
    requires FirstBehind(key, before, cycle, k)
    ensures p.cta == cycle[(|before| + k) % |cycle|]
  {
    var first := CtaFirst(key, LastCta(before), own.cta, cycle, |before|);
    UsedExactly(key, before, first);
    AroundFinds(key, before, cycle, 1, k, first);
    UsedExactly(key, before, Around(cycle, |before|, k));
  }

  /** A call to action that is taken is replaced by the next free entry of the cycle. */
  lemma {:induction false} TakenCtaMovesOn(key: string -> string, seeds: Seeds, cycle: seq<string>, items: seq<Item>,
                                           ps: seq<Post>, before: seq<Post>, k: nat)
    requires Planned(key, seeds, cycle, items, ps) && |cycle| > 1 && |before| < |ps| && before == ps[..|before|]
    requires !Fresh(key, CTA, before, CtaFirst(key, LastCta(before), items[|before|].cta, cycle, |before|))
    requires FirstBehind(key, before, cycle, k)
    ensures ps[|before|].cta == cycle[(|before| + k) % |cycle|]
  {
    assert ps[..|ps|] == ps;
    PostAt(key, seeds, cycle, items, ps, |ps|, |before|);
    PostMovesOn(key, seeds, cycle, before, items[|before|], ps[|before|], k);
  }

  /** With a cycle of one entry, a call to action that is taken becomes the first free numbered default. */
  lemma {:induction false} LoneCtaIsNumbered(key: string -> string, seeds: Seeds, cycle: seq<string>,
                                             before: seq<Post>, own: Item, p: Post)
    requires |cycle| == 1 && HasChannel(seeds, own) && PostIs(key, seeds, cycle, before, own, p)
    requires !Fresh(key, CTA, before, CtaFirst(key, LastCta(before), own.cta, cycle, |before|))
    ensures FirstFree(key, UsedBy(key, before).ctas,
                      CtaTries(if seeds.cta == "" then "Learn more" else seeds.cta, WEEKDAYS[|before| % 7]), p.cta)
  {
    UsedExactly(key, before, CtaFirst(key, LastCta(before), own.cta, cycle, |before|));
  }

  /** The first choice is the item's own call to action, unless it is blank or reads like the one of the post before. */
  lemma {:induction false} FirstChoice(key: string -> string, before: seq<Post>, own: string, cycle: seq<string>)
    requires cycle != []
    ensures var first := CtaFirst(key, LastCta(before), own, cycle, |before|);
            if Strip(own) != "" && (before != [] ==> key(before[|before| - 1].cta) != key(Strip(own)))
            then first == Strip(own)
            else first == cycle[|before| % |cycle|]
  {
  }

  // ---- the cycle ----

  /** The cycle holds, once each, the texts that the candidates can read as, blank ones left out; the default comes
      first unless it is blank. */
  lemma {:induction false} CycleMeans(key: string -> string, candidates: seq<string>, k: string)
    ensures k in Keys(key, Cycle(key, candidates)) <==> k != "" && k in Keys(key, candidates)
    ensures forall i, j :: 0 <= i < j < |Cycle(key, candidates)| ==>
                             key(Cycle(key, candidates)[i]) != key(Cycle(key, candidates)[j])
    ensures candidates != [] && key(candidates[0]) != "" ==>
              Cycle(key, candidates) != [] && Cycle(key, candidates)[0] == candidates[0]
  {
    if candidates != [] {
      var front, c := candidates[..|candidates| - 1], candidates[|candidates| - 1];
      CycleMeans(key, front, k);
      CycleMeans(key, front, key(c));
      assert candidates == front + [c];
      KeysSnoc(key, front, c);
      KeysSnoc(key, Cycle(key, front), c);
      assert forall i :: 0 <= i < |Cycle(key, front)| ==> key(Cycle(key, front)[i]) in Keys(key, Cycle(key, front));
    }
  }

  // ---- what was written ----

  lemma {:induction false} DayIsTrimmed(n: nat)
    ensures IsPlain("Day " + Digits(n))
  {
    var s := "Day " + Digits(n);
    DigitsAreAWord(n);
    assert s[|s| - 1] == Digits(n)[|Digits(n)| - 1];
  }

  /** A text that is not blank and has no white space around it. */
  predicate IsPlain(s: string) {
    s != "" && Trimmed(IsSpace, s)
  }

  /** Without a record every seed topic becomes an item, with the channels in turn. */
  lemma {:induction false} SeedsBecomeItems(seeds: Seeds, listed: seq<Option<Item>>)
    requires seeds.topics != [] && seeds.channels != [] && forall i :: 0 <= i < |listed| ==> listed[i].None?
    ensures var items := PlanItems(seeds, listed);
            && |items| == |seeds.topics|
            && forall i :: 0 <= i < |items| ==>
                 && items[i].topic == seeds.topics[i] && items[i].headline == seeds.topics[i] + " in one minute"
                 && items[i].channel == seeds.channels[i % |seeds.channels|] && items[i].cta == seeds.cta
                 && items[i].day == "Day " + Digits(i + 1)
                 && items[i].format == "Post" && items[i].status == "drafted"
  {
  }

  /** The text that was written, stripped, or if that is blank the default. */
  ghost predicate Filled(value: string, default': string, text: string) {
    (Strip(value) != "" ==> text == Strip(value)) && (Strip(value) == "" && IsPlain(default') ==> text == default')
  }

  /** A record that was written keeps its texts, stripped, and its blanks are filled in: the day, topic and channel by
      its position, the headline from its topic. */
  lemma {:induction false} RecordIsFilled(seeds: Seeds, raw: Item, idx: nat)
    requires seeds.topics != [] && seeds.channels != []
    ensures var item := NormalItem(seeds, raw, idx);
            && Filled(raw.day, "Day " + Digits(idx + 1), item.day) && IsPlain("Day " + Digits(idx + 1))
            && Filled(raw.topic, seeds.topics[idx % |seeds.topics|], item.topic)
            && Filled(raw.channel, seeds.channels[idx % |seeds.channels|], item.channel)
            && Filled(raw.format, "Post", item.format) && Filled(raw.status, "drafted", item.status)
            && Filled(raw.headline, item.topic + " in one minute", item.headline)
            && Filled(raw.cta, seeds.cta, item.cta)
  {
    DayIsTrimmed(idx + 1);
    FilledOr(raw.day, "Day " + Digits(idx + 1));
    FilledOr(raw.topic, seeds.topics[idx % |seeds.topics|]);
    FilledOr(raw.channel, seeds.channels[idx % |seeds.channels|]);
    FilledOr(raw.format, "Post");
    FilledOr(raw.headline, StripOr(raw.topic, seeds.topics[idx % |seeds.topics|]) + " in one minute");
    FilledOr(raw.cta, seeds.cta);
    FilledOr(raw.status, "drafted");
  }

  lemma {:induction false} FilledOr(value: string, default': string)
    ensures Filled(value, default', StripOr(value, default'))
  {
    TrimIsTrimmed(IsSpace, "");
    TrimIsTrimmed(IsSpace, default');
  }
}
