/** The days of a content plan (scripts/orion_local_worker_content.py). Unlike topics, headlines and calls to action
    they are not repaired until they differ: an item that cannot have its own day gets the weekday of its position,
    taken or not. Which days a plan has depends on the items alone, and so does whether they differ. */
module ContentDays {
  import opened ContentPlan
  import opened Text

  /** Item `i` asks for the day with key `k`. */
  predicate Asks(key: string -> string, items: seq<Item>, i: nat, k: string)
    requires i < |items|
  {
    Strip(items[i].day) != "" && key(Strip(items[i].day)) == k
  }

  /** Some item before `i` has the day with key `k`: it asks for it, or falls back to it as its weekday. */
  ghost predicate Taken(key: string -> string, items: seq<Item>, i: nat, k: string)
    requires i <= |items|
    decreases i, 0
  {
    i > 0 && (Taken(key, items, i - 1, k) || Has(key, items, i - 1, k))
  }

  ghost predicate Has(key: string -> string, items: seq<Item>, j: nat, k: string)
    requires j < |items|
    decreases j, 2
  {
    Asks(key, items, j, k) || (key(WEEKDAYS[j % 7]) == k && FallsBack(key, items, j))
  }

  /** Item `i` cannot have its own day: it names none, or one that is taken. */
  ghost predicate FallsBack(key: string -> string, items: seq<Item>, i: nat)
    requires i < |items|
    decreases i, 1
  {
    Strip(items[i].day) == "" || Taken(key, items, i, key(Strip(items[i].day)))
  }

  /** Item `i` falls back to a weekday that is taken. */
  ghost predicate Stuck(key: string -> string, items: seq<Item>, i: nat)
    requires i < |items|
  {
    FallsBack(key, items, i) && Taken(key, items, i, key(WEEKDAYS[i % 7]))
  }

  ghost predicate DaysDiffer(key: string -> string, ps: seq<Post>) {
    forall i, j :: 0 <= i < j < |ps| ==> key(ps[i].day) != key(ps[j].day)
  }

  // ---- the days of a plan ----

  /** The day that item `n` gets when the days before it are as the items say: it is new, or the item is stuck; and it
      adds exactly its own key. */
  lemma {:induction false} ChoiceIsTaken(key: string -> string, items: seq<Item>, n: nat, used: set<string>)
    requires n < |items| && forall k :: k in used <==> Taken(key, items, n, k)
    ensures var day := DayChoice(key, used, items[n].day, n);
            && (key(day) in used <==> Stuck(key, items, n))
            && (forall k :: k in used + {key(day)} <==> Taken(key, items, n + 1, k))
  {
    var day := DayChoice(key, used, items[n].day, n);
    forall k ensures k in used + {key(day)} <==> Taken(key, items, n + 1, k) {
      assert Taken(key, items, n + 1, k) <==> Taken(key, items, n, k) || Has(key, items, n, k);
    }
  }

  /** The posts of a plan have the days that the items say. */
  lemma {:induction false} DaysAreTaken(key: string -> string, seeds: Seeds, cycle: seq<string>, items: seq<Item>,
                                        ps: seq<Post>)
    requires cycle != [] && |ps| <= |items| && forall i :: 0 <= i < |ps| ==> HasChannel(seeds, items[i])
    requires PlanIs(key, seeds, cycle, items, ps)
    ensures forall k :: k in UsedBy(key, ps).days <==> Taken(key, items, |ps|, k)
  {
    if ps != [] {
      var front := ps[..|ps| - 1];
      DaysAreTaken(key, seeds, cycle, items, front);
      ChoiceIsTaken(key, items, |front|, UsedBy(key, front).days);
      LastDay(key, seeds, cycle, items, ps);
    }
  }

  lemma {:induction false} LastDay(key: string -> string, seeds: Seeds, cycle: seq<string>, items: seq<Item>,
                                   ps: seq<Post>)
    requires cycle != [] && 0 < |ps| <= |items| && forall i :: 0 <= i < |ps| ==> HasChannel(seeds, items[i])
    requires PlanIs(key, seeds, cycle, items, ps)
    ensures var n := |ps| - 1;
            && ps[n].day == DayChoice(key, UsedBy(key, ps[..n]).days, items[n].day, n)
            && UsedBy(key, ps).days == UsedBy(key, ps[..n]).days + {key(ps[n].day)}
  {
  }

  lemma {:induction false} DaysUsed(key: string -> string, ps: seq<Post>, k: string)
    ensures k in UsedBy(key, ps).days <==> exists i :: 0 <= i < |ps| && key(ps[i].day) == k
  {
    if ps != [] {
      var n := |ps| - 1;
      DaysUsed(key, ps[..n], k);
      if k in UsedBy(key, ps[..n]).days {
        var i :| 0 <= i < n && key(ps[..n][i].day) == k;
        assert key(ps[i].day) == k;
      }
      if i :| 0 <= i < |ps| && key(ps[i].day) == k {
        assert i < n ==> key(ps[..n][i].day) == k;
      }
    }
  }

  lemma {:induction false} DaysSnoc(key: string -> string, ps: seq<Post>)
    requires ps != []
    ensures var n := |ps| - 1;
            DaysDiffer(key, ps) <==> DaysDiffer(key, ps[..n]) && key(ps[n].day) !in UsedBy(key, ps[..n]).days
  {
    var n := |ps| - 1;
    DaysUsed(key, ps[..n], key(ps[n].day));
    if DaysDiffer(key, ps) {
      forall i | 0 <= i < n ensures key(ps[..n][i].day) != key(ps[n].day) {
        assert ps[..n][i] == ps[i];
      }
    }
    if DaysDiffer(key, ps[..n]) && key(ps[n].day) !in UsedBy(key, ps[..n]).days {
      forall i, j | 0 <= i < j < |ps| ensures key(ps[i].day) != key(ps[j].day) {
        assert ps[..n][i] == ps[i];
        assert j < n ==> ps[..n][j] == ps[j];
      }
    }
  }

  /** The last post repeats a day if and only if its item is stuck. */
  lemma {:induction false} LastDayRepeats(key: string -> string, seeds: Seeds, cycle: seq<string>, items: seq<Item>,
                                          ps: seq<Post>)
    requires cycle != [] && 0 < |ps| <= |items| && forall i :: 0 <= i < |ps| ==> HasChannel(seeds, items[i])
    requires PlanIs(key, seeds, cycle, items, ps)
    ensures var n := |ps| - 1; key(ps[n].day) in UsedBy(key, ps[..n]).days <==> Stuck(key, items, n)
  {
    var n := |ps| - 1;
    DaysAreTaken(key, seeds, cycle, items, ps[..n]);
    ChoiceIsTaken(key, items, n, UsedBy(key, ps[..n]).days);
    LastDay(key, seeds, cycle, items, ps);
  }

  ghost predicate NoneStuck(key: string -> string, items: seq<Item>, n: nat)
    requires n <= |items|
  {
    forall i :: 0 <= i < n ==> !Stuck(key, items, i)
  }

  /** The days of a plan all read differently if and only if none of its items is stuck. */
  lemma {:induction false} DaysDifferExactly(key: string -> string, seeds: Seeds, cycle: seq<string>, items: seq<Item>,
                                             ps: seq<Post>)
    requires cycle != [] && |ps| <= |items| && forall i :: 0 <= i < |ps| ==> HasChannel(seeds, items[i])
    requires PlanIs(key, seeds, cycle, items, ps)
    ensures DaysDiffer(key, ps) <==> NoneStuck(key, items, |ps|)
  {
    if ps != [] {
      var n := |ps| - 1;
      DaysDifferExactly(key, seeds, cycle, items, ps[..n]);
      LastDayRepeats(key, seeds, cycle, items, ps);
      DaysSnoc(key, ps);
      NoneStuckOneMore(key, items, n);
    }
  }

  lemma {:induction false} NoneStuckOneMore(key: string -> string, items: seq<Item>, n: nat)
    requires n < |items|
    ensures NoneStuck(key, items, n + 1) <==> NoneStuck(key, items, n) && !Stuck(key, items, n)
  {
  }

  // ---- the weekdays ----

  /** The key of a single word is the word in lower case. */
  lemma {:induction false} KeyOfWord(w: string)
    requires w != "" && forall i :: 0 <= i < |w| ==> !IsSpace(w[i])
    ensures Key(w) == Lower(w)
  {
    var d := Lower(w);
    assert forall i :: 0 <= i < |d| ==> !IsSpace(d[i]);
    KeyOfUnstripped(w);
    assert [' '] + d == "" + [' '] + d;
    LastWord(IsSpace, "", ' ', d);
    LeadingSpaceIsNoWord(IsSpace, ' ', d);
  }

  const INITIALS := "mtwtfss"
  const LENGTHS := [6, 7, 9, 8, 6, 8, 6]

  lemma {:induction false} WeekdayIsAWord(i: nat)
    requires i < 7
    ensures |Key(WEEKDAYS[i])| == LENGTHS[i] && Key(WEEKDAYS[i])[0] == INITIALS[i]
  {
    assert forall k :: 0 <= k < |WEEKDAYS[i]| ==> WEEKDAYS[i][k] >= 'A';
    KeyOfWord(WEEKDAYS[i]);
  }

  /** The weekdays differ in their first letter or in length. */
  lemma {:induction false} WeekdaysDiffer(i: nat, j: nat)
    requires i < j < 7
    ensures Key(WEEKDAYS[i]) != Key(WEEKDAYS[j])
  {
    assert INITIALS[i] != INITIALS[j] || LENGTHS[i] != LENGTHS[j];
    WeekdayIsAWord(i);
    WeekdayIsAWord(j);
  }

  ghost predicate DistinctWeekdays(key: string -> string) {
    forall i, j :: 0 <= i < j < 7 ==> key(WEEKDAYS[i]) != key(WEEKDAYS[j])
  }

  lemma {:induction false} WeekdayKeysAreDistinct()
    ensures DistinctWeekdays(Key)
  {
    forall i, j | 0 <= i < j < 7 ensures Key(WEEKDAYS[i]) != Key(WEEKDAYS[j]) {
      WeekdaysDiffer(i, j);
    }
  }

  /** Some item before `n` asks for the day with key `k`. */
  ghost predicate Asked(key: string -> string, items: seq<Item>, n: nat, k: string)
    requires n <= |items|
  {
    exists j :: 0 <= j < n && Asks(key, items, j, k)
  }

  lemma {:induction false} AskedOneMore(key: string -> string, items: seq<Item>, n: nat, k: string)
    requires n < |items|
    ensures Asked(key, items, n + 1, k) <==> Asked(key, items, n, k) || Asks(key, items, n, k)
  {
    if Asked(key, items, n, k) {
      var j :| 0 <= j < n && Asks(key, items, j, k);
      assert j < n + 1;
    }
    if j :| 0 <= j < n + 1 && Asks(key, items, j, k) {
      assert j < n ==> Asked(key, items, n, k);
    }
  }

  /** Up to its own position a weekday is taken if and only if an earlier item asks for it by name. */
  lemma {:induction false} WeekdayTakenExactly(key: string -> string, items: seq<Item>, n: nat, i: nat)
    requires DistinctWeekdays(key) && n <= i < 7 && n <= |items|
    ensures Taken(key, items, n, key(WEEKDAYS[i])) <==> Asked(key, items, n, key(WEEKDAYS[i]))
  {
    if n > 0 {
      WeekdayTakenExactly(key, items, n - 1, i);
      AskedOneMore(key, items, n - 1, key(WEEKDAYS[i]));
      assert key(WEEKDAYS[n - 1]) != key(WEEKDAYS[i]);
    }
  }

  /** The closed form, for the planner's own plans of at most seven posts: days repeat if and only if some item that has
      to fall back finds its weekday asked for by an earlier item. */
  lemma {:induction false} PlannedDaysDifferExactly(seeds: Seeds, cycle: seq<string>, items: seq<Item>, ps: seq<Post>)
    requires cycle != [] && |ps| <= |items| && |ps| <= 7
    requires forall i :: 0 <= i < |ps| ==> HasChannel(seeds, items[i])
    requires PlanIs(Key, seeds, cycle, items, ps)
    ensures DaysDiffer(Key, ps) <==>
            forall i :: 0 <= i < |ps| ==> !(FallsBack(Key, items, i) && Asked(Key, items, i, Key(WEEKDAYS[i])))
  {
    DaysDifferExactly(Key, seeds, cycle, items, ps);
    WeekdayKeysAreDistinct();
    StuckExactly(Key, items, |ps|);
  }

  lemma {:induction false} StuckExactly(key: string -> string, items: seq<Item>, n: nat)
    requires DistinctWeekdays(key) && n <= |items| && n <= 7
    ensures NoneStuck(key, items, n) <==>
            forall i :: 0 <= i < n ==> !(FallsBack(key, items, i) && Asked(key, items, i, key(WEEKDAYS[i])))
  {
    forall i | 0 <= i < n
      ensures Stuck(key, items, i) <==> FallsBack(key, items, i) && Asked(key, items, i, key(WEEKDAYS[i]))
    {
      WeekdayTakenExactly(key, items, i, i);
    }
  }

  // ---- a plan whose days repeat ----

  const TUESDAY := Item("Tuesday", "Blog", "", "", "", "", "")

  lemma {:induction false} TuesdayIsStuck(key: string -> string)
    ensures Stuck(key, [TUESDAY, TUESDAY], 1)
  {
    var items := [TUESDAY, TUESDAY];
    TrimIsTrimmed(IsSpace, "Tuesday");
    assert Asks(key, items, 0, key("Tuesday"));
    assert Taken(key, items, 1, key("Tuesday"));
  }

  /** Two items that ask for Tuesday: the planner gives both of them Tuesday. */
  method TuesdayTwice(seeds: Seeds) returns (ps: seq<Post>)
    ensures |ps| == 2 && CtaCycle(seeds.cta) != [] && HasChannel(seeds, TUESDAY)
    ensures PlanIs(Key, seeds, CtaCycle(seeds.cta), [TUESDAY, TUESDAY], ps)
    ensures !DaysDiffer(Key, ps)
  {
    TrimIsTrimmed(IsSpace, "Blog");
    ps := ApplyContentPlanVariation([TUESDAY, TUESDAY], seeds);
    DaysDifferExactly(Key, seeds, CtaCycle(seeds.cta), [TUESDAY, TUESDAY], ps);
    TuesdayIsStuck(Key);
  }
}
