/** Splitting a channel's setup fields into the ones a customer must fill in and the advanced ones
    (scripts/generate_openclaw_channel_manifest.py): the loop collects runs of form fields in declaration order; what it
    means is stated without runs, between two fields at a time. */
module FieldRuns {
  import opened Text

  /** What a form can make of a schema node: a secret reference, a scalar, or nothing. */
  datatype Leaf = Secret | Str | Number | Boolean | Composite

  /** `knob` says that the node has a default, an enum or a const. */
  datatype Node = Node(leaf: Leaf, knob: bool)

  /** A channel's properties in declaration order. */
  datatype Schema = Schema(names: seq<string>, nodes: map<string, Node>) {
    ghost predicate Valid() {
      && (forall i, j :: 0 <= i < j < |names| ==> names[i] != names[j])
      && (forall i :: 0 <= i < |names| ==> names[i] in nodes)
    }
  }

  datatype Field = Field(name: string, secret: bool, fileAlternative: Option<string>, advanced: bool)

  const POLICY_SURFACE: set<string> := {
    "dmPolicy", "groupPolicy", "requireMention", "groups", "teams", "rooms", "guilds", "channels", "dms", "dm",
    "allowFrom", "groupAllowFrom", "groupSenderAllowFrom", "autoJoinAllowlist", "allowlistOnly", "configWrites",
    "pluginHooks", "tools", "enabled", "threadBindings", "mentionPatterns", "mentionAliases", "execApprovals"
  }

  const GENERIC_NAME_LIMIT := 5

  predicate EndsWith(s: string, suffix: string) {
    |suffix| <= |s| && s[|s| - |suffix|..] == suffix
  }

  /** The pattern's `$` also matches before a final line feed. */
  predicate IsPath(name: string) {
    var s := if EndsWith(name, "\n") then name[..|name| - 1] else name;
    EndsWith(s, "File") || EndsWith(s, "Path") || EndsWith(s, "Dir") || EndsWith(s, "Roots")
  }

  /** The form fields: secrets, and plain strings that are neither knobs nor named like everybody else's. */
  predicate IsCandidate(node: Node, name: string, frequency: map<string, nat>) {
    && name !in POLICY_SURFACE && !IsPath(name)
    && (node.leaf.Secret? || (node.leaf.Str? && !node.knob &&
                              (name in frequency ==> frequency[name] <= GENERIC_NAME_LIMIT)))
  }

  /** `file` is the file variant of `name`: `<stem>File`, where the stem ends the name, case aside. */
  predicate IsVariant(file: string, name: string) {
    EndsWith(file, "File") && |file| > 4 && EndsWith(Lower(name), Lower(file[..|file| - 4]))
  }

  predicate HasFileVariant(names: seq<string>, name: string) {
    exists i :: 0 <= i < |names| && IsVariant(names[i], name)
  }

  /** One channel's split: the schema, the form fields, the mode-gated secrets and the policy fields. */
  datatype Split = Split(schema: Schema, candidates: set<string>, gated: set<string>, policy: set<string>) {
    ghost predicate Valid() {
      schema.Valid()
    }

    predicate Credential(name: string)
      requires name in schema.nodes
    {
      && name !in gated
      && (schema.nodes[name].leaf.Secret? || (schema.nodes[name].leaf.Str? && HasFileVariant(schema.names, name)))
    }

    predicate Member(name: string) {
      name !in gated && name in candidates
    }

    /** A field that ends a run. */
    predicate Wall(name: string)
      requires name in schema.nodes
    {
      || name in gated
      || (name !in candidates && !IsPath(name) && (name in policy || schema.nodes[name].knob))
    }

    /** No wall strictly between positions `i` and `j`. */
    ghost predicate Open(i: int, j: int)
      requires Valid()
    {
      forall k :: 0 <= k < |schema.names| && i < k < j ==> !Wall(schema.names[k])
    }

    ghost predicate Anchors(j: int, i: int)
      requires Valid()
    {
      && 0 <= j < |schema.names| && Member(schema.names[j]) && Credential(schema.names[j])
      && Open(i, j) && Open(j, i)
    }

    /** The field at `i` must be filled in: some credential of the form stands on the same side of every wall. */
    ghost predicate Primary(i: int)
      requires Valid()
    {
      && 0 <= i < |schema.names| && Member(schema.names[i])
      && exists j :: Anchors(j, i)
    }

    ghost function PrimaryNames(): (r: set<string>)
      requires Valid()
    {
      set i | 0 <= i < |schema.names| && Primary(i) :: schema.names[i]
    }
  }

  // ---- the loop ----

  predicate Anchored(s: Split, run: seq<string>) {
    exists i :: 0 <= i < |run| && run[i] in s.schema.nodes && s.Credential(run[i])
  }

  /** The names in the runs that hold a credential. */
  function Chosen(s: Split, runs: seq<seq<string>>): (r: set<string>) {
    set k, i | 0 <= k < |runs| && Anchored(s, runs[k]) && 0 <= i < |runs[k]| :: runs[k][i]
  }

  lemma {:induction false} ChosenSnoc(s: Split, runs: seq<seq<string>>, run: seq<string>)
    ensures Chosen(s, runs + [run]) == Chosen(s, runs) + (if Anchored(s, run) then set x | x in run else {})
  {
    var all := runs + [run];
    forall x | x in Chosen(s, runs) ensures x in Chosen(s, all) {
      var k, i :| 0 <= k < |runs| && Anchored(s, runs[k]) && 0 <= i < |runs[k]| && x == runs[k][i];
      assert all[k] == runs[k];
    }
    assert all[|runs|] == run;
    forall x | x in Chosen(s, all) ensures x in Chosen(s, runs) || (Anchored(s, run) && x in run) {
      var k, i :| 0 <= k < |all| && Anchored(s, all[k]) && 0 <= i < |all[k]| && x == all[k][i];
      if k < |runs| {
        assert runs[k][i] == x;
      }
    }
  }

  /** The positions from `first` up to `n` hold no wall, and a wall or an end closes them on both sides. */
  ghost predicate Block(s: Split, first: int, n: int)
    requires s.Valid()
  {
    && 0 <= first <= n <= |s.schema.names|
    && (first > 0 ==> s.Wall(s.schema.names[first - 1]))
    && (forall k :: first <= k < n ==> !s.Wall(s.schema.names[k]))
  }

  ghost predicate Closed(s: Split, n: int)
    requires s.Valid()
  {
    0 <= n <= |s.schema.names| && (n < |s.schema.names| ==> s.Wall(s.schema.names[n]))
  }

  /** `current` holds the members of a block. */
  ghost predicate Collects(s: Split, current: seq<string>, first: int, n: int)
    requires s.Valid() && 0 <= first <= n <= |s.schema.names|
  {
    && (forall x :: x in current ==> exists i :: first <= i < n && s.schema.names[i] == x && s.Member(x))
    && (forall i :: first <= i < n && s.Member(s.schema.names[i]) ==> s.schema.names[i] in current)
  }

  /** `chosen` is right on the first `n` positions. */
  ghost predicate RightUpTo(s: Split, chosen: set<string>, n: int)
    requires s.Valid() && 0 <= n <= |s.schema.names|
  {
    && (forall x :: x in chosen ==> exists i :: 0 <= i < n && s.schema.names[i] == x)
    && (forall i :: 0 <= i < n ==> (s.schema.names[i] in chosen <==> s.Primary(i)))
  }

  /** An anchor stands in the same block. */
  lemma {:induction false} AnchorIsNear(s: Split, first: int, n: int, i: int, j: int)
    requires s.Valid() && Block(s, first, n) && Closed(s, n) && first <= i < n && s.Anchors(j, i)
    ensures first <= j < n
  {
    assert first > 0 ==> s.Wall(s.schema.names[first - 1]);
  }

  /** The credential of a run that holds one. */
  lemma {:induction false} RunIsAnchored(s: Split, current: seq<string>, first: int, n: int) returns (j: int)
    requires s.Valid() && Block(s, first, n) && Collects(s, current, first, n) && Anchored(s, current)
    ensures first <= j < n && s.Member(s.schema.names[j]) && s.Credential(s.schema.names[j])
  {
    var k :| 0 <= k < |current| && current[k] in s.schema.nodes && s.Credential(current[k]);
    assert current[k] in current;
    j :| first <= j < n && s.schema.names[j] == current[k] && s.Member(current[k]);
  }

  /** In a closed block every member is primary if one of them is a credential, and none otherwise. */
  lemma {:induction false} BlockDecides(s: Split, current: seq<string>, first: int, n: int, i: int)
    requires s.Valid() && Block(s, first, n) && Closed(s, n) && Collects(s, current, first, n)
    requires first <= i < n && s.Member(s.schema.names[i])
    ensures s.Primary(i) <==> Anchored(s, current)
  {
    if s.Primary(i) {
      var j :| s.Anchors(j, i);
      AnchorIsNear(s, first, n, i, j);
      assert s.schema.names[j] in current;
      var k :| 0 <= k < |current| && current[k] == s.schema.names[j];
    }
    if Anchored(s, current) {
      var j := RunIsAnchored(s, current, first, n);
      assert s.Anchors(j, i);
    }
  }

  /** Closing a run extends what is right by its block. */
  lemma {:induction false} CloseRun(s: Split, runs: seq<seq<string>>, current: seq<string>, first: int, n: int)
    requires s.Valid() && Block(s, first, n) && Closed(s, n) && Collects(s, current, first, n)
    requires RightUpTo(s, Chosen(s, runs), first)
    ensures RightUpTo(s, Chosen(s, runs + [current]), n)
  {
    var names, before, after := s.schema.names, Chosen(s, runs), Chosen(s, runs + [current]);
    ChosenSnoc(s, runs, current);
    forall x | x in after ensures exists i :: 0 <= i < n && names[i] == x {
      if x !in before {
        assert x in current;
      }
    }
    forall i | 0 <= i < n ensures names[i] in after <==> s.Primary(i) {
      if i < first {
        assert names[i] !in current;
      } else {
        assert names[i] !in before;
        if s.Member(names[i]) {
          BlockDecides(s, current, first, n, i);
        } else {
          assert names[i] !in current;
        }
      }
    }
  }

  /** A wall on its own is never chosen. */
  lemma {:induction false} PassWall(s: Split, chosen: set<string>, n: int)
    requires s.Valid() && 0 <= n < |s.schema.names| && s.Wall(s.schema.names[n])
    requires RightUpTo(s, chosen, n)
    ensures RightUpTo(s, chosen, n + 1)
  {
    assert !s.Member(s.schema.names[n]);
  }

  /** An empty run changes nothing. */
  lemma {:induction false} CloseNothing(s: Split, runs: seq<seq<string>>)
    ensures Chosen(s, runs + [[]]) == Chosen(s, runs)
  {
    ChosenSnoc(s, runs, []);
  }

  /** After `n` properties: the closed runs are right, and `current` holds the members since the last wall. */
  ghost predicate Inv(s: Split, runs: seq<seq<string>>, current: seq<string>, first: int, n: int)
    requires s.Valid()
  {
    Block(s, first, n) && Collects(s, current, first, n) && RightUpTo(s, Chosen(s, runs), first)
  }

  lemma {:induction false} MemberIsCollected(s: Split, current: seq<string>, first: int, n: int)
    requires s.Valid() && 0 <= first <= n < |s.schema.names| && Collects(s, current, first, n)
    requires s.Member(s.schema.names[n])
    ensures Collects(s, current + [s.schema.names[n]], first, n + 1)
  {
    var name := s.schema.names[n];
    forall x | x in current + [name] ensures exists i :: first <= i < n + 1 && s.schema.names[i] == x && s.Member(x) {
      if x == name {
        assert s.schema.names[n] == x;
      } else {
        var i :| first <= i < n && s.schema.names[i] == x && s.Member(x);
      }
    }
  }

  lemma {:induction false} MemberKeepsInv(s: Split, runs: seq<seq<string>>, current: seq<string>, first: int, n: int)
    requires s.Valid() && Inv(s, runs, current, first, n) && n < |s.schema.names| && s.Member(s.schema.names[n])
    ensures Inv(s, runs, current + [s.schema.names[n]], first, n + 1)
  {
    MemberIsCollected(s, current, first, n);
  }

  lemma {:induction false} WallKeepsInv(s: Split, runs: seq<seq<string>>, current: seq<string>, first: int, n: int)
    requires s.Valid() && Inv(s, runs, current, first, n) && n < |s.schema.names| && s.Wall(s.schema.names[n])
    ensures Inv(s, Close(runs, current), [], n + 1, n + 1)
  {
    CloseRun(s, runs, current, first, n);
    CloseNothing(s, runs);
    PassWall(s, Chosen(s, Close(runs, current)), n);
  }

  lemma {:induction false} OtherIsNotCollected(s: Split, current: seq<string>, first: int, n: int)
    requires s.Valid() && 0 <= first <= n < |s.schema.names| && Collects(s, current, first, n)
    requires !s.Member(s.schema.names[n])
    ensures Collects(s, current, first, n + 1)
  {
    forall x | x in current ensures exists i :: first <= i < n + 1 && s.schema.names[i] == x && s.Member(x) {
      var i :| first <= i < n && s.schema.names[i] == x && s.Member(x);
    }
  }

  lemma {:induction false} OtherKeepsInv(s: Split, runs: seq<seq<string>>, current: seq<string>, first: int, n: int)
    requires s.Valid() && Inv(s, runs, current, first, n) && n < |s.schema.names|
    requires !s.Wall(s.schema.names[n]) && !s.Member(s.schema.names[n])
    ensures Inv(s, runs, current, first, n + 1)
  {
    OtherIsNotCollected(s, current, first, n);
  }

  lemma {:induction false} EndIsRight(s: Split, runs: seq<seq<string>>, current: seq<string>, first: int)
    requires s.Valid() && Inv(s, runs, current, first, |s.schema.names|)
    ensures Chosen(s, Close(runs, current)) == s.PrimaryNames()
  {
    CloseRun(s, runs, current, first, |s.schema.names|);
    CloseNothing(s, runs);
  }

  function Close(runs: seq<seq<string>>, current: seq<string>): (r: seq<seq<string>>) {
    if current == [] then runs else runs + [current]
  }

  /** One turn of the loop. */
  method NextField(s: Split, runs: seq<seq<string>>, current: seq<string>, ghost first: int, n: nat)
      returns (runs': seq<seq<string>>, current': seq<string>, ghost first': int)
    requires s.Valid() && Inv(s, runs, current, first, n) && n < |s.schema.names|
    ensures Inv(s, runs', current', first', n + 1)
  {
    var name := s.schema.names[n];
    if name in s.gated {
      WallKeepsInv(s, runs, current, first, n);
      return Close(runs, current), [], n + 1;
    }
    if name in s.candidates {
      MemberKeepsInv(s, runs, current, first, n);
      return runs, current + [name], first;
    }
    if !IsPath(name) && (name in s.policy || s.schema.nodes[name].knob) {
      WallKeepsInv(s, runs, current, first, n);
      return Close(runs, current), [], n + 1;
    }
    OtherKeepsInv(s, runs, current, first, n);
    return runs, current, first;
  }

  lemma {:induction false} StartIsRight(s: Split)
    requires s.Valid()
    ensures Inv(s, [], [], 0, 0)
  {
  }

  /** The loop finds exactly the primary fields. */
  method SplitPrimaryAndAdvanced(s: Split) returns (primary: set<string>)
    requires s.Valid()
    ensures primary == s.PrimaryNames()
  {
    var runs: seq<seq<string>>, current: seq<string>, n := [], [], 0;
    ghost var first := 0;
    StartIsRight(s);
    while n < |s.schema.names|
      invariant 0 <= n <= |s.schema.names| && Inv(s, runs, current, first, n)
    {
      runs, current, first := NextField(s, runs, current, first, n);
      n := n + 1;
    }
    EndIsRight(s, runs, current, first);
    primary := Chosen(s, Close(runs, current));
  }

  // ---- the form ----

  /** The sort key: required fields first, secrets first among them, then by name. */
  predicate Before(f: Field, g: Field) {
    if f.advanced != g.advanced then g.advanced
    else if f.secret != g.secret then f.secret
    else Less(f.name, g.name)
  }

  lemma {:induction false} BeforeIsTransitive(f: Field, g: Field, h: Field)
    requires Before(f, g) && Before(g, h)
    ensures Before(f, h)
  {
    if f.advanced == h.advanced && f.secret == h.secret {
      LessIsTransitive(f.name, g.name, h.name);
    }
  }

  ghost predicate Sorted(fs: seq<Field>) {
    forall i, j :: 0 <= i < j < |fs| ==> Before(fs[i], fs[j])
  }

  /** `f` at its place in a sorted list. */
  function Insert(f: Field, fs: seq<Field>): (r: seq<Field>)
    ensures multiset(r) == multiset(fs) + multiset{f}
  {
    if fs == [] || Before(f, fs[0]) then [f] + fs
    else
      assert fs == [fs[0]] + fs[1..];
      [fs[0]] + Insert(f, fs[1..])
  }

  function Sort(fs: seq<Field>): (r: seq<Field>)
    ensures multiset(r) == multiset(fs)
  {
    if fs == [] then []
    else
      assert fs == fs[..|fs| - 1] + [fs[|fs| - 1]];
      Insert(fs[|fs| - 1], Sort(fs[..|fs| - 1]))
  }

  lemma {:induction false} InsertIsSorted(f: Field, fs: seq<Field>)
    requires Sorted(fs) && forall i :: 0 <= i < |fs| ==> fs[i].name != f.name
    ensures Sorted(Insert(f, fs))
  {
    if fs == [] {
    } else if Before(f, fs[0]) {
      forall i | 0 < i < |fs| ensures Before(f, fs[i]) {
        BeforeIsTransitive(f, fs[0], fs[i]);
      }
    } else {
      InsertIsSorted(f, fs[1..]);
      LessIsTotal(f.name, fs[0].name);
      var r := Insert(f, fs[1..]);
      forall i | 0 <= i < |r| ensures Before(fs[0], r[i]) {
        assert r[i] in multiset(r);
        if r[i] != f {
          assert r[i] in fs[1..];
        }
      }
    }
  }

  ghost predicate DistinctNames(fs: seq<Field>) {
    forall i, j :: 0 <= i < j < |fs| ==> fs[i].name != fs[j].name
  }

  lemma {:induction false} SortIsSorted(fs: seq<Field>)
    requires DistinctNames(fs)
    ensures Sorted(Sort(fs))
  {
    if fs != [] {
      var front, last := fs[..|fs| - 1], fs[|fs| - 1];
      SortIsSorted(front);
      forall i | 0 <= i < |Sort(front)| ensures Sort(front)[i].name != last.name {
        assert Sort(front)[i] in multiset(front);
      }
      InsertIsSorted(last, Sort(front));
    }
  }

  /** A sorted form lists all fields to fill in, then all advanced ones. */
  lemma {:induction false} PrimaryFieldsComeFirst(fs: seq<Field>) returns (k: nat)
    requires Sorted(fs)
    ensures k <= |fs|
    ensures forall i :: 0 <= i < |fs| ==> (fs[i].advanced <==> k <= i)
  {
    if fs == [] || fs[0].advanced {
      k := 0;
    } else {
      k := PrimaryFieldsComeFirst(fs[1..]);
      k := k + 1;
    }
  }

  /** Whether a channel takes a pasted credential at all. */
  predicate TakesCredential(schema: Schema) {
    || (exists i :: 0 <= i < |schema.names| && schema.names[i] in schema.nodes
                    && schema.nodes[schema.names[i]].leaf.Secret?)
    || (exists i :: 0 <= i < |schema.names| && EndsWith(schema.names[i], "File"))
  }

  /** The form fields among the first `n` properties. */
  function Candidates(schema: Schema, frequency: map<string, nat>, n: nat): (r: set<string>)
    requires n <= |schema.names| && forall i :: 0 <= i < |schema.names| ==> schema.names[i] in schema.nodes
  {
    if n == 0 then {}
    else
      var name := schema.names[n - 1];
      Candidates(schema, frequency, n - 1) + if IsCandidate(schema.nodes[name], name, frequency) then {name} else {}
  }

  lemma {:induction false} CandidatesAre(schema: Schema, frequency: map<string, nat>, n: nat)
    requires schema.Valid() && n <= |schema.names|
    ensures forall i :: 0 <= i < n ==> (schema.names[i] in Candidates(schema, frequency, n)
                                        <==> IsCandidate(schema.nodes[schema.names[i]], schema.names[i], frequency))
    ensures forall x :: x in Candidates(schema, frequency, n) ==> x in schema.names[..n]
  {
    if n > 0 {
      CandidatesAre(schema, frequency, n - 1);
      assert schema.names[..n] == schema.names[..n - 1] + [schema.names[n - 1]];
    }
  }

  /** The path fields that stand for the same credentials read off disk. */
  function Files(schema: Schema, candidates: set<string>): (r: set<string>) {
    set x | x in candidates && x + "File" in schema.names :: x + "File"
  }

  lemma {:induction false} FilesOneMore(schema: Schema, candidates: set<string>, name: string)
    ensures Files(schema, candidates + {name}) ==
            Files(schema, candidates) + if name + "File" in schema.names then {name + "File"} else {}
  {
  }

  /** The split of a channel: the form fields are the candidates among its properties. */
  function ChannelSplit(schema: Schema, frequency: map<string, nat>, gated: set<string>): (s: Split)
    requires schema.Valid()
  {
    Split(schema, Candidates(schema, frequency, |schema.names|), gated, POLICY_SURFACE)
  }

  /** What a form says of one property. */
  ghost predicate FieldOf(schema: Schema, s: Split, f: Field)
    requires s.Valid()
  {
    && f.name in schema.nodes
    && f.secret == schema.nodes[f.name].leaf.Secret?
    && f.fileAlternative == (if f.name + "File" in schema.names then Some(f.name + "File") else None)
    && f.advanced == (f.name !in s.PrimaryNames())
  }

  lemma {:induction false} FileNameIsPath(name: string)
    ensures IsPath(name + "File")
  {
    var s := name + "File";
    assert s[|s| - 4..] == "File";
    assert s[|s| - 1] == 'e';
  }

  method CollectFields(schema: Schema, frequency: map<string, nat>)
      returns (fields: seq<Field>, candidates: set<string>, consumed: set<string>)
    requires schema.Valid()
    ensures candidates == Candidates(schema, frequency, |schema.names|)
    ensures consumed == Files(schema, candidates) && Lists(schema, fields, candidates)
  {
    fields, candidates, consumed := [], {}, {};
    for n := 0 to |schema.names|
      invariant candidates == Candidates(schema, frequency, n)
      invariant consumed == Files(schema, candidates) && Lists(schema, fields, candidates)
    {
      var name := schema.names[n];
      var node := schema.nodes[name];
      if IsCandidate(node, name, frequency) {
        FileNameIsPath(name);
        var file := if name + "File" in schema.names then Some(name + "File") else None;
        FilesOneMore(schema, candidates, name);
        if file.Some? {
          consumed := consumed + {file.value};
        }
        CandidatesAre(schema, frequency, n);
        assert name !in candidates;
        ListsOneMore(schema, fields, candidates, Field(name, node.leaf.Secret?, file, true));
        fields := fields + [Field(name, node.leaf.Secret?, file, true)];
        candidates := candidates + {name};
      }
    }
  }

  /** The form of a channel: every form field exactly once and none invented, each marked, in form order. */
  ghost predicate FormIs(schema: Schema, s: Split, form: seq<Field>)
    requires s.Valid()
  {
    && Sorted(form) && DistinctNames(form)
    && (forall i :: 0 <= i < |form| ==> form[i].name in s.candidates && FieldOf(schema, s, form[i]))
    && (forall x :: x in s.candidates ==> exists i :: 0 <= i < |form| && form[i].name == x)
  }

  method CredentialFields(schema: Schema, frequency: map<string, nat>, gated: set<string>)
      returns (form: seq<Field>, consumed: set<string>)
    requires schema.Valid()
    ensures !TakesCredential(schema) ==> form == [] && consumed == {}
    ensures TakesCredential(schema) ==>
              var s := ChannelSplit(schema, frequency, gated);
              FormIs(schema, s, form) && consumed == Files(schema, s.candidates)
  {
    if !TakesCredential(schema) {
      return [], {};
    }
    var fields, candidates;
    fields, candidates, consumed := CollectFields(schema, frequency);
    var s := Split(schema, candidates, gated, POLICY_SURFACE);
    var primary := SplitPrimaryAndAdvanced(s);
    var marked := MarkAdvanced(fields, primary);
    form := Sort(marked);
    SortedForm(schema, s, fields, marked, form);
  }

  /** `fields` lists the candidates, one entry each, not yet split. */
  ghost predicate Lists(schema: Schema, fields: seq<Field>, candidates: set<string>) {
    && DistinctNames(fields)
    && (forall i :: 0 <= i < |fields| ==>
          && fields[i].name in candidates && fields[i].name in schema.nodes
          && fields[i].secret == schema.nodes[fields[i].name].leaf.Secret?
          && fields[i].fileAlternative ==
             (if fields[i].name + "File" in schema.names then Some(fields[i].name + "File") else None))
    && (forall x :: x in candidates ==> exists i :: 0 <= i < |fields| && fields[i].name == x)
  }

  lemma {:induction false} ListsOneMore(schema: Schema, fields: seq<Field>, candidates: set<string>, f: Field)
    requires Lists(schema, fields, candidates) && f.name !in candidates && f.name in schema.nodes
    requires f.secret == schema.nodes[f.name].leaf.Secret?
    requires f.fileAlternative == (if f.name + "File" in schema.names then Some(f.name + "File") else None)
    ensures Lists(schema, fields + [f], candidates + {f.name})
  {
    var all := fields + [f];
    assert all[|fields|] == f;
    forall x | x in candidates ensures exists i :: 0 <= i < |all| && all[i].name == x {
      var i :| 0 <= i < |fields| && fields[i].name == x;
      assert all[i].name == x;
    }
  }

  method MarkAdvanced(fields: seq<Field>, primary: set<string>) returns (marked: seq<Field>)
    ensures |marked| == |fields|
    ensures forall i :: 0 <= i < |fields| ==> marked[i] == fields[i].(advanced := fields[i].name !in primary)
  {
    marked := fields;
    for i := 0 to |fields|
      invariant |marked| == |fields|
      invariant forall k :: 0 <= k < i ==> marked[k] == fields[k].(advanced := fields[k].name !in primary)
      invariant forall k :: i <= k < |fields| ==> marked[k] == fields[k]
    {
      marked := marked[i := marked[i].(advanced := marked[i].name !in primary)];
    }
  }

  lemma {:induction false} SortKeepsDistinct(fs: seq<Field>)
    requires DistinctNames(fs)
    ensures DistinctNames(Sort(fs))
  {
    SortIsSorted(fs);
    var r := Sort(fs);
    forall i, j | 0 <= i < j < |r| ensures r[i].name != r[j].name {
      assert Before(r[i], r[j]);
      assert r[i] in multiset(fs) && r[j] in multiset(fs);
      var a :| 0 <= a < |fs| && fs[a] == r[i];
      var b :| 0 <= b < |fs| && fs[b] == r[j];
      if r[i].name == r[j].name {
        assert a == b;
        LessIsTotal(r[i].name, r[i].name);
      }
    }
  }

  /** The fields of the form, marked but in declaration order. */
  ghost predicate Marked(s: Split, fields: seq<Field>, marked: seq<Field>)
    requires s.Valid()
  {
    && |marked| == |fields|
    && forall i :: 0 <= i < |fields| ==>
         marked[i] == fields[i].(advanced := fields[i].name !in s.PrimaryNames())
  }

  lemma {:induction false} MarkedEntry(schema: Schema, s: Split, fields: seq<Field>, marked: seq<Field>, f: Field)
    requires s.Valid() && Lists(schema, fields, s.candidates) && Marked(s, fields, marked) && f in multiset(marked)
    ensures f.name in s.candidates && FieldOf(schema, s, f)
  {
    var k :| 0 <= k < |marked| && marked[k] == f;
    assert fields[k].name in s.candidates;
  }

  lemma {:induction false} MarkedCovers(schema: Schema, s: Split, fields: seq<Field>, marked: seq<Field>, x: string)
      returns (f: Field)
    requires s.Valid() && Lists(schema, fields, s.candidates) && Marked(s, fields, marked) && x in s.candidates
    ensures f in multiset(marked) && f.name == x
  {
    var k :| 0 <= k < |fields| && fields[k].name == x;
    f := marked[k];
  }

  lemma {:induction false} SortedForm(schema: Schema, s: Split, fields: seq<Field>, marked: seq<Field>,
                                      form: seq<Field>)
    requires s.Valid() && Lists(schema, fields, s.candidates) && Marked(s, fields, marked) && form == Sort(marked)
    ensures FormIs(schema, s, form)
  {
    assert DistinctNames(marked);
    SortIsSorted(marked);
    SortKeepsDistinct(marked);
    forall i | 0 <= i < |form| ensures form[i].name in s.candidates && FieldOf(schema, s, form[i]) {
      assert form[i] in multiset(form);
      MarkedEntry(schema, s, fields, marked, form[i]);
    }
    forall x | x in s.candidates ensures exists i :: 0 <= i < |form| && form[i].name == x {
      var f := MarkedCovers(schema, s, fields, marked, x);
      assert f in multiset(form);
    }
  }

  /** Every mode-gated secret of a form is advanced. */
  lemma {:induction false} GatedIsAdvanced(schema: Schema, s: Split, form: seq<Field>, i: nat)
    requires s.Valid() && FormIs(schema, s, form) && i < |form| && form[i].name in s.gated
    ensures form[i].advanced
  {
    assert form[i].name !in s.PrimaryNames();
  }

  /** A form field that is itself a credential, and not gated, is always primary. */
  lemma {:induction false} CredentialIsPrimary(s: Split, i: nat)
    requires s.Valid() && i < |s.schema.names|
    requires s.Member(s.schema.names[i]) && s.Credential(s.schema.names[i])
    ensures s.schema.names[i] in s.PrimaryNames()
  {
    assert s.Anchors(i, i);
  }

  // ---- transparent fields ----

  /** Where position `i` goes when a field is declared at position `k` in addition. */
  function Shift(k: nat, i: int): (r: int) {
    if i < k then i else i + 1
  }

  /** `t` declares one field more than `s`, at position `k`: one that is neither in the form nor a wall, and no file
      variant of anything. */
  ghost predicate AddsTransparent(s: Split, t: Split, k: nat) {
    && s.Valid() && t.Valid() && k <= |s.schema.names| && |t.schema.names| == |s.schema.names| + 1
    && s.candidates == t.candidates && s.gated == t.gated && s.policy == t.policy
    && (forall i :: 0 <= i < |s.schema.names| ==>
          t.schema.names[Shift(k, i)] == s.schema.names[i]
          && t.schema.nodes[s.schema.names[i]] == s.schema.nodes[s.schema.names[i]])
    && !t.Member(t.schema.names[k]) && !t.Wall(t.schema.names[k]) && !EndsWith(t.schema.names[k], "File")
  }

  lemma {:induction false} SameFileVariants(s: Split, t: Split, k: nat, name: string)
    requires AddsTransparent(s, t, k)
    ensures HasFileVariant(s.schema.names, name) <==> HasFileVariant(t.schema.names, name)
  {
    var a, b := s.schema.names, t.schema.names;
    if HasFileVariant(a, name) {
      var i :| 0 <= i < |a| && IsVariant(a[i], name);
      assert b[Shift(k, i)] == a[i];
    }
    if HasFileVariant(b, name) {
      var i :| 0 <= i < |b| && IsVariant(b[i], name);
      Unshift(k, i);
      assert b[i] == a[if i < k then i else i - 1];
    }
  }

  lemma {:induction false} Unshift(k: nat, i: nat)
    ensures i != k ==> Shift(k, if i < k then i else i - 1) == i
  {
  }

  lemma {:induction false} SameOpen(s: Split, t: Split, k: nat, i: nat, j: nat)
    requires AddsTransparent(s, t, k) && i < |s.schema.names| && j < |s.schema.names|
    ensures s.Open(i, j) <==> t.Open(Shift(k, i), Shift(k, j))
  {
    var a, b := s.schema.names, t.schema.names;
    if s.Open(i, j) {
      forall h | 0 <= h < |b| && Shift(k, i) < h < Shift(k, j) ensures !t.Wall(b[h]) {
        if h != k {
          Unshift(k, h);
          var g := if h < k then h else h - 1;
          assert b[Shift(k, g)] == a[g] && !s.Wall(a[g]);
        }
      }
    }
    if t.Open(Shift(k, i), Shift(k, j)) {
      forall h | 0 <= h < |a| && i < h < j ensures !s.Wall(a[h]) {
        assert b[Shift(k, h)] == a[h] && !t.Wall(b[Shift(k, h)]);
      }
    }
  }

  lemma {:induction false} SameAnchors(s: Split, t: Split, k: nat, j: nat, i: nat)
    requires AddsTransparent(s, t, k) && i < |s.schema.names| && j < |s.schema.names|
    ensures s.Anchors(j, i) <==> t.Anchors(Shift(k, j), Shift(k, i))
  {
    SameOpen(s, t, k, i, j);
    SameOpen(s, t, k, j, i);
    SameFileVariants(s, t, k, s.schema.names[j]);
  }

  lemma {:induction false} SamePrimary(s: Split, t: Split, k: nat, i: nat)
    requires AddsTransparent(s, t, k) && i < |s.schema.names|
    ensures s.Primary(i) <==> t.Primary(Shift(k, i))
  {
    if s.Primary(i) {
      var j :| s.Anchors(j, i);
      SameAnchors(s, t, k, j, i);
    }
    if t.Primary(Shift(k, i)) {
      var h :| t.Anchors(h, Shift(k, i));
      Unshift(k, h);
      SameAnchors(s, t, k, if h < k then h else h - 1, i);
    }
  }

  /** A field that is not in the form and closes no run separates nothing: declaring it anywhere leaves the same fields
      primary. */
  lemma {:induction false} TransparentFieldChangesNothing(s: Split, t: Split, k: nat)
    requires AddsTransparent(s, t, k)
    ensures s.PrimaryNames() == t.PrimaryNames()
  {
    var a, b := s.schema.names, t.schema.names;
    forall x | x in s.PrimaryNames() ensures x in t.PrimaryNames() {
      var i :| 0 <= i < |a| && s.Primary(i) && a[i] == x;
      SamePrimary(s, t, k, i);
      assert b[Shift(k, i)] == x;
    }
    forall x | x in t.PrimaryNames() ensures x in s.PrimaryNames() {
      var h :| 0 <= h < |b| && t.Primary(h) && b[h] == x;
      Unshift(k, h);
      var i := if h < k then h else h - 1;
      assert b[Shift(k, i)] == a[i];
      SamePrimary(s, t, k, i);
    }
  }
}
