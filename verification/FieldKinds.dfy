/** What the names and nodes of a channel's properties say (scripts/generate_openclaw_channel_manifest.py): which are
    paths, which have file variants, which are form fields, credentials and walls. */
module FieldKinds {
  import opened FieldRuns
  import opened Text

  const PATH_SUFFIXES: set<string> := {"File", "Path", "Dir", "Roots"}

  lemma {:induction false} EndsMean(s: string, suffix: string)
    ensures EndsWith(s, suffix) <==> exists stem :: s == stem + suffix
  {
    if EndsWith(s, suffix) {
      assert s == s[..|s| - |suffix|] + suffix;
    }
    if stem :| s == stem + suffix {
      assert s[|s| - |suffix|..] == suffix;
    }
  }

  ghost predicate PathName(name: string, stem: string, suffix: string) {
    suffix in PATH_SUFFIXES && (name == stem + suffix || name == stem + suffix + "\n")
  }

  lemma {:induction false} LineFeed(name: string)
    ensures var s := if EndsWith(name, "\n") then name[..|name| - 1] else name;
            name == s || name == s + "\n"
  {
    EndsMean(name, "\n");
  }

  lemma {:induction false} NoLineFeed(stem: string, suffix: string)
    requires suffix in PATH_SUFFIXES
    ensures !EndsWith(stem + suffix, "\n")
  {
    var s := stem + suffix;
    assert s[|s| - 1] == suffix[|suffix| - 1];
  }

  lemma {:induction false} PathNameIsPath(name: string, stem: string, suffix: string)
    requires PathName(name, stem, suffix)
    ensures IsPath(name)
  {
    var s := stem + suffix;
    EndsMean(s, suffix);
    if name == s {
      NoLineFeed(stem, suffix);
    } else {
      EndsMean(name, "\n");
      assert name[..|name| - 1] == s;
    }
  }

  /** A path field is one whose name ends in one of the four suffixes, up to a final line feed. */
  lemma {:induction false} PathsMean(name: string)
    ensures IsPath(name) <==> exists stem, suffix :: PathName(name, stem, suffix)
  {
    if IsPath(name) {
      var s := if EndsWith(name, "\n") then name[..|name| - 1] else name;
      LineFeed(name);
      var suffix :| suffix in PATH_SUFFIXES && EndsWith(s, suffix);
      EndsMean(s, suffix);
      var stem :| s == stem + suffix;
      assert PathName(name, stem, suffix);
    }
    if stem, suffix :| PathName(name, stem, suffix) {
      PathNameIsPath(name, stem, suffix);
    }
  }

  /** A field has a file variant exactly if the schema has a field named after a non-empty end of its name, case aside,
      with `File` behind. */
  lemma {:induction false} VariantsMean(names: seq<string>, name: string)
    ensures HasFileVariant(names, name) <==>
            exists stem :: stem != "" && stem + "File" in names && EndsWith(Lower(name), Lower(stem))
  {
    if HasFileVariant(names, name) {
      var i :| 0 <= i < |names| && IsVariant(names[i], name);
      var stem := names[i][..|names[i]| - 4];
      assert names[i] == stem + "File";
    }
    if stem :| stem != "" && stem + "File" in names && EndsWith(Lower(name), Lower(stem)) {
      var file := stem + "File";
      assert file[..|file| - 4] == stem && file[|file| - 4..] == "File";
      assert IsVariant(file, name);
    }
  }

  /** The form fields: no policy fields and no paths; secrets, and strings without default, enum or const whose names
      few channels use. */
  lemma {:induction false} CandidatesMean(node: Node, name: string, frequency: map<string, nat>)
    ensures name in POLICY_SURFACE || IsPath(name) ==> !IsCandidate(node, name, frequency)
    ensures name !in POLICY_SURFACE && !IsPath(name) ==>
              (IsCandidate(node, name, frequency) <==>
                 match node.leaf
                 case Secret => true
                 case Str => !node.knob && (if name in frequency then frequency[name] else 0) <= 5
                 case _ => false)
  {
  }

  /** A credential is a secret that is not mode-gated, or a string with a file variant. */
  lemma {:induction false} CredentialsMean(s: Split, name: string)
    requires name in s.schema.nodes
    ensures name in s.gated ==> !s.Credential(name)
    ensures name !in s.gated ==>
              (s.Credential(name) <==>
                 match s.schema.nodes[name].leaf
                 case Secret => true
                 case Str => HasFileVariant(s.schema.names, name)
                 case _ => false)
  {
  }

  /** What closes a run: every mode-gated field; no other form field and no other path; of the rest the policy fields
      and those with a default, enum or const. */
  lemma {:induction false} WallsMean(s: Split, name: string)
    requires name in s.schema.nodes
    ensures name in s.gated ==> s.Wall(name)
    ensures name !in s.gated && (name in s.candidates || IsPath(name)) ==> !s.Wall(name)
    ensures name !in s.gated && name !in s.candidates && !IsPath(name) ==>
              (s.Wall(name) <==> name in s.policy || s.schema.nodes[name].knob)
  {
  }

  /** A channel takes a pasted credential exactly if it has a secret or a field whose name ends in `File`; the path
      fields folded in are those of the form fields. */
  lemma {:induction false} ChannelsMean(schema: Schema, candidates: set<string>, f: string)
    requires schema.Valid()
    ensures TakesCredential(schema) <==>
            || (exists name :: name in schema.names && schema.nodes[name].leaf.Secret?)
            || (exists stem :: stem + "File" in schema.names)
    ensures f in Files(schema, candidates) <==> f in schema.names && exists x :: x in candidates && f == x + "File"
  {
    if TakesCredential(schema) {
      if i :| 0 <= i < |schema.names| && EndsWith(schema.names[i], "File") {
        EndsMean(schema.names[i], "File");
      }
    }
    if stem :| stem + "File" in schema.names {
      EndsMean(stem + "File", "File");
      var i :| 0 <= i < |schema.names| && schema.names[i] == stem + "File";
    }
  }

  lemma {:induction false} LowerJoins(a: string, b: string)
    ensures EndsWith(Lower(a + b), Lower(b))
  {
    assert Lower(a + b)[|a|..] == Lower(b);
  }

  /** A string `channelAccessToken` beside a path `tokenFile` is a credential: the stem ends the name, case aside. */
  lemma {:induction false} TokenHasVariant(front: string, names: seq<string>)
    requires "tokenFile" in names
    ensures HasFileVariant(names, front + "Token")
  {
    assert "token" + "File" == "tokenFile";
    LowerJoins(front, "Token");
    assert Lower("Token") == Lower("token");
    VariantsMean(names, front + "Token");
  }
}
