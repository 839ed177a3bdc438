/** `update template`: bringing a generated project to another version of its template.
    The changes are analysed, the project is backed up under `.agent/backups`, the
    template's files are written over the project, and the metadata records the new
    version. */
module Update {
  import opened Base
  import opened Json
  import opened Strings
  import opened Paths
  import opened Constants
  import opened FileUtils
  import ProjectGenerator

  // ---------------------------------------------------------------------------
  // Which files take part
  // ---------------------------------------------------------------------------

  /** The names the change analysis ignores. */
  const AnalyzeExcludes: seq<string> :=
    [".git", "__pycache__", "*.pyc", ".DS_Store", "Thumbs.db", ".agent", "venv", "node_modules"]

  /** The names applying the update ignores; a different list from the analysis'. */
  const ApplyExcludes: seq<string> :=
    [".git", "__pycache__", "*.pyc", ".DS_Store", "Thumbs.db", "template.yaml", "template.yml", ".template"]

  /** The suffixes the update treats as text; unlike project generation, `.toml` is not
      among them. */
  const TextSuffixes: seq<string> := [".md", ".txt", ".py", ".js", ".ts", ".html", ".css", ".json", ".yaml", ".yml"]

  /** The path components that keep a file out of the backup. The last entry holds a
      slash, so it never equals a single component. */
  const BackupExcludes: seq<string> := [".git", "__pycache__", "venv", "node_modules", ".agent/backups"]

  /** Where the update reads and rewrites the project's metadata:
      `.agent/template/metadata.json`. */
  const MetadataPath: Path := [AgentDir, TemplateDir, TemplateMetadataFile]

  /** Python's `s in container` for the `protected_files` value loaded from JSON: list
      membership, a substring of a string, a key of an object; `None` where `in` raises
      `TypeError` (a number, a boolean, `null`). */
  function Membership(s: string, container: Json): Option<bool> {
    match container
    case JArr(items) => Some(JStr(s) in items)
    case JStr(t) => Some(Contains(t, s))
    case JObj(fields) => Some(s in fields)
    case _ => None
  }

  /** The list of names project generation records: a path is listed exactly when its
      string is one of them, and a missing list (the default `[]`) lists nothing. */
  lemma ListedNames(s: string, names: seq<string>)
    ensures Membership(s, JArr(StrList(names))) == Some(s in names)
    ensures Membership(s, JArr([])) == Some(false)
  {
    if s in names {
      var i :| 0 <= i < |names| && names[i] == s;
      assert StrList(names)[i] == JStr(s);
    }
  }

  /** A top-level file's path string is its name, so the protected names project
      generation records are recognised by the update. */
  lemma TopLevelListed(n: string, names: seq<string>)
    ensures Membership(PathString([n]), JArr(StrList(names))) == Some(n in names)
  {
    assert PathString([n]) == n;
    ListedNames(n, names);
  }

  // ---------------------------------------------------------------------------
  // Comparing files
  // ---------------------------------------------------------------------------

  /** What reading `p` in the project gives: its bytes, or `None` for a directory, which
      every read of `_files_differ` fails on. */
  function Read(t: Tree, p: Path): Option<Bytes> {
    if p in t then Some(t[p]) else None
  }

  /** `_files_differ(template file, project file)`: different sizes differ; text files
      (by the template file's suffix) compare as decoded text, others by their `digest`
      (MD5); any failure to read counts as a difference. */
  function FilesDiffer(a: Bytes, name: string, b: Option<Bytes>, codec: Codec, digest: Bytes -> string): (r: bool)
    ensures b.None? ==> r
    ensures b.Some? && |a| != |b.value| ==> r
    ensures b == Some(a) ==> (r <==> Suffix(name) in TextSuffixes && codec.decode(a).None?)
    ensures b.Some? && |a| == |b.value| && Suffix(name) in TextSuffixes ==>
              (r <==> codec.decode(a).None? || codec.decode(b.value).None? || codec.decode(a) != codec.decode(b.value))
    ensures b.Some? && |a| == |b.value| && Suffix(name) !in TextSuffixes ==> (r <==> digest(a) != digest(b.value))
  {
    match b
    case None => true
    case Some(other) =>
      if |a| != |other| then true
      else if Suffix(name) in TextSuffixes then
        match (codec.decode(a), codec.decode(other))
        case (Some(x), Some(y)) => x != y
        case _ => true
      else digest(a) != digest(other)
  }

  // ---------------------------------------------------------------------------
  // Analysing the changes
  // ---------------------------------------------------------------------------

  /** The kinds of change the analysis can report; `Removed` is never produced. */
  datatype ChangeKind = Added | Modified | Removed

  /** One change record: its kind, the file's relative path string, and whether that
      string is in the metadata's `protected_files`. */
  datatype Change = Change(kind: ChangeKind, file: string, protected: bool)

  /** A template file the analysis reports: not excluded by name, and either missing from
      the project or different from the project's file. */
  predicate Flagged(template: Tree, project: Tree, codec: Codec, digest: Bytes -> string, p: Path)
    requires p in template
  {
    && !MatchesAny(p, AnalyzeExcludes)
    && (!Exists(project, p) || FilesDiffer(template[p], Name(p), Read(project, p), codec, digest))
  }

  /** Exclusion tests the file's own name only: a file inside `.git` takes part, a
      compiled file anywhere does not. */
  lemma ExclusionLooksAtName()
    ensures !MatchesAny([".git", "config"], AnalyzeExcludes)
    ensures MatchesAny(["src", "pkg", "mod.pyc"], AnalyzeExcludes)
  {
  }

  /** Excluding `.agent` keeps out a file of that name only: the files inside the
      `.agent` directory, the metadata among them, take part in the analysis. */
  lemma AgentFilesTakePart()
    ensures MatchesAny([".agent"], AnalyzeExcludes)
    ensures !MatchesAny([".agent", "template", "metadata.json"], AnalyzeExcludes)
  {
    MetadataNameKept();
    MatchNameOnly([".agent", "template", "metadata.json"], ["metadata.json"], AnalyzeExcludes);
  }

  /** No analysis pattern matches the name `metadata.json`. */
  lemma MetadataNameKept()
    ensures !MatchesAny(["metadata.json"], AnalyzeExcludes)
  {
  }

  /** The kind of change a flagged file is reported as. */
  function KindOf(project: Tree, p: Path): ChangeKind {
    if Exists(project, p) then Modified else Added
  }

  /** The analysis loop's body for one template file: no record, a record, or the
      `TypeError` that testing membership in `protected_files` raises. */
  function Assess(template: Tree, project: Tree, protectedFiles: Json, codec: Codec, digest: Bytes -> string,
                  p: Path): Outcome<Option<Change>>
  {
    if p !in template || !Flagged(template, project, codec, digest, p) then Returned(None)
    else
      match Membership(PathString(p), protectedFiles)
      case None => Raised("TypeError")
      case Some(listed) => Returned(Some(Change(KindOf(project, p), PathString(p), listed)))
  }

  /** The analysis loop's body as a function value. */
  function Assessor(template: Tree, project: Tree, protectedFiles: Json, codec: Codec, digest: Bytes -> string)
    : Path -> Outcome<Option<Change>>
  {
    p => Assess(template, project, protectedFiles, codec, digest, p)
  }

  /** A loop that collects the records `assess` gives for the first `n` paths of `walk`,
      and raises as soon as one assessment raises. */
  function Collect(assess: Path -> Outcome<Option<Change>>, walk: seq<Path>, n: nat): Outcome<seq<Change>>
    requires n <= |walk|
  {
    if n == 0 then Returned([])
    else
      match Collect(assess, walk, n - 1)
      case Raised(e) => Raised(e)
      case Returned(found) =>
        match assess(walk[n - 1])
        case Raised(e) => Raised(e)
        case Returned(None) => Returned(found)
        case Returned(Some(c)) => Returned(found + [c])
  }

  /** The collecting loop raises exactly when one of the assessments does; otherwise its
      records are exactly the records the assessments give. */
  lemma {:induction false} CollectRecords(assess: Path -> Outcome<Option<Change>>, walk: seq<Path>, n: nat)
    requires n <= |walk|
    ensures Collect(assess, walk, n).Raised? <==> exists i :: 0 <= i < n && assess(walk[i]).Raised?
    ensures Collect(assess, walk, n).Returned? ==>
              forall c :: c in Collect(assess, walk, n).value <==>
                exists i :: 0 <= i < n && assess(walk[i]) == Returned(Some(c))
    decreases n
  {
    if n > 0 {
      CollectRecords(assess, walk, n - 1);
    }
  }

  /** Once the collecting loop has raised, it has raised for every longer prefix. */
  lemma {:induction false} CollectStop(assess: Path -> Outcome<Option<Change>>, walk: seq<Path>, j: nat, n: nat)
    requires j <= n <= |walk| && Collect(assess, walk, j).Raised?
    ensures Collect(assess, walk, n).Raised?
    decreases n
  {
    if j < n {
      CollectStop(assess, walk, j, n - 1);
    }
  }

  /** `_analyze_changes`' result: the records, or the empty list its handler returns when
      the loop raises. */
  function Analysis(template: Tree, walk: seq<Path>, project: Tree, protectedFiles: Json, codec: Codec,
                    digest: Bytes -> string): seq<Change>
  {
    match Collect(Assessor(template, project, protectedFiles, codec, digest), walk, |walk|)
    case Raised(_) => []
    case Returned(found) => found
  }

  /** Membership in `protected_files` can be evaluated for every flagged file. */
  ghost predicate Testable(template: Tree, project: Tree, protectedFiles: Json, codec: Codec, digest: Bytes -> string) {
    forall p :: p in template && Flagged(template, project, codec, digest, p) ==>
      Membership(PathString(p), protectedFiles).Some?
  }

  /** The record a file should give: one for a flagged template file whose path string
      can be evaluated against `protected_files`, never a removal, added exactly when the
      project lacks the file, and protected exactly when the path string is listed. */
  function RecordFor(template: Tree, project: Tree, protectedFiles: Json, codec: Codec, digest: Bytes -> string,
                     p: Path): (r: Option<Change>)
    ensures r.Some? <==> p in template && Flagged(template, project, codec, digest, p)
                         && Membership(PathString(p), protectedFiles).Some?
    ensures r.Some? ==> && r.value.file == PathString(p)
                        && r.value.kind != Removed
                        && (r.value.kind == Added <==> !Exists(project, p))
                        && Membership(PathString(p), protectedFiles) == Some(r.value.protected)
  {
    if p in template && Flagged(template, project, codec, digest, p) then
      match Membership(PathString(p), protectedFiles)
      case None => None
      case Some(listed) => Some(Change(KindOf(project, p), PathString(p), listed))
    else None
  }

  function Recorder(template: Tree, project: Tree, protectedFiles: Json, codec: Codec, digest: Bytes -> string)
    : Path -> Option<Change>
  {
    p => RecordFor(template, project, protectedFiles, codec, digest, p)
  }

  /** What the analysis reports for a template walked in full: when membership can be
      evaluated for every flagged file, exactly the records the files should give; when it
      cannot, nothing at all. */
  lemma AnalysisReports(template: Tree, walk: seq<Path>, project: Tree, protectedFiles: Json, codec: Codec,
                        digest: Bytes -> string)
    requires Enumerates(walk, template)
    ensures Testable(template, project, protectedFiles, codec, digest) ==>
              forall c :: c in Analysis(template, walk, project, protectedFiles, codec, digest) <==>
                exists p :: p in template && RecordFor(template, project, protectedFiles, codec, digest, p) == Some(c)
    ensures !Testable(template, project, protectedFiles, codec, digest) ==>
              Analysis(template, walk, project, protectedFiles, codec, digest) == []
  {
    var assess := Assessor(template, project, protectedFiles, codec, digest);
    if Testable(template, project, protectedFiles, codec, digest) {
      forall p | p in template
        ensures assess(p) == Returned(Recorder(template, project, protectedFiles, codec, digest)(p))
      {
        AssessTestable(template, project, protectedFiles, codec, digest, p);
      }
      CollectAll(assess, walk, template, Recorder(template, project, protectedFiles, codec, digest));
    } else {
      var p :| p in template && Flagged(template, project, codec, digest, p)
               && Membership(PathString(p), protectedFiles).None?;
      var i :| 0 <= i < |walk| && walk[i] == p;
      assert Assess(template, project, protectedFiles, codec, digest, p).Raised?;
      CollectRecords(assess, walk, |walk|);
    }
  }

  /** A loop whose body gives each file of `t` its record without raising collects
      exactly those records. */
  lemma CollectAll(assess: Path -> Outcome<Option<Change>>, walk: seq<Path>, t: Tree, record: Path -> Option<Change>)
    requires Enumerates(walk, t)
    requires forall p :: p in t ==> assess(p) == Returned(record(p))
    ensures Collect(assess, walk, |walk|).Returned?
    ensures forall c :: c in Collect(assess, walk, |walk|).value <==> exists p :: p in t && record(p) == Some(c)
  {
    CollectRecords(assess, walk, |walk|);
    forall c ensures c in Collect(assess, walk, |walk|).value <==> exists p :: p in t && record(p) == Some(c) {
      if exists p :: p in t && record(p) == Some(c) {
        var p :| p in t && record(p) == Some(c);
        var i :| 0 <= i < |walk| && walk[i] == p;
        assert assess(walk[i]) == Returned(Some(c));
      }
    }
  }

  /** When membership can be evaluated, a file's assessment gives its record. */
  lemma AssessTestable(template: Tree, project: Tree, protectedFiles: Json, codec: Codec, digest: Bytes -> string,
                       p: Path)
    requires Testable(template, project, protectedFiles, codec, digest)
    ensures Assess(template, project, protectedFiles, codec, digest, p)
            == Returned(RecordFor(template, project, protectedFiles, codec, digest, p))
  {
  }

  /** Without a `protected_files` entry in the metadata no record is protected. */
  lemma NothingProtectedByDefault(template: Tree, walk: seq<Path>, project: Tree, metadata: map<string, Json>,
                                  codec: Codec, digest: Bytes -> string)
    requires Enumerates(walk, template) && "protected_files" !in metadata
    ensures forall c :: c in Analysis(template, walk, project, Get(metadata, "protected_files", JArr([])), codec, digest)
                   ==> !c.protected
  {
    var pf := Get(metadata, "protected_files", JArr([]));
    assert pf == JArr([]);
    AnalysisReports(template, walk, project, pf, codec, digest);
  }

  /** `_analyze_changes`: goes through the template's files in `walk` order and appends a
      record for each flagged one; if the loop raises, it reports no changes at all. */
  method AnalyzeChanges(template: Tree, walk: seq<Path>, project: Tree, metadata: map<string, Json>,
                        codec: Codec, digest: Bytes -> string)
    returns (changes: seq<Change>)
    ensures changes == Analysis(template, walk, project, Get(metadata, "protected_files", JArr([])), codec, digest)
  {
    var protectedFiles := Get(metadata, "protected_files", JArr([]));
    var ok, found := CollectLoop(template, walk, project, protectedFiles, codec, digest,
                                 Assessor(template, project, protectedFiles, codec, digest));
    if ok {
      changes := found;
    } else {
      changes := [];
    }
  }

  /** `assess` is the analysis loop's body. */
  ghost predicate IsAssessor(assess: Path -> Outcome<Option<Change>>, template: Tree, project: Tree,
                             protectedFiles: Json, codec: Codec, digest: Bytes -> string)
  {
    forall p {:trigger Assess(template, project, protectedFiles, codec, digest, p)} ::
      assess(p) == Assess(template, project, protectedFiles, codec, digest, p)
  }

  /** The analysis loop, which reports whether it ran to the end. */
  method CollectLoop(template: Tree, walk: seq<Path>, project: Tree, protectedFiles: Json, codec: Codec,
                     digest: Bytes -> string, ghost assess: Path -> Outcome<Option<Change>>)
    returns (ok: bool, found: seq<Change>)
    requires IsAssessor(assess, template, project, protectedFiles, codec, digest)
    ensures ok <==> Collect(assess, walk, |walk|).Returned?
    ensures ok ==> found == Collect(assess, walk, |walk|).value
  {
    found := [];
    var i := 0;
    while i < |walk|
      invariant 0 <= i <= |walk|
      invariant Collect(assess, walk, i) == Returned(found)
    {
      ok, found := CollectOne(template, walk, i, walk[i], project, protectedFiles, codec, digest, assess, found);
      if !ok {
        return;
      }
      i := i + 1;
    }
    ok := true;
  }

  /** One iteration of the analysis loop. */
  method CollectOne(template: Tree, ghost walk: seq<Path>, i: nat, item: Path, project: Tree,
                    protectedFiles: Json, codec: Codec, digest: Bytes -> string,
                    ghost assess: Path -> Outcome<Option<Change>>, found: seq<Change>)
    returns (ok: bool, next: seq<Change>)
    requires i < |walk| && item == walk[i]
    requires IsAssessor(assess, template, project, protectedFiles, codec, digest)
    requires Collect(assess, walk, i) == Returned(found)
    ensures ok ==> Collect(assess, walk, i + 1) == Returned(next)
    ensures !ok ==> Collect(assess, walk, |walk|).Raised?
  {
    var c := Assess(template, project, protectedFiles, codec, digest, item);
    assert assess(item) == c;
    match c
    case Raised(_) =>
      ok, next := false, found;
      CollectStop(assess, walk, i + 1, |walk|);
    case Returned(None) =>
      ok, next := true, found;
    case Returned(Some(record)) =>
      ok, next := true, found + [record];
  }

  // ---------------------------------------------------------------------------
  // Applying the update
  // ---------------------------------------------------------------------------

  /** What applying the update does with one template file. */
  datatype Action = Pass | Fail | Render | Copy

  /** The action for template file `p`: an excluded name passes; testing membership in
      `protected_files` comes first and raises for a value `in` cannot search, whether or
      not `force` is set; a listed file passes unless `force` is set; text files are
      rendered and the others copied. */
  function ActionFor(protectedFiles: Json, force: bool, p: Path): Action {
    if MatchesAny(p, ApplyExcludes) then Pass
    else
      match Membership(PathString(p), protectedFiles)
      case None => Fail
      case Some(listed) =>
        if listed && !force then Pass
        else if Suffix(Name(p)) in TextSuffixes then Render
        else Copy
  }

  function Actions(protectedFiles: Json, force: bool): Path -> Action {
    p => ActionFor(protectedFiles, force, p)
  }

  /** With `force` set the list protects nothing: a file is treated as an unlisted one,
      provided membership can be evaluated. */
  lemma ForceIgnoresList(protectedFiles: Json, p: Path)
    requires Membership(PathString(p), protectedFiles).Some?
    ensures ActionFor(protectedFiles, true, p) == ActionFor(JArr([]), false, p)
  {
  }

  /** The context `_apply_update` renders with: the project directory's name and four
      values from the metadata, each `""` when missing. */
  function UpdateContext(projectName: string, metadata: map<string, Json>): map<string, Json> {
    map["project_name" := JStr(projectName),
        "author_name" := Get(metadata, "author", JStr("")),
        "author_email" := Get(metadata, "author_email", JStr("")),
        "template_name" := Get(metadata, "template_type", JStr("")),
        "template_version" := Get(metadata, "version", JStr(""))]
  }

  /** The bytes a written template file gets: its rendered text, or the same bytes;
      `None` when it is not UTF-8 or the template engine raises. */
  function Updated(action: Path -> Action, template: Tree, p: Path, context: map<string, Json>, env: Env)
    : Option<Bytes>
    requires p in template
  {
    if action(p) == Render then
      match env.codec.decode(template[p])
      case None => None
      case Some(text) =>
        match SubstitutePlaceholders(text, context, env.today, env.render)
        case None => None
        case Some(out) => Some(env.codec.encode(out))
    else Some(template[p])
  }

  /** The apply loop's body for one template file, on the project's files. */
  function ApplyStep(action: Path -> Action, template: Tree, context: map<string, Json>, env: Env,
                     acc: Tree, p: Path): Option<Tree>
  {
    if p !in template then None  // the walk lists only the template's files
    else
      match action(p)
      case Pass => Some(acc)
      case Fail => None
      case Render =>
        if |p| == 0 then None else ProcessTemplateFile(acc, template[p], p, context, env.today, env.render, env.codec)
      case Copy =>
        if |p| == 0 then None else CopyFile(acc, template[p], Name(p), p)
  }

  /** The apply loop's body as a function value. */
  function Applier(action: Path -> Action, template: Tree, context: map<string, Json>, env: Env)
    : (Tree, Path) -> Option<Tree>
  {
    (acc, p) => ApplyStep(action, template, context, env, acc, p)
  }

  /** The file is written: rendered or copied. */
  predicate Writes(action: Path -> Action, p: Path) {
    action(p) == Render || action(p) == Copy
  }

  /** Where a written template file lands in the project: a copy onto a directory lands
      inside it. */
  function Target(project: Tree, action: Path -> Action, p: Path): Path {
    if action(p) == Copy && IsDir(project, p) then p + [Name(p)] else p
  }

  /** Writing template file `p` can change what is at `q`. */
  predicate Touches(action: Path -> Action, p: Path, q: Path) {
    Writes(action, p) && (q == p || q == p + [Name(p)])
  }

  /** One step of the apply loop changes nothing but what it touches. */
  lemma StepFrame(action: Path -> Action, template: Tree, context: map<string, Json>, env: Env,
                  acc: Tree, p: Path, q: Path)
    requires ApplyStep(action, template, context, env, acc, p).Some? && !Touches(action, p, q)
    ensures SameAt(ApplyStep(action, template, context, env, acc, p).value, acc, q)
  {
  }

  /** After any prefix of the apply loop, a path that none of its files touches is as it
      was. */
  lemma {:induction false} ApplyFrame(action: Path -> Action, template: Tree, context: map<string, Json>,
                                      env: Env, walk: seq<Path>, n: nat, project: Tree, q: Path)
    requires n <= |walk| && Steps(Applier(action, template, context, env), walk, n, project).Some?
    requires forall i :: 0 <= i < n ==> !Touches(action, walk[i], q)
    ensures SameAt(Steps(Applier(action, template, context, env), walk, n, project).value, project, q)
    decreases n
  {
    if n > 0 {
      var step := Applier(action, template, context, env);
      ApplyFrame(action, template, context, env, walk, n - 1, project, q);
      StepFrame(action, template, context, env, Steps(step, walk, n - 1, project).value, walk[n - 1], q);
    }
  }

  /** Writing the files of a well-formed template before `p` leaves unchanged whether `p`
      is a directory. */
  lemma DirKept(action: Path -> Action, template: Tree, context: map<string, Json>, env: Env,
                walk: seq<Path>, n: nat, project: Tree, p: Path)
    requires WellFormed(template) && Enumerates(walk, template) && n < |walk| && p == walk[n]
    requires Steps(Applier(action, template, context, env), walk, n, project).Some?
    ensures IsDir(Steps(Applier(action, template, context, env), walk, n, project).value, p) <==> IsDir(project, p)
  {
    var acc := Steps(Applier(action, template, context, env), walk, n, project).value;
    forall q | Below(p, q) ensures SameAt(acc, project, q) {
      forall i | 0 <= i < n ensures !Touches(action, walk[i], q) {
        NotBelow(template, p, walk[i]);
      }
      ApplyFrame(action, template, context, env, walk, n, project, q);
    }
  }

  /** Another file of a well-formed template, or a path just below it, is not inside the
      directory a template file's path would be. */
  lemma NotBelow(template: Tree, p: Path, r: Path)
    requires WellFormed(template) && p in template && r in template && p != r
    ensures !Below(p, r) && !Below(p, r + [Name(r)])
  {
    if |p| < |r| {
      assert (r + [Name(r)])[..|p|] == r[..|p|];
    } else if |p| == |r| {
      assert (r + [Name(r)])[..|p|] == r;
    }
  }

  /** Two different files of a well-formed template land at different places, and
      neither inside the other's. */
  lemma TargetsApart(template: Tree, project: Tree, action: Path -> Action, p: Path, r: Path)
    requires WellFormed(template) && p in template && r in template && p != r
    ensures Target(project, action, p) != Target(project, action, r)
    ensures !Touches(action, r, Target(project, action, p))
  {
    var a := Target(project, action, p);
    Apart(template, p, r, a, Target(project, action, r));
    Apart(template, p, r, a, r);
    Apart(template, p, r, a, r + [Name(r)]);
  }

  /** A path that is a file of a well-formed template, or one below it, is no other file
      of it nor one below that one. */
  lemma Apart(template: Tree, p: Path, r: Path, a: Path, b: Path)
    requires WellFormed(template) && p in template && r in template && p != r
    requires a == p || a == p + [Name(p)]
    requires b == r || b == r + [Name(r)]
    ensures a != b
  {
    assert a[..|p|] == p && b[..|r|] == r;
    if |p| < |r| {
      assert !Below(p, r);
      assert a[..|p|] != b[..|p|] by { assert b[..|p|] == r[..|p|]; }
    } else if |r| < |p| {
      assert !Below(r, p);
      assert a[..|r|] != b[..|r|] by { assert a[..|r|] == p[..|r|]; }
    }
  }

  /** Every written file of a template has landed after the step that writes it. */
  ghost predicate Lands(action: Path -> Action, template: Tree, context: map<string, Json>, env: Env,
                        project: Tree, out: Tree, p: Path)
    requires p in template
  {
    && Updated(action, template, p, context, env).Some?
    && Target(project, action, p) in out
    && out[Target(project, action, p)] == Updated(action, template, p, context, env).value
  }

  /** On a well-formed template, each prefix of the apply loop that does not raise has
      left every file it writes at its target with its updated bytes. */
  lemma {:induction false} ApplyLanded(action: Path -> Action, template: Tree, context: map<string, Json>,
                                       env: Env, walk: seq<Path>, n: nat, project: Tree)
    requires WellFormed(template) && Enumerates(walk, template) && n <= |walk|
    requires Steps(Applier(action, template, context, env), walk, n, project).Some?
    ensures forall i :: 0 <= i < n && Writes(action, walk[i]) ==>
              Lands(action, template, context, env, project,
                    Steps(Applier(action, template, context, env), walk, n, project).value, walk[i])
    decreases n
  {
    if n > 0 {
      var step := Applier(action, template, context, env);
      ApplyLanded(action, template, context, env, walk, n - 1, project);
      var acc := Steps(step, walk, n - 1, project).value;
      var out := Steps(step, walk, n, project).value;
      var p := walk[n - 1];
      if Writes(action, p) {
        DirKept(action, template, context, env, walk, n - 1, project, p);
        WriteLands(action, template, context, env, project, acc, p);
        forall i | 0 <= i < n - 1 && Writes(action, walk[i])
          ensures Lands(action, template, context, env, project, out, walk[i])
        {
          TargetsApart(template, project, action, walk[i], p);
        }
      }
    }
  }

  /** A written file lands at its target, and nothing else changes. */
  lemma WriteLands(action: Path -> Action, template: Tree, context: map<string, Json>, env: Env,
                   project: Tree, acc: Tree, p: Path)
    requires p in template && Writes(action, p) && (IsDir(acc, p) <==> IsDir(project, p))
    requires ApplyStep(action, template, context, env, acc, p).Some?
    ensures Lands(action, template, context, env, project, ApplyStep(action, template, context, env, acc, p).value, p)
    ensures forall q :: q != Target(project, action, p) ==>
              SameAt(ApplyStep(action, template, context, env, acc, p).value, acc, q)
  {
  }

  /** `action` is the apply loop's decision for `protected_files` and `force`, and `step`
      its body. */
  ghost predicate IsApplyStep(step: (Tree, Path) -> Option<Tree>, template: Tree, protectedFiles: Json, force: bool,
                              context: map<string, Json>, env: Env)
  {
    forall acc, p {:trigger ApplyStep(Actions(protectedFiles, force), template, context, env, acc, p)} ::
      step(acc, p) == ApplyStep(Actions(protectedFiles, force), template, context, env, acc, p)
  }

  /** `_apply_update`: goes through the template's files in `walk` order, writing each
      one the list does not protect; returns `false` as soon as one raises, leaving the
      files as far as it got. */
  method ApplyUpdate(template: Tree, walk: seq<Path>, project: Tree, projectName: string,
                     metadata: map<string, Json>, force: bool, env: Env)
    returns (ok: bool, out: Tree)
    ensures var step := Applier(Actions(Get(metadata, "protected_files", JArr([])), force), template,
                                UpdateContext(projectName, metadata), env);
            && (ok <==> Steps(step, walk, |walk|, project).Some?)
            && out == Reached(step, walk, |walk|, project)
  {
    var protectedFiles := Get(metadata, "protected_files", JArr([]));
    var context := UpdateContext(projectName, metadata);
    ok, out := ApplyLoop(template, walk, project, protectedFiles, force, context, env,
                         Applier(Actions(protectedFiles, force), template, context, env));
  }

  /** The apply loop. */
  method ApplyLoop(template: Tree, walk: seq<Path>, project: Tree, protectedFiles: Json, force: bool,
                   context: map<string, Json>, env: Env, ghost step: (Tree, Path) -> Option<Tree>)
    returns (ok: bool, out: Tree)
    requires IsApplyStep(step, template, protectedFiles, force, context, env)
    ensures ok <==> Steps(step, walk, |walk|, project).Some?
    ensures out == Reached(step, walk, |walk|, project)
  {
    out := project;
    var i := 0;
    while i < |walk|
      invariant 0 <= i <= |walk|
      invariant Steps(step, walk, i, project) == Some(out)
    {
      var next := ApplyOne(template, walk, i, walk[i], project, out, protectedFiles, force, context, env, step);
      if next.None? {
        return false, out;
      }
      out, i := next.value, i + 1;
    }
    ok := true;
  }

  /** One iteration of the apply loop. */
  method ApplyOne(template: Tree, ghost walk: seq<Path>, i: nat, item: Path, ghost project: Tree, out: Tree,
                  protectedFiles: Json, force: bool, context: map<string, Json>, env: Env,
                  ghost step: (Tree, Path) -> Option<Tree>)
    returns (next: Option<Tree>)
    requires i < |walk| && item == walk[i]
    requires IsApplyStep(step, template, protectedFiles, force, context, env)
    requires Steps(step, walk, i, project) == Some(out)
    ensures next == Steps(step, walk, i + 1, project)
    ensures next.None? ==> Steps(step, walk, |walk|, project).None? && Reached(step, walk, |walk|, project) == out
  {
    next := ApplyFile(template, item, out, protectedFiles, force, context, env);
    StepsAdvance(step, walk, project, i, out, next);
    if next.None? {
      ReachedStop(step, walk, project, i, out, |walk|);
    }
  }

  /** The body of `_apply_update`'s loop for one template file. */
  method ApplyFile(template: Tree, item: Path, out: Tree, protectedFiles: Json, force: bool,
                   context: map<string, Json>, env: Env)
    returns (next: Option<Tree>)
    ensures next == ApplyStep(Actions(protectedFiles, force), template, context, env, out, item)
  {
    assert Actions(protectedFiles, force)(item) == ActionFor(protectedFiles, force, item);
    if item !in template {
      return None;
    }
    if MatchesAny(item, ApplyExcludes) {
      return Some(out);
    }
    var listed := Membership(PathString(item), protectedFiles);
    if listed.None? {
      return None;  // `in` raises TypeError
    }
    if listed.value && !force {
      return Some(out);
    }
    if |item| == 0 {
      return None;
    }
    if Suffix(Name(item)) in TextSuffixes {
      next := ProcessTemplateFile(out, template[item], item, context, env.today, env.render, env.codec);
    } else {
      next := CopyFile(out, template[item], Name(item), item);
    }
  }

  /** Whether or not the apply loop raises part way, every path that no written file of
      the template touches is left as it was. */
  lemma ApplyKeepsUntouched(template: Tree, walk: seq<Path>, project: Tree, protectedFiles: Json, force: bool,
                            context: map<string, Json>, env: Env, q: Path)
    requires Enumerates(walk, template)
    requires forall p :: p in template ==> !Touches(Actions(protectedFiles, force), p, q)
    ensures SameAt(Reached(Applier(Actions(protectedFiles, force), template, context, env), walk, |walk|, project),
                   project, q)
  {
    var step := Applier(Actions(protectedFiles, force), template, context, env);
    var k := ReachedPrefix(step, walk, |walk|, project);
    ApplyFrame(Actions(protectedFiles, force), template, context, env, walk, k, project, q);
  }

  /** Whether or not the apply loop raises part way, a well-formed template's file that
      `protected_files` lists is left as it was unless `force` is set. */
  lemma ApplyKeepsProtected(template: Tree, walk: seq<Path>, project: Tree, protectedFiles: Json,
                            context: map<string, Json>, env: Env, p: Path)
    requires WellFormed(template) && Enumerates(walk, template)
    requires p in template && Membership(PathString(p), protectedFiles) == Some(true)
    ensures SameAt(Reached(Applier(Actions(protectedFiles, false), template, context, env), walk, |walk|, project),
                   project, p)
  {
    var action := Actions(protectedFiles, false);
    var step := Applier(action, template, context, env);
    var k := ReachedPrefix(step, walk, |walk|, project);
    forall i | 0 <= i < k ensures !Touches(action, walk[i], p) {
      if p == walk[i] + [Name(walk[i])] {
        assert Below(walk[i], p);
      }
    }
    ApplyFrame(action, template, context, env, walk, k, project, p);
  }

  /** When the apply loop over a well-formed template runs to the end, no file had a
      `protected_files` value `in` cannot search, and every file it writes is at its
      target with its updated bytes. */
  lemma ApplyCompleted(template: Tree, walk: seq<Path>, project: Tree, protectedFiles: Json, force: bool,
                       context: map<string, Json>, env: Env)
    requires WellFormed(template) && Enumerates(walk, template)
    requires Steps(Applier(Actions(protectedFiles, force), template, context, env), walk, |walk|, project).Some?
    ensures forall p :: p in template ==> ActionFor(protectedFiles, force, p) != Fail
    ensures forall p :: p in template && Writes(Actions(protectedFiles, force), p) ==>
              Lands(Actions(protectedFiles, force), template, context, env, project,
                    Reached(Applier(Actions(protectedFiles, force), template, context, env), walk, |walk|, project), p)
  {
    var action := Actions(protectedFiles, force);
    var step := Applier(action, template, context, env);
    ApplyRuns(action, template, context, env, walk, |walk|, project);
    ApplyLanded(action, template, context, env, walk, |walk|, project);
    forall p | p in template ensures p in walk { }
  }

  /** A prefix of the apply loop that does not raise met no file whose action fails. */
  lemma {:induction false} ApplyRuns(action: Path -> Action, template: Tree, context: map<string, Json>, env: Env,
                                     walk: seq<Path>, n: nat, project: Tree)
    requires n <= |walk| && Steps(Applier(action, template, context, env), walk, n, project).Some?
    ensures forall i :: 0 <= i < n ==> action(walk[i]) != Fail
    decreases n
  {
    if n > 0 {
      ApplyRuns(action, template, context, env, walk, n - 1, project);
    }
  }

  // ---------------------------------------------------------------------------
  // Backing up the project
  // ---------------------------------------------------------------------------

  /** `str()` of the metadata's version in the backup's name: a string as it is, any other
      value as `show` prints it. */
  function VersionText(v: Json, show: Json -> string): string {
    if v.JStr? then v.s else show(v)
  }

  /** The backup directory's name: `backup_` and the version, `unknown` when missing. */
  function BackupName(metadata: map<string, Json>, show: Json -> string): string {
    "backup_" + VersionText(Get(metadata, "version", JStr("unknown")), show)
  }

  /** `.agent/backups/<name>`: `pathlib` cuts the name at every `/` it holds. */
  function BackupDir(name: string): (d: Path)
    ensures |d| >= 2 && d[..2] == [AgentDir, "backups"]
    ensures '/' !in name && name != "" && name != "." ==> d == [AgentDir, "backups", name]
  {
    if '/' !in name && name != "" && name != "." then
      PlainName(name);
      [AgentDir, "backups"] + PathOf(name)
    else
      [AgentDir, "backups"] + PathOf(name)
  }

  /** A version with a slash, such as the tag `release/1.0`, nests the backup one level
      deeper: for the name `backup_release/1.0`, a file at `.agent/backups/backup_release`
      makes `mkdir` raise and nothing is backed up. */
  lemma SlashInVersion(project: Tree, walk: seq<Path>, first: string, second: string)
    requires '/' !in first && first != "" && first != "."
    requires '/' !in second && second != "" && second != "."
    requires [AgentDir, "backups", first] in project
    ensures BackupDir(first + "/" + second) == [AgentDir, "backups", first, second]
    ensures Backup(project, walk, first + "/" + second) == project
  {
    SplitAfter(first, '/', second);
    SplitWithout(second, '/');
    assert first + "/" + second == first + ['/'] + second;
    assert Split(first + "/" + second, "/") == [first, second];
    assert Components([second]) == [second] by { assert [second][1..] == []; }
    assert Components([first, second]) == [first, second] by { assert [first, second][1..] == [second]; }
    var d := BackupDir(first + "/" + second);
    assert d[..3] == [AgentDir, "backups", first];
  }

  /** Some component of the file's relative path keeps it out of the backup. */
  predicate Skipped(p: Path) {
    exists k :: 0 <= k < |p| && p[k] in BackupExcludes
  }

  /** The backup's exclusions come down to four directory names: no component without a
      slash is `.agent/backups`, so earlier backups are backed up too. */
  lemma SkippedNames(p: Path)
    requires forall k :: 0 <= k < |p| ==> '/' !in p[k]
    ensures Skipped(p) <==> exists k :: 0 <= k < |p| && p[k] in [".git", "__pycache__", "venv", "node_modules"]
  {
    assert '/' in ".agent/backups" by { assert ".agent/backups"[6] == '/'; }
  }

  /** The backup loop's body for one of the project's files: skipped, or copied to the
      same relative path under the backup directory. */
  function BackupStep(name: string, acc: Tree, p: Path): Option<Tree> {
    if Skipped(p) then Some(acc)
    else if p !in acc then None  // the file the walk listed is gone: reading it raises
    else CopyFile(acc, acc[p], Name(p), BackupDir(name) + p)
  }

  /** The backup loop's body as a function value. */
  function Backuper(name: string): (Tree, Path) -> Option<Tree> {
    (acc, p) => BackupStep(name, acc, p)
  }

  /** The project's files after `_create_backup`: nothing is copied when the backup
      directory cannot be created; otherwise the loop's result, or the files as far as it
      got when a copy raised. Either way the update goes on. */
  function Backup(project: Tree, walk: seq<Path>, name: string): Tree {
    if DirCreatable(project, BackupDir(name)) then Reached(Backuper(name), walk, |walk|, project) else project
  }

  /** `step` is the backup loop's body. */
  ghost predicate IsBackupStep(step: (Tree, Path) -> Option<Tree>, name: string) {
    forall acc, p {:trigger BackupStep(name, acc, p)} :: step(acc, p) == BackupStep(name, acc, p)
  }

  /** `_create_backup`: creates the backup directory, then copies the project's files in
      `walk` order; an exception ends it with a warning only. */
  method CreateBackup(project: Tree, walk: seq<Path>, name: string) returns (out: Tree)
    ensures out == Backup(project, walk, name)
  {
    if !DirCreatable(project, BackupDir(name)) {
      return project;  // mkdir raises
    }
    out := BackupLoop(project, walk, name, Backuper(name));
  }

  /** The backup loop. */
  method BackupLoop(project: Tree, walk: seq<Path>, name: string, ghost step: (Tree, Path) -> Option<Tree>)
    returns (out: Tree)
    requires IsBackupStep(step, name)
    ensures out == Reached(step, walk, |walk|, project)
  {
    out := project;
    var i := 0;
    while i < |walk|
      invariant 0 <= i <= |walk|
      invariant Steps(step, walk, i, project) == Some(out)
    {
      var next := BackupOne(walk, i, walk[i], project, out, name, step);
      if next.None? {
        return;
      }
      out, i := next.value, i + 1;
    }
  }

  /** One iteration of the backup loop. */
  method BackupOne(ghost walk: seq<Path>, i: nat, item: Path, ghost project: Tree, out: Tree, name: string,
                   ghost step: (Tree, Path) -> Option<Tree>)
    returns (next: Option<Tree>)
    requires i < |walk| && item == walk[i]
    requires IsBackupStep(step, name)
    requires Steps(step, walk, i, project) == Some(out)
    ensures next == Steps(step, walk, i + 1, project)
    ensures next.None? ==> Reached(step, walk, |walk|, project) == out
  {
    next := BackupStep(name, out, item);
    StepsAdvance(step, walk, project, i, out, next);
    if next.None? {
      ReachedStop(step, walk, project, i, out, |walk|);
    }
  }

  /** After any prefix of the backup loop, nothing outside the backup directory has
      changed. */
  lemma {:induction false} BackupFrame(walk: seq<Path>, n: nat, project: Tree, name: string, q: Path)
    requires n <= |walk| && Steps(Backuper(name), walk, n, project).Some?
    requires forall i :: 0 <= i < |walk| ==> walk[i] != []
    requires !Below(BackupDir(name), q)
    ensures SameAt(Steps(Backuper(name), walk, n, project).value, project, q)
    decreases n
  {
    if n > 0 {
      BackupFrame(walk, n - 1, project, name, q);
      var acc := Steps(Backuper(name), walk, n - 1, project).value;
      var p := walk[n - 1];
      if !Skipped(p) && p in acc {
        var d := BackupDir(name);
        var dst := d + p;
        assert dst[..|d|] == d;
        assert (dst + [Name(p)])[..|d|] == d;
      }
    }
  }

  /** The backup writes nothing outside the backup directory. */
  lemma BackupConfined(project: Tree, walk: seq<Path>, name: string, q: Path)
    requires WellFormed(project) && Enumerates(walk, project) && !Below(BackupDir(name), q)
    ensures SameAt(Backup(project, walk, name), project, q)
  {
    if DirCreatable(project, BackupDir(name)) {
      var k := ReachedPrefix(Backuper(name), walk, |walk|, project);
      BackupFrame(walk, k, project, name, q);
    }
  }

  /** The backup copies of the files among `ps`: each one that no component keeps out,
      under the backup directory at its own relative path. */
  function Copies(project: Tree, name: string, ps: set<Path>): Tree {
    var d := BackupDir(name);
    var keys := set p | p in ps && p in project && !Skipped(p) :: d + p;
    map q | q in keys :: project[q[|d|..]]
  }

  /** A backup into a new directory of a well-formed project copies exactly the files no
      component keeps out, and changes nothing else. */
  lemma FreshBackup(project: Tree, walk: seq<Path>, name: string)
    requires WellFormed(project) && Enumerates(walk, project)
    requires DirCreatable(project, BackupDir(name)) && !IsDir(project, BackupDir(name))
    ensures Backup(project, walk, name) == project + Copies(project, name, project.Keys)
  {
    BackupPrefix(project, walk, name, |walk|, Backuper(name));
    WalkedAll(walk, project);
  }

  /** The backup loop `step` runs over the walk of a well-formed project, into a new
      directory. */
  ghost predicate IntoNewBackup(project: Tree, walk: seq<Path>, name: string, step: (Tree, Path) -> Option<Tree>) {
    WellFormed(project) && Enumerates(walk, project) && IsBackupStep(step, name)
    && DirCreatable(project, BackupDir(name)) && !IsDir(project, BackupDir(name))
  }

  /** The backup loop after any prefix of the walk of a well-formed project, into a new
      directory. */
  lemma {:induction false} BackupPrefix(project: Tree, walk: seq<Path>, name: string, n: nat,
                                        step: (Tree, Path) -> Option<Tree>)
    requires IntoNewBackup(project, walk, name, step) && n <= |walk|
    ensures Steps(step, walk, n, project) == Some(project + Copies(project, name, Walked(walk, n)))
    decreases n
  {
    if n > 0 {
      BackupPrefix(project, walk, name, n - 1, step);
      BackupPrefixStep(project, walk, name, n - 1, step);
    } else {
      assert Walked(walk, 0) == {};
      assert Copies(project, name, {}) == map[];
      assert project + map[] == project;
    }
  }

  /** The step from `i` to `i + 1` of `BackupPrefix`. */
  lemma BackupPrefixStep(project: Tree, walk: seq<Path>, name: string, i: nat,
                         step: (Tree, Path) -> Option<Tree>)
    requires IntoNewBackup(project, walk, name, step) && i < |walk|
    requires Steps(step, walk, i, project) == Some(project + Copies(project, name, Walked(walk, i)))
    ensures Steps(step, walk, i + 1, project) == Some(project + Copies(project, name, Walked(walk, i + 1)))
  {
    var acc := project + Copies(project, name, Walked(walk, i));
    StepsAdvance(step, walk, project, i, acc, step(acc, walk[i]));
    WalkedNext(walk, i);
    BackupStepOnCopies(project, name, Walked(walk, i), walk[i]);
    assert step(acc, walk[i]) == BackupStep(name, acc, walk[i]);
  }

  /** One step of the backup loop, on what the earlier steps copied. */
  lemma BackupStepOnCopies(project: Tree, name: string, ps: set<Path>, p: Path)
    requires WellFormed(project) && p in project
    requires DirCreatable(project, BackupDir(name)) && !IsDir(project, BackupDir(name))
    ensures BackupStep(name, project + Copies(project, name, ps), p) == Some(project + Copies(project, name, ps + {p}))
  {
    var copies := Copies(project, name, ps);
    if Skipped(p) {
      assert Copies(project, name, ps + {p}) == copies;
    } else {
      var dst := BackupDir(name) + p;
      var acc := project + copies;
      OutsideBackup(project, name, ps, p);
      assert acc[p] == project[p];
      CopyFits(project, name, ps, p);
      assert CopyFile(acc, project[p], Name(p), dst) == Some(acc[dst := project[p]]);
      CopiesAdd(project, name, ps, p);
      assert dst !in project by { assert Below(BackupDir(name), dst); }
      UnionUpdate(project, copies, dst, project[p]);
    }
  }

  /** Updating a key the left map lacks updates the right one. */
  lemma UnionUpdate(a: Tree, b: Tree, k: Path, v: Bytes)
    requires k !in a
    ensures (a + b)[k := v] == a + b[k := v]
  {
  }

  /** The project's own files are not among the copies. */
  lemma OutsideBackup(project: Tree, name: string, ps: set<Path>, p: Path)
    requires WellFormed(project) && p in project && !IsDir(project, BackupDir(name))
    ensures p !in Copies(project, name, ps)
  {
    forall r | r in project ensures BackupDir(name) + r != p {
      assert r != [];
      assert !Below(BackupDir(name), p);
      assert (BackupDir(name) + r)[..|BackupDir(name)|] == BackupDir(name);
    }
  }

  /** Copying one more file adds its copy. */
  lemma CopiesAdd(project: Tree, name: string, ps: set<Path>, p: Path)
    requires p in project && !Skipped(p)
    ensures Copies(project, name, ps + {p}) == Copies(project, name, ps)[BackupDir(name) + p := project[p]]
  {
    assert (BackupDir(name) + p)[|BackupDir(name)|..] == p;
  }

  /** The backup copy of a file can be written: no file stands on its way, and it is not
      a directory. */
  lemma CopyFits(project: Tree, name: string, ps: set<Path>, p: Path)
    requires WellFormed(project) && p in project
    requires DirCreatable(project, BackupDir(name)) && !IsDir(project, BackupDir(name))
    ensures ParentsCreatable(project + Copies(project, name, ps), BackupDir(name) + p)
    ensures !IsDir(project + Copies(project, name, ps), BackupDir(name) + p)
  {
    var d := BackupDir(name);
    var dst := d + p;
    var acc := project + Copies(project, name, ps);
    forall k | 0 < k < |dst| ensures dst[..k] !in acc {
      forall r | r in project ensures d + r != dst[..k] {
        assert |d + r| > |d| by { assert r != []; }
        if k > |d| {
          assert !Below(r, p);
          assert (d + r)[|d|..] == r;
          assert dst[..k][|d|..] == p[..k - |d|];
        }
      }
      if k <= |d| {
        assert dst[..k] == d[..k];
      } else {
        assert Below(d, dst[..k]) by { assert dst[..k][..|d|] == d; }
      }
    }
    forall q | q in acc ensures !Below(dst, q) {
      if q in project {
        assert !Below(d, q);
        if |q| > |dst| {
          assert q[..|dst|][..|d|] == q[..|d|];
          assert dst[..|d|] == d;
        }
      } else {
        var r :| r in project && !Skipped(r) && d + r == q;
        assert !Below(p, r);
        if |r| > |p| {
          assert q[..|dst|] == d + r[..|p|];
          assert (d + r[..|p|])[|d|..] == r[..|p|];
          assert dst[|d|..] == p;
        }
      }
    }
  }

  // ---------------------------------------------------------------------------
  // The command
  // ---------------------------------------------------------------------------

  /** How the body of `update template` ends: it runs to the end, raises
      `typer.Exit(code)`, or raises another exception. */
  datatype Ending = Completed | Exited(code: int) | Failed(error: string)

  /** Reading the metadata file: `json.load` of its UTF-8 text, whose result must be an
      object for `metadata.get` to work. */
  function ReadMetadata(files: Tree, codec: Codec): Outcome<map<string, Json>> {
    if MetadataPath !in files then Raised("IsADirectoryError")
    else
      match codec.decode(files[MetadataPath])
      case None => Raised("UnicodeDecodeError")
      case Some(text) =>
        match codec.parse(text)
        case None => Raised("JSONDecodeError")
        case Some(JObj(fields)) => Returned(fields)
        case Some(_) => Raised("AttributeError")
  }

  /** The metadata after a successful update: the new `version` and `last_updated`, every
      other entry kept. */
  function RewriteMetadata(metadata: map<string, Json>, version: string, stamp: string): (r: map<string, Json>)
    ensures r.Keys == metadata.Keys + {"version", "last_updated"}
    ensures r["version"] == JStr(version) && r["last_updated"] == JStr(stamp)
    ensures forall k :: k in metadata && k != "version" && k != "last_updated" ==> r[k] == metadata[k]
  {
    metadata["version" := JStr(version)]["last_updated" := JStr(stamp)]
  }

  /** What `json.dump(metadata, f, indent=2, ensure_ascii=False)` writes. */
  function MetadataBytes(metadata: map<string, Json>, codec: Codec): Bytes {
    codec.encode(codec.dump(JObj(metadata)))
  }

  /** The command up to its first write: how it ends when it stops before writing
      anything, or `None` when it goes on to back up and apply. The metadata file must
      exist; a version equal to the current one (`unknown` when missing) needs
      `confirmSame`; the template must resolve; there must be changes; a dry run stops
      here; and the changes need `confirmApply`. */
  function Precheck(project: Option<Tree>, version: string, dryRun: bool, confirmSame: bool, confirmApply: bool,
                    resolved: Option<ProjectGenerator.Snapshot>, codec: Codec, digest: Bytes -> string)
    : Option<Ending>
  {
    if project.None? || !Exists(project.value, MetadataPath) then Some(Exited(1))
    else
      match ReadMetadata(project.value, codec)
      case Raised(e) => Some(Failed(e))
      case Returned(metadata) =>
        if JStr(version) == Get(metadata, "version", JStr("unknown")) && !confirmSame then Some(Exited(0))
        else if resolved.None? then Some(Exited(1))
        else if Analysis(resolved.value.files, resolved.value.walk, project.value,
                         Get(metadata, "protected_files", JArr([])), codec, digest) == [] then Some(Exited(0))
        else if dryRun then Some(Exited(0))
        else if !confirmApply then Some(Exited(0))
        else None
  }

  /** `template(project_path, version, force, dry_run)`. `project` is the project
      directory's files (`None` when it does not exist), `projectName` its name, `walk`
      the order in which `rglob` lists its files, `resolved` what the template lookup
      returns, `confirmSame` and `confirmApply` the answers to the two prompts, `digest`
      MD5, `show` Python's `str` of a JSON value and `stamp` the timestamp. Before its
      first write the command ends as `Precheck` says and changes nothing; after it, the
      project is backed up and the template applied, and the metadata is rewritten only
      when applying succeeded. */
  method UpdateTemplate(project: Option<Tree>, projectName: string, version: string, force: bool, dryRun: bool,
                        confirmSame: bool, confirmApply: bool, resolved: Option<ProjectGenerator.Snapshot>,
                        walk: seq<Path>, env: Env, digest: Bytes -> string, show: Json -> string, stamp: string)
    returns (ending: Ending, after: Option<Tree>)
    ensures var pre := Precheck(project, version, dryRun, confirmSame, confirmApply, resolved, env.codec, digest);
            pre.Some? ==> ending == pre.value && after == project
    ensures Precheck(project, version, dryRun, confirmSame, confirmApply, resolved, env.codec, digest).None? ==>
              var metadata := ReadMetadata(project.value, env.codec).value;
              var template := resolved.value;
              var step := Applier(Actions(Get(metadata, "protected_files", JArr([])), force), template.files,
                                  UpdateContext(projectName, metadata), env);
              var backedUp := Backup(project.value, walk, BackupName(metadata, show));
              var applied := Reached(step, template.walk, |template.walk|, backedUp);
              if Steps(step, template.walk, |template.walk|, backedUp).None? then
                ending == Exited(1) && after == Some(applied)
              else
                var written := WriteFile(applied, MetadataPath,
                                         MetadataBytes(RewriteMetadata(metadata, version, stamp), env.codec));
                if written.None? then ending.Failed? && after == Some(applied)
                else ending == Completed && after == written
  {
    after := project;
    if project.None? || !Exists(project.value, MetadataPath) {
      return Exited(1), after;
    }
    var files := project.value;
    var read := ReadMetadata(files, env.codec);
    if read.Raised? {
      return Failed(read.error), after;
    }
    var metadata := read.value;
    if JStr(version) == Get(metadata, "version", JStr("unknown")) && !confirmSame {
      return Exited(0), after;
    }
    if resolved.None? {
      return Exited(1), after;
    }
    var template := resolved.value;
    var changes := AnalyzeChanges(template.files, template.walk, files, metadata, env.codec, digest);
    if changes == [] {
      return Exited(0), after;
    }
    if dryRun || !confirmApply {
      return Exited(0), after;
    }
    var backedUp := CreateBackup(files, walk, BackupName(metadata, show));
    var ok, applied := ApplyUpdate(template.files, template.walk, backedUp, projectName, metadata, force, env);
    after := Some(applied);
    if !ok {
      return Exited(1), after;
    }
    var rewritten := RewriteMetadata(metadata, version, stamp);
    var written := WriteFile(applied, MetadataPath, MetadataBytes(rewritten, env.codec));
    if written.None? {
      return Failed("OSError"), after;
    }
    after := written;
    ending := Completed;
  }

  /** A dry run, and any run whose changes are not confirmed, writes nothing. */
  lemma DryRunWritesNothing(project: Option<Tree>, version: string, dryRun: bool, confirmSame: bool,
                            confirmApply: bool, resolved: Option<ProjectGenerator.Snapshot>, codec: Codec,
                            digest: Bytes -> string)
    requires dryRun || !confirmApply
    ensures Precheck(project, version, dryRun, confirmSame, confirmApply, resolved, codec, digest).Some?
  {
  }

  /** A project without `.agent/template/metadata.json` is refused with status 1. Project
      generation writes its metadata to `.agent/metadata.json` and leaves that path as it
      was, so a generated project is refused unless its template supplied the file. */
  lemma UnmarkedProjectRefused(files: Tree, info: Json, version: string, dryRun: bool, confirmSame: bool,
                               confirmApply: bool, resolved: Option<ProjectGenerator.Snapshot>, codec: Codec,
                               digest: Bytes -> string)
    requires !Exists(files, MetadataPath)
    ensures Precheck(Some(files), version, dryRun, confirmSame, confirmApply, resolved, codec, digest)
            == Some(Exited(1))
    ensures CreateTemplateMetadata(files, info, codec).Some? ==>
              SameAt(CreateTemplateMetadata(files, info, codec).value, files, MetadataPath)
  {
  }

  /** After a successful update, reading the metadata back gives the rewritten record, so
      the next update starts from the new version. */
  lemma RewrittenMetadataReadBack(applied: Tree, metadata: map<string, Json>, version: string, stamp: string,
                                  codec: Codec)
    requires WriteFile(applied, MetadataPath, MetadataBytes(RewriteMetadata(metadata, version, stamp), codec)).Some?
    requires codec.decode(MetadataBytes(RewriteMetadata(metadata, version, stamp), codec))
             == Some(codec.dump(JObj(RewriteMetadata(metadata, version, stamp))))
    requires codec.parse(codec.dump(JObj(RewriteMetadata(metadata, version, stamp))))
             == Some(JObj(RewriteMetadata(metadata, version, stamp)))
    ensures var written := WriteFile(applied, MetadataPath,
                                     MetadataBytes(RewriteMetadata(metadata, version, stamp), codec)).value;
            && ReadMetadata(written, codec) == Returned(RewriteMetadata(metadata, version, stamp))
            && Get(ReadMetadata(written, codec).value, "version", JStr("unknown")) == JStr(version)
  {
  }

  /** The exit status as written: the handler `except Exception` also catches each
      `typer.Exit` raised inside the `try` (click's `Exit` is a `RuntimeError`) and exits
      with 1 instead, so only a run to the end exits with 0. */
  function ExitStatusAsWritten(e: Ending): int {
    if e.Completed? then 0 else 1
  }

  /** The exit status the code asks for with each `typer.Exit(code)`. */
  function ExitStatus(e: Ending): int {
    match e
    case Completed => 0
    case Exited(code) => code
    case Failed(_) => 1
  }

  /** As written, a dry run that finds changes ends with exit status 1, like a failure. */
  lemma DryRunStatusAsWritten(files: Tree, version: string, confirmSame: bool, confirmApply: bool,
                              resolved: Option<ProjectGenerator.Snapshot>, codec: Codec, digest: Bytes -> string)
    requires Exists(files, MetadataPath) && ReadMetadata(files, codec).Returned?
    requires JStr(version) != Get(ReadMetadata(files, codec).value, "version", JStr("unknown"))
    requires resolved.Some?
    requires Analysis(resolved.value.files, resolved.value.walk, files,
                      Get(ReadMetadata(files, codec).value, "protected_files", JArr([])), codec, digest) != []
    ensures var pre := Precheck(Some(files), version, true, confirmSame, confirmApply, resolved, codec, digest);
            pre == Some(Exited(0)) && ExitStatusAsWritten(pre.value) == 1
  {
  }

  /** With the status each `typer.Exit` asks for, the same dry run exits with 0, and only
      the failures exit with 1. */
  lemma DryRunStatus(files: Tree, version: string, confirmSame: bool, confirmApply: bool,
                     resolved: Option<ProjectGenerator.Snapshot>, codec: Codec, digest: Bytes -> string)
    requires Exists(files, MetadataPath) && ReadMetadata(files, codec).Returned?
    requires JStr(version) != Get(ReadMetadata(files, codec).value, "version", JStr("unknown"))
    requires resolved.Some?
    requires Analysis(resolved.value.files, resolved.value.walk, files,
                      Get(ReadMetadata(files, codec).value, "protected_files", JArr([])), codec, digest) != []
    ensures var pre := Precheck(Some(files), version, true, confirmSame, confirmApply, resolved, codec, digest);
            pre == Some(Exited(0)) && ExitStatus(pre.value) == 0
    ensures forall e: Ending :: ExitStatus(e) == 1 <==> e.Failed? || e == Exited(1)
  {
  }
}
