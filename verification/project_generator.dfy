/** Creating a project from a template: its files are copied or rendered, the protected
    files are cached under `.agent/template` and linked from the project root, and the
    project metadata is written. */
module ProjectGenerator {
  import opened Base
  import opened Json
  import opened Strings
  import opened Paths
  import opened Constants
  import opened FileUtils
  import opened Templates

  // ---------------------------------------------------------------------------
  // Copying the template's files
  // ---------------------------------------------------------------------------

  /** The names that project generation never copies. */
  const CopyExcludes: seq<string> :=
    [".git", "__pycache__", "*.pyc", ".DS_Store", "Thumbs.db", "template.yaml", "template.yml", ".template"]

  /** The suffixes of the files that go through the template engine; every other file is
      copied byte for byte. */
  const RenderedSuffixes: seq<string> :=
    [".md", ".txt", ".py", ".js", ".ts", ".html", ".css", ".json", ".yaml", ".yml", ".toml"]

  /** What happens to one template file. */
  datatype Plan = Skip | Render | Copy

  function PlanFor(p: Path): Plan {
    if |p| == 0 || MatchesAny(p, CopyExcludes) || Name(p) in ProtectedFiles then Skip
    else if Suffix(Name(p)) in RenderedSuffixes then Render
    else Copy
  }

  /** The bytes a template file becomes in the project: rendered text, or the same bytes;
      `None` when the file is not UTF-8 or the template engine raises. */
  function Produced(plan: Path -> Plan, template: Tree, p: Path, context: map<string, Json>, env: Env): Option<Bytes>
    requires p in template
  {
    if plan(p) == Render then
      match env.codec.decode(template[p])
      case None => None
      case Some(text) =>
        match SubstitutePlaceholders(text, context, env.today, env.render)
        case None => None
        case Some(out) => Some(env.codec.encode(out))
    else Some(template[p])
  }

  /** One iteration of the copy loop, on the project's files. */
  function CopyStep(plan: Path -> Plan, template: Tree, context: map<string, Json>, env: Env, acc: Tree, p: Path): Option<Tree> {
    if p !in template then None  // the walk lists only the template's files
    else if plan(p) == Skip then Some(acc)
    else if |p| == 0 then None  // the project directory itself cannot be written to
    else if plan(p) == Render then ProcessTemplateFile(acc, template[p], p, context, env.today, env.render, env.codec)
    else CopyFile(acc, template[p], Name(p), p)
  }

  /** The copy loop's iteration as a function value. */
  function Stepper(plan: Path -> Plan, template: Tree, context: map<string, Json>, env: Env): (Tree, Path) -> Option<Tree> {
    (acc, p) => CopyStep(plan, template, context, env, acc, p)
  }

  /** The project's files after the whole copy loop. */
  function CopyAll(template: Tree, walk: seq<Path>, acc: Tree, context: map<string, Json>, env: Env)
    : Option<Tree>
  {
    Steps(Stepper(PlanFor, template, context, env), walk, |walk|, acc)
  }

  /** `_copy_template_files`: goes through the template's files in `walk` order, skips the
      excluded and the protected ones, renders the text files and copies the rest; it
      reports `false` as soon as one of them raises. */
  method CopyTemplateFiles(template: Tree, walk: seq<Path>, project: Tree, context: map<string, Json>, env: Env)
    returns (ok: bool, out: Tree)
    requires [] !in template
    requires forall i :: 0 <= i < |walk| ==> walk[i] in template
    ensures ok <==> CopyAll(template, walk, project, context, env).Some?
    ensures ok ==> out == CopyAll(template, walk, project, context, env).value
  {
    ok, out := CopyLoop(template, walk, project, context, env, Stepper(PlanFor, template, context, env));
  }

  /** `step` is the copy loop's body: it does to the files what `CopyStep` does. */
  ghost predicate IsCopyStep(step: (Tree, Path) -> Option<Tree>, template: Tree, context: map<string, Json>, env: Env) {
    forall acc, p {:trigger CopyStep(PlanFor, template, context, env, acc, p)} ::
      step(acc, p) == CopyStep(PlanFor, template, context, env, acc, p)
  }

  /** The copy loop itself, proved against its body `step` as a function. */
  method CopyLoop(template: Tree, walk: seq<Path>, project: Tree, context: map<string, Json>, env: Env,
                  ghost step: (Tree, Path) -> Option<Tree>)
    returns (ok: bool, out: Tree)
    requires [] !in template
    requires forall i :: 0 <= i < |walk| ==> walk[i] in template
    requires IsCopyStep(step, template, context, env)
    ensures ok <==> Steps(step, walk, |walk|, project).Some?
    ensures ok ==> out == Steps(step, walk, |walk|, project).value
  {
    out := project;
    var i := 0;
    while i < |walk|
      invariant 0 <= i <= |walk|
      invariant Steps(step, walk, i, project) == Some(out)
    {
      var next := CopyOne(template, walk, i, walk[i], project, out, context, env, step);
      if next.None? {
        return false, out;
      }
      out, i := next.value, i + 1;
    }
    ok := true;
  }

  /** The body of the copy loop for the `i`th file of the walk: the files after it, or
      `None` when it raises, which ends the whole loop. */
  method CopyOne(template: Tree, ghost walk: seq<Path>, i: nat, item: Path, ghost project: Tree, out: Tree,
                 context: map<string, Json>, env: Env, ghost step: (Tree, Path) -> Option<Tree>)
    returns (next: Option<Tree>)
    requires [] !in template && i < |walk| && item == walk[i] && item in template
    requires IsCopyStep(step, template, context, env)
    requires Steps(step, walk, i, project) == Some(out)
    ensures next == Steps(step, walk, i + 1, project)
    ensures next.None? ==> Steps(step, walk, |walk|, project).None?
  {
    next := ProcessOrCopy(template, item, out, context, env);
    StepsAdvance(step, walk, project, i, out, next);
  }

  /** What the copy loop does with one file: nothing, render it, or copy it. */
  method ProcessOrCopy(template: Tree, item: Path, out: Tree, context: map<string, Json>, env: Env)
    returns (next: Option<Tree>)
    requires [] !in template && item in template
    ensures next == CopyStep(PlanFor, template, context, env, out, item)
  {
    var plan := Classify(item);
    match plan
    case Skip => next := Some(out);
    case Render =>
      next := ProcessTemplateFile(out, template[item], item, context, env.today, env.render, env.codec);
    case Copy => next := CopyFile(out, template[item], Name(item), item);
  }

  /** The tests of the copy loop, in the source's order: excluded, protected (linked
      later), rendered by suffix, copied otherwise. */
  method Classify(item: Path) returns (plan: Plan)
    requires |item| > 0
    ensures plan == PlanFor(item)
  {
    if MatchesAny(item, CopyExcludes) {
      plan := Skip;
    } else if Name(item) in ProtectedFiles {
      plan := Skip;
    } else if Suffix(Name(item)) in RenderedSuffixes {
      plan := Render;
    } else {
      plan := Copy;
    }
  }

  /** Every file among `ps` that is rendered renders without raising. */
  predicate AllRender(plan: Path -> Plan, template: Tree, ps: set<Path>, context: map<string, Json>, env: Env) {
    forall p :: p in ps && p in template && plan(p) == Render ==> Produced(plan, template, p, context, env).Some?
  }

  /** What the copy loop leaves in an empty project after the files `ps`: each of them
      that is neither excluded nor protected, at the same relative path. */
  function Outputs(plan: Path -> Plan, template: Tree, ps: set<Path>, context: map<string, Json>, env: Env): Tree {
    map p | p in ps && p in template && plan(p) != Skip && Produced(plan, template, p, context, env).Some?
      :: (Produced(plan, template, p, context, env).value)
  }

  /** A file of a well-formed template can be written into a project holding only other
      files of that template. */
  lemma Fits(template: Tree, acc: Tree, p: Path)
    requires WellFormed(template) && p in template && acc.Keys <= template.Keys
    ensures |p| > 0 && ParentsCreatable(acc, p) && !IsDir(acc, p)
  {
    forall k | 0 < k < |p| ensures p[..k] !in acc {
      assert Below(p[..k], p);
    }
    forall q | q in acc ensures !Below(p, q) {
      assert q in template;
    }
  }

  /** The copy loop on an empty project, after any prefix of the walk of a well-formed
      template: it raises exactly when one of the rendered files does not render, and
      otherwise holds exactly the produced files. */
  lemma {:induction false} CopyPrefixFromEmpty(plan: Path -> Plan, template: Tree, walk: seq<Path>, n: nat,
                                               context: map<string, Json>, env: Env)
    requires WellFormed(template) && n <= |walk|
    requires forall i :: 0 <= i < |walk| ==> walk[i] in template
    requires forall i, j :: 0 <= i < j < |walk| ==> walk[i] != walk[j]
    ensures Steps(Stepper(plan, template, context, env), walk, n, map[])
         == if AllRender(plan, template, Walked(walk, n), context, env)
            then Some(Outputs(plan, template, Walked(walk, n), context, env)) else None
    decreases n
  {
    if n > 0 {
      var p := walk[n - 1];
      CopyPrefixFromEmpty(plan, template, walk, n - 1, context, env);
      WalkedNext(walk, n - 1);
      if AllRender(plan, template, Walked(walk, n - 1), context, env) {
        CopyStepOnOutputs(plan, template, Walked(walk, n - 1), p, context, env);
      } else {
        assert !AllRender(plan, template, Walked(walk, n), context, env);
      }
    }
  }

  /** One step of the copy loop, on what the earlier steps produced from an empty project. */
  lemma CopyStepOnOutputs(plan: Path -> Plan, template: Tree, ps: set<Path>, p: Path, context: map<string, Json>, env: Env)
    requires WellFormed(template) && ps <= template.Keys && p in template && p !in ps
    requires AllRender(plan, template, ps, context, env)
    ensures CopyStep(plan, template, context, env, Outputs(plan, template, ps, context, env), p)
         == if AllRender(plan, template, ps + {p}, context, env)
            then Some(Outputs(plan, template, ps + {p}, context, env)) else None
  {
    var before := Outputs(plan, template, ps, context, env);
    Fits(template, before, p);
    if plan(p) == Skip {
      assert Outputs(plan, template, ps + {p}, context, env) == before;
    } else if Produced(plan, template, p, context, env).None? {
      assert !AllRender(plan, template, ps + {p}, context, env);
    } else {
      OutputsAdd(plan, template, ps, p, context, env);
      if plan(p) == Copy {
        assert CopyTarget(before, Name(p), p) == p;
      }
    }
  }

  /** A produced file joins the outputs at its own path. */
  lemma OutputsAdd(plan: Path -> Plan, template: Tree, ps: set<Path>, p: Path, context: map<string, Json>, env: Env)
    requires p in template && plan(p) != Skip && Produced(plan, template, p, context, env).Some?
    ensures Outputs(plan, template, ps + {p}, context, env)
         == Outputs(plan, template, ps, context, env)[p := Produced(plan, template, p, context, env).value]
  {
  }

  /** Copying a well-formed template into an empty project: it succeeds exactly when every
      rendered file renders, and then the project holds the template's outputs. */
  lemma CopyIntoEmptyProject(plan: Path -> Plan, template: Tree, walk: seq<Path>, context: map<string, Json>, env: Env)
    requires WellFormed(template) && Enumerates(walk, template)
    ensures Steps(Stepper(plan, template, context, env), walk, |walk|, map[]).Some?
        <==> AllRender(plan, template, template.Keys, context, env)
    ensures Steps(Stepper(plan, template, context, env), walk, |walk|, map[]).Some? ==>
              Steps(Stepper(plan, template, context, env), walk, |walk|, map[]).value
              == Outputs(plan, template, template.Keys, context, env)
  {
    CopyPrefixFromEmpty(plan, template, walk, |walk|, context, env);
    WalkedAll(walk, template);
  }

  /** The outputs of a template whose rendered files all render: exactly its files that are
      neither excluded nor protected, each at its own relative path, rendered or with the
      same bytes. */
  lemma TemplateOutputs(template: Tree, context: map<string, Json>, env: Env)
    requires AllRender(PlanFor, template, template.Keys, context, env)
    ensures var out := Outputs(PlanFor, template, template.Keys, context, env);
            && (forall p :: p in out <==> p in template && PlanFor(p) != Skip)
            && (forall p :: p in out ==> !MatchesAny(p, CopyExcludes) && Name(p) !in ProtectedFiles)
            && (forall p :: p in out && PlanFor(p) == Copy ==> out[p] == template[p])
            && (forall p :: p in out && PlanFor(p) == Render ==> Some(out[p]) == Produced(PlanFor, template, p, context, env))
  {
    var out := Outputs(PlanFor, template, template.Keys, context, env);
    forall p | p in out ensures !MatchesAny(p, CopyExcludes) && Name(p) !in ProtectedFiles {
      NotSkipped(p);
    }
  }

  /** A file that is not skipped is neither excluded nor protected. */
  lemma NotSkipped(p: Path)
    requires PlanFor(p) != Skip
    ensures |p| > 0 && !MatchesAny(p, CopyExcludes) && Name(p) !in ProtectedFiles
  {
  }

  // ---------------------------------------------------------------------------
  // Protected files
  // ---------------------------------------------------------------------------

  /** The generated project: its files, and which of their paths are symbolic links. */
  datatype Project = Project(files: Tree, links: set<Path>)

  /** Where a protected file is cached: `.agent/template/<name>`. */
  function CachePath(name: string): Path {
    [AgentDir, TemplateDir, name]
  }

  /** The names among `names` that exist at the template's top level, in order. */
  function PresentProtected(template: Tree, names: seq<string>): (r: seq<string>)
    ensures forall n :: n in r <==> n in names && Exists(template, [n])
    ensures |r| <= |names|
  {
    if |names| == 0 then []
    else
      var front := PresentProtected(template, names[..|names| - 1]);
      var n := names[|names| - 1];
      assert names == names[..|names| - 1] + [n];
      if Exists(template, [n]) then front + [n] else front
  }

  /** The paths that protecting `n` can write or remove: the cached copy and the link, or,
      when a directory stands in the way, a file of that name inside it. */
  predicate TouchedBy(q: Path, n: string) {
    q == [n] || q == [n, n] || q == CachePath(n) || q == CachePath(n) + [n]
  }

  /** The protected file `n` has landed: cached under `.agent/template` and present at the
      project root with the template's bytes, as a link exactly when linking succeeded. */
  predicate Landed(files: Tree, links: set<Path>, template: Tree, n: string, linked: bool) {
    && [n] in template
    && CachePath(n) in files && files[CachePath(n)] == template[[n]]
    && [n] in files && files[[n]] == template[[n]]
    && ([n] in links <==> linked)
  }

  /** Nothing stands where protecting `n` needs to create a file. */
  predicate Unobstructed(files: Tree, n: string) {
    !IsDir(files, [n]) && !IsDir(files, CachePath(n))
  }

  /** The body of `_create_protected_files`'s loop for one name present in the template:
      copy it to the cache, link the root entry to the cached copy, and on a failed link
      copy the cached file there instead. */
  method ProtectOne(template: Tree, files: Tree, links: set<Path>, n: string, linked: bool)
    returns (ok: bool, files': Tree, links': set<Path>)
    requires n in ProtectedFiles
    ensures forall q :: !TouchedBy(q, n) ==> SameAt(files', files, q)
    ensures forall l :: l != [n] ==> (l in links' <==> l in links)
    ensures [n] !in template ==> !ok
    ensures [n] in template && ParentsCreatable(files, CachePath(n)) && Unobstructed(files, n) ==> ok
    ensures ok && Unobstructed(files, n) ==> Landed(files', links', template, n, linked)
  {
    files', links' := files, links;
    if [n] !in template {
      return false, files', links';  // copying a directory raises
    }
    var cached := CopyFile(files, template[[n]], n, CachePath(n));
    if cached.None? {
      return false, files', links';
    }
    files' := cached.value;
    assert TouchedBy(CopyTarget(files, n, CachePath(n)), n);
    assert forall q :: !TouchedBy(q, n) ==> SameAt(files', files, q);
    assert CachePath(n)[0] != n;
    ghost var unobstructed := Unobstructed(files, n);
    if unobstructed {
      assert CachePath(n) in files' && files'[CachePath(n)] == template[[n]];
      forall q | q in files' ensures !Below([n], q) {
        if q != CachePath(n) {
          assert q in files;
        }
      }
    }
    ghost var cachedFiles := files';
    ok, files', links' := LinkOrCopy(files', links', n, linked);
    forall q | !TouchedBy(q, n) ensures SameAt(files', files, q) {
      assert SameAt(files', cachedFiles, q) && SameAt(cachedFiles, files, q);
    }
  }

  /** The rest of the loop body: link the root entry to the cached copy, and when that
      fails copy the cached file there instead. */
  method LinkOrCopy(files: Tree, links: set<Path>, n: string, linked: bool)
    returns (ok: bool, files': Tree, links': set<Path>)
    ensures forall q :: q != [n] && q != [n, n] ==> SameAt(files', files, q)
    ensures forall l :: l != [n] ==> (l in links' <==> l in links)
    ensures CachePath(n) in files && CachePath(n) != [n] && !IsDir(files, [n]) ==>
              && ok && CachePath(n) in files' && files'[CachePath(n)] == files[CachePath(n)]
              && [n] in files' && files'[[n]] == files[CachePath(n)] && ([n] in links' <==> linked)
  {
    var afterLink := CreateSymlink(files, links, CachePath(n), [n], linked);
    assert ParentsCreatable(files, [n]);
    files', links' := afterLink.1, afterLink.2;
    if !afterLink.0 {
      if CachePath(n) !in files' {
        return false, files', links';  // the cached copy cannot be read
      }
      var copied := CopyFile(files', files'[CachePath(n)], n, [n]);
      if copied.None? {
        return false, files', links';
      }
      files' := copied.value;
    }
    ok := true;
  }

  /** The present names of a prefix one name longer. */
  lemma PresentProtectedNext(template: Tree, names: seq<string>, i: nat)
    requires i < |names|
    ensures PresentProtected(template, names[..i + 1])
         == PresentProtected(template, names[..i]) + (if Exists(template, [names[i]]) then [names[i]] else [])
  {
    assert names[..i + 1][..i] == names[..i];
  }

  /** The protected names are distinct and differ from the directories of the cache. */
  lemma ProtectedPrefix(i: nat)
    requires i < |ProtectedFiles|
    ensures ProtectedFiles[..i + 1] == ProtectedFiles[..i] + [ProtectedFiles[i]]
    ensures Elems(ProtectedFiles[..i + 1]) == Elems(ProtectedFiles[..i]) + {ProtectedFiles[i]}
    ensures ProtectedFiles[i] !in Elems(ProtectedFiles[..i])
    ensures AgentDir !in Elems(ProtectedFiles) && TemplateDir !in Elems(ProtectedFiles)
    ensures forall n :: n in Elems(ProtectedFiles[..i + 1]) ==> n in ProtectedFiles
    ensures forall n :: n in Elems(ProtectedFiles) ==> n in ProtectedFiles
  {
    assert ProtectedFiles[..i + 1] == ProtectedFiles[..i] + [ProtectedFiles[i]];
  }

  /** `_create_protected_files`: creates `.agent/template`, then for each protected name the
      template has at its top level caches and links it, and returns those names. A failed
      link falls back to a copy and is listed all the same; any other failure raises.
      `linkOk` says whether `os.symlink` succeeds for a name. */
  method CreateProtectedFiles(template: Tree, project: Project, linkOk: string -> bool)
    returns (r: Outcome<seq<string>>, out: Project)
    ensures !DirCreatable(project.files, [AgentDir, TemplateDir]) ==> r.Raised? && out == project
    ensures r.Returned? ==> r.value == PresentProtected(template, ProtectedFiles)
    ensures r.Returned? ==> forall n :: n in r.value ==> [n] in template
    ensures r.Returned? ==>
              forall n :: n in r.value && Unobstructed(project.files, n) ==>
                Landed(out.files, out.links, template, n, linkOk(n))
    ensures (DirCreatable(project.files, [AgentDir, TemplateDir]) && Protectable(template, project.files))
            ==> r.Returned?
    ensures forall q :: |q| == 0 || Name(q) !in ProtectedFiles ==> SameAt(out.files, project.files, q)
    ensures r.Returned? ==>
              forall q :: |q| >= 1 && q[0] == AgentDir && (|q| == 1 || q[1] != TemplateDir)
                ==> SameAt(out.files, project.files, q)
    ensures forall l :: (|l| != 1 || l[0] !in ProtectedFiles) ==> (l in out.links <==> l in project.links)
  {
    if !DirCreatable(project.files, [AgentDir, TemplateDir]) {
      return Raised("FileExistsError"), project;
    }
    assert [AgentDir, TemplateDir][..1] == [AgentDir];
    assert [AgentDir, TemplateDir][..2] == [AgentDir, TemplateDir];
    var ok, names;
    ok, names, out := ProtectAll(template, project, linkOk);
    if !ok {
      return Raised("OSError"), out;
    }
    r := Returned(names);
    ProtectedPrefix(0);
    OutsideTheCache(Elems(ProtectedFiles));
  }

  /** Protecting names never touches `.agent` itself or its entries outside `.agent/template`. */
  lemma OutsideTheCache(done: set<string>)
    requires AgentDir !in done
    ensures forall q :: |q| >= 1 && q[0] == AgentDir && (|q| == 1 || q[1] != TemplateDir) ==> !TouchedByAny(q, done)
  {
  }

  /** The loop of `_create_protected_files` over the protected names, once the cache
      directory stands: `ok` is false when a present name could not be cached or linked. */
  method ProtectAll(template: Tree, project: Project, linkOk: string -> bool)
    returns (ok: bool, names: seq<string>, out: Project)
    requires [AgentDir] !in project.files && [AgentDir, TemplateDir] !in project.files
    ensures ok ==> names == PresentProtected(template, ProtectedFiles)
    ensures ok ==> Progress(template, project, out, names, Elems(ProtectedFiles), linkOk)
    ensures !ok ==> !Protectable(template, project.files)
    ensures forall q :: |q| == 0 || Name(q) !in ProtectedFiles ==> SameAt(out.files, project.files, q)
    ensures forall l :: (|l| != 1 || l[0] !in ProtectedFiles) ==> (l in out.links <==> l in project.links)
  {
    out := project;
    names := [];
    ghost var done: set<string> := {};
    var i := 0;
    while i < |ProtectedFiles|
      invariant 0 <= i <= |ProtectedFiles|
      invariant names == PresentProtected(template, ProtectedFiles[..i])
      invariant done == Elems(ProtectedFiles[..i])
      invariant Progress(template, project, out, names, done, linkOk)
      invariant forall q :: |q| == 0 || Name(q) !in ProtectedFiles ==> SameAt(out.files, project.files, q)
      invariant forall l :: (|l| != 1 || l[0] !in ProtectedFiles) ==> (l in out.links <==> l in project.links)
    {
      var n := ProtectedFiles[i];
      ProtectedPrefix(i);
      PresentProtectedNext(template, ProtectedFiles, i);
      ok, out, names := ProtectNext(template, project, out, names, done, n, linkOk);
      if !ok {
        return;
      }
      done := done + {n};
      i := i + 1;
    }
    assert ProtectedFiles[..i] == ProtectedFiles;
    ok := true;
  }

  /** One iteration of `_create_protected_files`'s loop: a name absent from the template
      is passed over; a present one is cached and linked, and is listed unless that
      raises. */
  method ProtectNext(template: Tree, project: Project, out: Project, names: seq<string>, ghost done: set<string>,
                     n: string, linkOk: string -> bool)
    returns (ok: bool, out': Project, names': seq<string>)
    requires Progress(template, project, out, names, done, linkOk)
    requires n in ProtectedFiles && n !in done && AgentDir !in done && AgentDir != n && TemplateDir != n
    requires forall m :: m in done ==> m in ProtectedFiles
    ensures ok ==> Progress(template, project, out', names', done + {n}, linkOk)
    ensures ok ==> names' == names + (if Exists(template, [n]) then [n] else [])
    ensures forall q :: |q| == 0 || Name(q) !in ProtectedFiles ==> SameAt(out'.files, project.files, q)
    ensures forall l :: (|l| != 1 || l[0] !in ProtectedFiles) ==> (l in out'.links <==> l in project.links)
    ensures !ok ==> !Protectable(template, project.files)
  {
    if !Exists(template, [n]) {
      ProgressSkip(template, project, out, names, done, n, linkOk);
      ProgressFrame(project, out, done);
      return true, out, names;
    }
    UnobstructedKept(project.files, out.files, done, n);
    CacheParents(out.files, n);
    var files, links;
    ok, files, links := ProtectOne(template, out.files, out.links, n, linkOk(n));
    out' := Project(files, links);
    FrameAfter(project.files, out.files, out'.files, done, n);
    ProgressFrame(project, out', done + {n});
    names' := names + [n];
    if ok {
      ProgressStep(template, project, out, out', names, done, n, linkOk);
    }
  }

  /** Every protected name the template has is a file there, with nothing in the way in
      the project. */
  predicate Protectable(template: Tree, files: Tree) {
    forall n :: n in ProtectedFiles && Exists(template, [n]) ==> [n] in template && Unobstructed(files, n)
  }

  /** Some name in `done` touches `q`. */
  ghost predicate TouchedByAny(q: Path, done: set<string>) {
    exists n :: n in done && TouchedBy(q, n)
  }

  /** The state of `_create_protected_files` after the names in `done`, of which `names`
      were present: the cache directory still stands, nothing the processed names do not
      touch has changed, and each listed name has landed unless something stood in its
      way from the start. */
  ghost predicate Progress(template: Tree, base: Project, out: Project, names: seq<string>, done: set<string>,
                     linkOk: string -> bool)
  {
    && [AgentDir] !in out.files && [AgentDir, TemplateDir] !in out.files
    && (forall q :: !TouchedByAny(q, done) ==> SameAt(out.files, base.files, q))
    && (forall l :: (|l| != 1 || l[0] !in done) ==> (l in out.links <==> l in base.links))
    && (forall n :: n in names ==> [n] in template && n in done)
    && (forall n :: n in names && Unobstructed(base.files, n) ==> Landed(out.files, out.links, template, n, linkOk(n)))
  }

  /** A name absent from the template is passed over. */
  lemma ProgressSkip(template: Tree, base: Project, out: Project, names: seq<string>, done: set<string>,
                     n: string, linkOk: string -> bool)
    requires Progress(template, base, out, names, done, linkOk)
    ensures Progress(template, base, out, names, done + {n}, linkOk)
  {
  }

  /** Processing a present name keeps the progress and adds that name. */
  lemma ProgressStep(template: Tree, base: Project, before: Project, after: Project, names: seq<string>,
                     done: set<string>, n: string, linkOk: string -> bool)
    requires Progress(template, base, before, names, done, linkOk)
    requires n !in done && n != AgentDir && n != TemplateDir && [n] in template
    requires Unobstructed(before.files, n) <==> Unobstructed(base.files, n)
    requires forall q :: !TouchedBy(q, n) ==> SameAt(after.files, before.files, q)
    requires forall l :: l != [n] ==> (l in after.links <==> l in before.links)
    requires Unobstructed(before.files, n) ==> Landed(after.files, after.links, template, n, linkOk(n))
    ensures Progress(template, base, after, names + [n], done + {n}, linkOk)
  {
    assert !TouchedBy([AgentDir], n) && !TouchedBy([AgentDir, TemplateDir], n);
    FrameAfter(base.files, before.files, after.files, done, n);
    LandedKept(before, after, template, names, n, linkOk);
  }

  /** The cache directory standing, a cached copy's parents can be created. */
  lemma CacheParents(files: Tree, n: string)
    requires [AgentDir] !in files && [AgentDir, TemplateDir] !in files
    ensures ParentsCreatable(files, CachePath(n))
  {
    assert CachePath(n)[..1] == [AgentDir] && CachePath(n)[..2] == [AgentDir, TemplateDir];
  }

  /** The frame of the loop, one name further. */
  lemma FrameAfter(base: Tree, before: Tree, after: Tree, done: set<string>, n: string)
    requires forall q :: !TouchedByAny(q, done) ==> SameAt(before, base, q)
    requires forall q :: !TouchedBy(q, n) ==> SameAt(after, before, q)
    ensures forall q :: !TouchedByAny(q, done + {n}) ==> SameAt(after, base, q)
  {
    forall q | !TouchedByAny(q, done + {n}) ensures SameAt(after, base, q) {
      assert !TouchedBy(q, n) && !TouchedByAny(q, done);
    }
  }

  /** What the processed names left untouched is as it was; so are all paths that do not
      end in a protected name. */
  lemma ProgressFrame(base: Project, out: Project, done: set<string>)
    requires forall q :: !TouchedByAny(q, done) ==> SameAt(out.files, base.files, q)
    requires forall n :: n in done ==> n in ProtectedFiles
    ensures forall q :: |q| == 0 || Name(q) !in ProtectedFiles ==> SameAt(out.files, base.files, q)
  {
    TouchedHasName(done);
  }

  /** Whether `n` is obstructed has not changed while other names were processed. */
  lemma UnobstructedKept(base: Tree, files: Tree, done: set<string>, n: string)
    requires n !in done && n != AgentDir && AgentDir !in done
    requires forall q :: !TouchedByAny(q, done) ==> SameAt(files, base, q)
    ensures Unobstructed(files, n) <==> Unobstructed(base, n)
  {
    forall q | Below([n], q) || Below(CachePath(n), q)
      ensures SameAt(files, base, q)
    {
      forall m | m in done ensures !TouchedBy(q, m) {
        if Below([n], q) {
          assert q[0] == n;
        } else {
          assert q[2] == n && |q| > 3;
        }
      }
    }
  }

  /** What the names processed before `n` landed stays in place while `n` is processed. */
  lemma LandedKept(before: Project, after: Project, template: Tree, names: seq<string>,
                   n: string, linkOk: string -> bool)
    requires n != AgentDir
    requires forall q :: !TouchedBy(q, n) ==> SameAt(after.files, before.files, q)
    requires forall l :: l != [n] ==> (l in after.links <==> l in before.links)
    ensures forall m :: m in names && m != n && Landed(before.files, before.links, template, m, linkOk(m))
                        ==> Landed(after.files, after.links, template, m, linkOk(m))
  {
    forall m | m in names && m != n && Landed(before.files, before.links, template, m, linkOk(m))
      ensures Landed(after.files, after.links, template, m, linkOk(m))
    {
      assert !TouchedBy([m], n) && !TouchedBy(CachePath(m), n);
      assert SameAt(after.files, before.files, [m]) && SameAt(after.files, before.files, CachePath(m));
    }
  }

  /** Every path a protected name touches ends in that name. */
  lemma TouchedHasName(done: set<string>)
    ensures forall q :: TouchedByAny(q, done) ==> |q| > 0 && Name(q) in done
  {
  }

  // ---------------------------------------------------------------------------
  // Generating a project
  // ---------------------------------------------------------------------------

  /** What `get_template_with_version` hands over: the template's files and the order in
      which `rglob` lists them. */
  datatype Snapshot = Snapshot(files: Tree, walk: seq<Path>)

  predicate ValidSnapshot(s: Snapshot) {
    WellFormed(s.files) && Enumerates(s.walk, s.files)
  }

  /** The context after `context.update(...)`: the caller's values, with the project name,
      the version and the template name always set by the generator. */
  function GenerationContext(context: Option<map<string, Json>>, projectName: string, version: string,
                             templateName: string): (r: map<string, Json>)
    ensures r.Keys == context.GetOr(map[]).Keys + {"project_name", "template_version", "template_name"}
    ensures r["project_name"] == JStr(projectName)
    ensures r["template_version"] == JStr(version)
    ensures r["template_name"] == JStr(templateName)
    ensures forall k :: k in context.GetOr(map[]) && k !in {"project_name", "template_version", "template_name"}
                   ==> r[k] == context.GetOr(map[])[k]
  {
    context.GetOr(map[])
      + map["project_name" := JStr(projectName), "template_version" := JStr(version),
            "template_name" := JStr(templateName)]
  }

  /** The record `generate_project` stores in the project's metadata file. */
  function ProjectMetadata(version: string, templateName: string, createdAt: string, lastUpdated: string,
                           context: map<string, Json>, projectName: string, protected: seq<string>): Json
  {
    JObj(map[
      "version" := JStr(version),
      "template_type" := JStr(templateName),
      "created_at" := JStr(createdAt),
      "last_updated" := JStr(lastUpdated),
      "author" := Get(context, "author_name", JStr("")),
      "author_email" := Get(context, "author_email", JStr("")),
      "project_name" := JStr(projectName),
      "protected_files" := JArr(StrList(protected))])
  }

  /** `generate_project`. `projectExists` is whether the project directory exists already,
      `resolved` what the template lookup returned, `dirCreated` whether `create_directory`
      of the project directory succeeds (its `mkdir(parents=True)` raises when a file sits
      on the way), `createdAt` and `lastUpdated` the two clock readings; the project's files
      start empty. On any failure after the directory was created it is removed again, so a
      failed run leaves no project. */
  method GenerateProject(templateName: string, projectName: string, projectExists: bool,
                         resolved: Option<Snapshot>, dirCreated: bool, version: string,
                         context: Option<map<string, Json>>, env: Env, linkOk: string -> bool,
                         createdAt: string, lastUpdated: string)
    returns (ok: bool, project: Option<Project>)
    requires resolved.Some? ==> ValidSnapshot(resolved.value)
    ensures ok <==> project.Some?
    ensures projectExists || resolved.None? || !ValidateTemplate(resolved.value.files) ==> !ok
    ensures !dirCreated ==> !ok
    ensures !projectExists && resolved.Some? && ValidateTemplate(resolved.value.files) && dirCreated ==>
              var template := resolved.value.files;
              var ctx := GenerationContext(context, projectName, version, templateName);
              && (ok ==> Copyable(template, ctx, env))
              && (Copyable(template, ctx, env) && Protectable(template, Outputs(PlanFor, template, template.Keys, ctx, env))
                  ==> ok)
    ensures ok ==>
              var template := resolved.value.files;
              var ctx := GenerationContext(context, projectName, version, templateName);
              var files := project.value.files;
              && MetadataWritePath in files
              && files[MetadataWritePath]
                 == env.codec.encode(env.codec.dump(ProjectMetadata(version, templateName, createdAt, lastUpdated,
                                                                    ctx, projectName,
                                                                    PresentProtected(template, ProtectedFiles))))
              && (forall p :: p in template && PlanFor(p) != Skip && p != MetadataWritePath
                    ==> p in files && Some(files[p]) == Produced(PlanFor, template, p, ctx, env))
              && (forall n :: n in PresentProtected(template, ProtectedFiles) && !IsDir(template, CachePath(n))
                    ==> Landed(files, project.value.links, template, n, linkOk(n)))
  {
    if projectExists || resolved.None? {
      return false, None;
    }
    var template := resolved.value.files;
    if !ValidateTemplate(template) {
      return false, None;
    }
    if !dirCreated {
      return false, None;  // `except Exception`; the project directory does not exist to remove
    }
    var ctx := GenerationContext(context, projectName, version, templateName);
    CopyIntoEmptyProject(PlanFor, template, resolved.value.walk, ctx, env);
    var copiedOk, copied := CopyTemplateFiles(template, resolved.value.walk, map[], ctx, env);
    if !copiedOk {
      assert !AllRender(PlanFor, template, template.Keys, ctx, env);
      return false, None;
    }
    assert copied == Outputs(PlanFor, template, template.Keys, ctx, env);
    TemplateOutputs(template, ctx, env);
    ok, project := ProtectAndRecord(template, copied, version, templateName, createdAt, lastUpdated,
                                    ctx, projectName, env.codec, linkOk);
    if ok {
      CopiedFilesKept(template, ctx, env, copied, project.value.files);
    }
  }

  /** The rest of `generate_project` once the template's files are copied: the protected
      files, then the metadata file listing them. */
  method ProtectAndRecord(template: Tree, copied: Tree, version: string, templateName: string,
                          createdAt: string, lastUpdated: string, ctx: map<string, Json>, projectName: string,
                          codec: Codec, linkOk: string -> bool)
    returns (ok: bool, project: Option<Project>)
    requires WellFormed(template) && copied.Keys <= template.Keys
    ensures ok <==> project.Some?
    ensures ok ==> DirCreatable(copied, [AgentDir, TemplateDir]) && !IsDir(copied, MetadataWritePath)
    ensures (DirCreatable(copied, [AgentDir, TemplateDir]) && Protectable(template, copied)
             && !IsDir(copied, MetadataWritePath)) ==> ok
    ensures ok ==>
              && MetadataWritePath in project.value.files
              && project.value.files[MetadataWritePath]
                 == codec.encode(codec.dump(ProjectMetadata(version, templateName, createdAt, lastUpdated,
                                                            ctx, projectName, PresentProtected(template, ProtectedFiles))))
    ensures ok ==>
              forall q :: q != MetadataWritePath && (|q| == 0 || Name(q) !in ProtectedFiles)
                ==> SameAt(project.value.files, copied, q)
    ensures ok ==>
              forall n :: n in PresentProtected(template, ProtectedFiles) && !IsDir(template, CachePath(n))
                ==> Landed(project.value.files, project.value.links, template, n, linkOk(n))
  {
    var r, protected := CreateProtectedFiles(template, Project(copied, {}), linkOk);
    if r.Raised? {
      return false, None;
    }
    MetadataPathKept(copied, protected.files);
    CacheDirWithinAgentDir(copied);
    var info := ProjectMetadata(version, templateName, createdAt, lastUpdated, ctx, projectName, r.value);
    var written := CreateTemplateMetadata(protected.files, info, codec);
    if written.None? {
      return false, None;
    }
    RecordFrame(copied, protected.files, written.value);
    ProtectedFilesKept(template, copied, protected, written.value, r.value, linkOk);
    project := Some(Project(written.value, protected.links));
    ok := true;
  }

  /** The template's files all render, and the project they make leaves room for the
      cache directory `.agent/template` and the metadata file `.agent/metadata.json`. */
  predicate Copyable(template: Tree, ctx: map<string, Json>, env: Env) {
    && AllRender(PlanFor, template, template.Keys, ctx, env)
    && DirCreatable(Outputs(PlanFor, template, template.Keys, ctx, env), [AgentDir, TemplateDir])
    && !IsDir(Outputs(PlanFor, template, template.Keys, ctx, env), MetadataWritePath)
  }

  /** Room for `.agent/template` is room for `.agent`. */
  lemma CacheDirWithinAgentDir(t: Tree)
    ensures DirCreatable(t, [AgentDir, TemplateDir]) ==> DirCreatable(t, [AgentDir])
  {
    if DirCreatable(t, [AgentDir, TemplateDir]) {
      assert [AgentDir, TemplateDir][..1] == [AgentDir] == [AgentDir][..1];
    }
  }

  /** Outside the metadata file and the protected names, the finished project holds what
      the copy left. */
  lemma RecordFrame(copied: Tree, protected: Tree, written: Tree)
    requires forall q :: |q| == 0 || Name(q) !in ProtectedFiles ==> SameAt(protected, copied, q)
    requires written.Keys == protected.Keys + {MetadataWritePath}
    requires forall q :: q in protected && q != MetadataWritePath ==> written[q] == protected[q]
    ensures forall q :: q != MetadataWritePath && (|q| == 0 || Name(q) !in ProtectedFiles) ==> SameAt(written, copied, q)
  {
    forall q | q != MetadataWritePath && (|q| == 0 || Name(q) !in ProtectedFiles) ensures SameAt(written, copied, q) {
      assert SameAt(protected, copied, q);
    }
  }

  /** Protection leaves `.agent` and what lies under `.agent/metadata.json` as they were,
      so the metadata file can be written after it exactly when it could before. */
  lemma MetadataPathKept(copied: Tree, protected: Tree)
    requires forall q :: |q| >= 1 && q[0] == AgentDir && (|q| == 1 || q[1] != TemplateDir)
               ==> SameAt(protected, copied, q)
    ensures DirCreatable(protected, [AgentDir]) <==> DirCreatable(copied, [AgentDir])
    ensures IsDir(protected, MetadataWritePath) <==> IsDir(copied, MetadataWritePath)
  {
    assert [AgentDir][..1] == [AgentDir];
    assert SameAt(protected, copied, [AgentDir]);
    assert TemplateMetadataFile != TemplateDir;
    if IsDir(protected, MetadataWritePath) {
      var q :| q in protected && Below(MetadataWritePath, q);
      assert q[..2] == MetadataWritePath;
      assert SameAt(protected, copied, q);
    }
    if IsDir(copied, MetadataWritePath) {
      var q :| q in copied && Below(MetadataWritePath, q);
      assert q[..2] == MetadataWritePath;
      assert SameAt(protected, copied, q);
    }
  }

  /** The copied files survive the protected files and the metadata file, except a
      template file at the metadata path itself. */
  lemma CopiedFilesKept(template: Tree, ctx: map<string, Json>, env: Env, copied: Tree, written: Tree)
    requires AllRender(PlanFor, template, template.Keys, ctx, env)
    requires copied == Outputs(PlanFor, template, template.Keys, ctx, env)
    requires forall q :: q != MetadataWritePath && (|q| == 0 || Name(q) !in ProtectedFiles) ==> SameAt(written, copied, q)
    ensures forall p :: p in template && PlanFor(p) != Skip && p != MetadataWritePath
              ==> p in written && Some(written[p]) == Produced(PlanFor, template, p, ctx, env)
  {
    TemplateOutputs(template, ctx, env);
    forall p | p in template && PlanFor(p) != Skip && p != MetadataWritePath
      ensures p in written && Some(written[p]) == Produced(PlanFor, template, p, ctx, env)
    {
      assert SameAt(written, copied, p);
    }
  }

  /** The protected files of a project copied from a well-formed template land, unless the
      template itself has a directory at the cache path, and the metadata file leaves
      them in place. */
  lemma ProtectedFilesKept(template: Tree, copied: Tree, protected: Project, written: Tree,
                           names: seq<string>, linkOk: string -> bool)
    requires WellFormed(template) && copied.Keys <= template.Keys
    requires forall n :: n in names ==> [n] in template
    requires forall n :: n in names && Unobstructed(copied, n) ==>
               Landed(protected.files, protected.links, template, n, linkOk(n))
    requires forall q :: q in protected.files && q != MetadataWritePath ==> q in written && written[q] == protected.files[q]
    ensures forall n :: n in names && !IsDir(template, CachePath(n)) ==>
              Landed(written, protected.links, template, n, linkOk(n))
  {
    forall n | n in names && !IsDir(template, CachePath(n))
      ensures Landed(written, protected.links, template, n, linkOk(n))
    {
      forall q | q in copied ensures !Below([n], q) && !Below(CachePath(n), q) {
        assert q in template;
      }
      assert Unobstructed(copied, n);
      assert CachePath(n) != MetadataWritePath && [n] != MetadataWritePath;
    }
  }

  // ---------------------------------------------------------------------------
  // Next steps
  // ---------------------------------------------------------------------------

  /** `get_next_steps`: change into the project, then the steps of the template's toolchain,
      chosen by the first of python, typescript, rust and content that occurs in the
      template name; python templates add their framework's run step. */
  method NextSteps(templateName: string, projectName: string) returns (steps: seq<string>)
    ensures |steps| >= 2 && steps[0] == "cd " + projectName
    ensures Contains(templateName, "python") ==>
              && |steps| >= 5 && steps[1..5] == PythonSetup
              && (Contains(templateName, "fastapi") ==> steps[5..] == ["uvicorn main:app --reload"])
              && (!Contains(templateName, "fastapi") && Contains(templateName, "django") ==>
                    steps[5..] == ["python manage.py migrate", "python manage.py runserver"])
              && ((!Contains(templateName, "fastapi") && !Contains(templateName, "django")
                   && Contains(templateName, "flask")) ==> steps[5..] == ["flask run"])
              && ((!Contains(templateName, "fastapi") && !Contains(templateName, "django")
                   && !Contains(templateName, "flask") && Contains(templateName, "typer")) ==>
                    steps[5..] == ["pip install -e .", projectName + " --help"])
              && ((!Contains(templateName, "fastapi") && !Contains(templateName, "django")
                   && !Contains(templateName, "flask") && !Contains(templateName, "typer")) ==> |steps| == 5)
    ensures (!Contains(templateName, "python") && Contains(templateName, "typescript")) ==>
              steps == ["cd " + projectName, "npm install", "npm run dev"]
    ensures (!Contains(templateName, "python") && !Contains(templateName, "typescript")
             && Contains(templateName, "rust")) ==>
              steps == ["cd " + projectName, "cargo build", "cargo run"]
    ensures (!Contains(templateName, "python") && !Contains(templateName, "typescript")
             && !Contains(templateName, "rust") && Contains(templateName, "content")) ==>
              steps == if Contains(templateName, "obsidian")
                       then ["cd " + projectName, "Obsidian에서 폴더 열기", "index.md 파일 편집 시작"]
                       else ["cd " + projectName, "README.md 파일을 확인하고 편집을 시작하세요"]
    ensures (!Contains(templateName, "python") && !Contains(templateName, "typescript")
             && !Contains(templateName, "rust") && !Contains(templateName, "content")) ==>
              steps == ["cd " + projectName, "README.md 파일을 확인하고 프로젝트를 시작하세요"]
  {
    steps := ["cd " + projectName];
    if Contains(templateName, "python") {
      steps := steps + PythonSetup;
      if Contains(templateName, "fastapi") {
        steps := steps + ["uvicorn main:app --reload"];
      } else if Contains(templateName, "django") {
        steps := steps + ["python manage.py migrate", "python manage.py runserver"];
      } else if Contains(templateName, "flask") {
        steps := steps + ["flask run"];
      } else if Contains(templateName, "typer") {
        steps := steps + ["pip install -e .", projectName + " --help"];
      }
    } else if Contains(templateName, "typescript") {
      steps := steps + ["npm install", "npm run dev"];
    } else if Contains(templateName, "rust") {
      steps := steps + ["cargo build", "cargo run"];
    } else if Contains(templateName, "content") {
      if Contains(templateName, "obsidian") {
        steps := steps + ["Obsidian에서 폴더 열기", "index.md 파일 편집 시작"];
      } else {
        steps := steps + ["README.md 파일을 확인하고 편집을 시작하세요"];
      }
    } else {
      steps := steps + ["README.md 파일을 확인하고 프로젝트를 시작하세요"];
    }
  }

  /** The virtual environment steps every python template starts with. */
  const PythonSetup: seq<string> := [
    "python -m venv venv",
    "source venv/bin/activate  # Linux/Mac",
    "# 또는 venv\\Scripts\\activate  # Windows",
    "pip install -r requirements.txt"]
}
