/** File helpers: copying, links, placeholder rendering, template metadata, structure
    listing and the binary test. A directory's contents are a `Tree`; a call that raises
    gives `None`. */
module FileUtils {
  import opened Base
  import opened Json
  import opened Strings
  import opened Paths
  import opened Constants

  // ---------------------------------------------------------------------------
  // Copying
  // ---------------------------------------------------------------------------

  /** Where `shutil.copy2(src, dst)` writes: into `dst` when `dst` is a directory. */
  function CopyTarget(t: Tree, srcName: string, dst: Path): Path {
    if IsDir(t, dst) then dst + [srcName] else dst
  }

  /** `copy_file(src, dst)`: creates `dst`'s parent directories, then copies the bytes of
      the source file, whose name is `srcName`. */
  function CopyFile(t: Tree, src: Bytes, srcName: string, dst: Path): (r: Option<Tree>)
    requires |dst| > 0
    ensures !ParentsCreatable(t, dst) ==> r.None?
    ensures !IsDir(t, dst) ==> (r.Some? <==> ParentsCreatable(t, dst))
    ensures IsDir(t, dst) ==> (r.Some? <==> ParentsCreatable(t, dst) && dst !in t && !IsDir(t, dst + [srcName]))
    ensures r.Some? ==>
              var target := CopyTarget(t, srcName, dst);
              && target in r.value && r.value[target] == src
              && r.value.Keys == t.Keys + {target}
              && forall q :: q in t && q != target ==> r.value[q] == t[q]
  {
    if ParentsCreatable(t, dst) then
      var target := CopyTarget(t, srcName, dst);
      assert target[..|dst|] == dst;
      assert IsDir(t, dst) ==> (ParentsCreatable(t, target) <==> dst !in t) by {
        if IsDir(t, dst) {
          forall k | 0 < k < |dst| ensures target[..k] == dst[..k] {}
        }
      }
      WriteFile(t, target, src)
    else None
  }

  // ---------------------------------------------------------------------------
  // Placeholders
  // ---------------------------------------------------------------------------

  /** Jinja2's `Environment().from_string(content).render(**context)`: the rendered
      text, or `None` when Jinja raises. */
  type Renderer = (string, map<string, Json>) -> Option<string>

  /** The moment `datetime.now()` returns, as the placeholders use it. */
  datatype Today = Today(date: string, year: int)  // strftime("%Y-%m-%d") and .year

  /** What file processing sees of the outside world: the codecs, the template engine and
      today's date. */
  datatype Env = Env(codec: Codec, render: Renderer, today: Today)

  /** `{**default_context, **context}`: the date values are added, and a caller's value for
      the same key wins. */
  function FullContext(context: map<string, Json>, today: Today): (r: map<string, Json>)
    ensures r.Keys == context.Keys + {"current_date", "current_year"}
    ensures forall k :: k in context ==> r[k] == context[k]
    ensures "current_date" !in context ==> r["current_date"] == JStr(today.date)
    ensures "current_year" !in context ==> r["current_year"] == JNum(today.year)
  {
    map["current_date" := JStr(today.date), "current_year" := JNum(today.year)] + context
  }

  /** `substitute_placeholders`. */
  function SubstitutePlaceholders(content: string, context: map<string, Json>, today: Today, render: Renderer)
    : (r: Option<string>)
    ensures r == render(content, FullContext(context, today))
  {
    render(content, FullContext(context, today))
  }

  /** A caller that supplies both date keys gets the same rendering on every day. */
  lemma CallerDatesWin(content: string, context: map<string, Json>, d1: Today, d2: Today, render: Renderer)
    requires "current_date" in context && "current_year" in context
    ensures SubstitutePlaceholders(content, context, d1, render)
         == SubstitutePlaceholders(content, context, d2, render)
  {
    assert FullContext(context, d1) == FullContext(context, d2);
  }

  /** `process_template_file`: reads the source as UTF-8 text, renders it, creates the
      destination's parents and writes the result. */
  function ProcessTemplateFile(t: Tree, src: Bytes, dst: Path, context: map<string, Json>,
                               today: Today, render: Renderer, codec: Codec): (r: Option<Tree>)
    requires |dst| > 0
    ensures codec.decode(src).None? ==> r.None?
    ensures r.Some? ==>
              && codec.decode(src).Some?
              && SubstitutePlaceholders(codec.decode(src).value, context, today, render).Some?
              && r == WriteFile(t, dst, codec.encode(SubstitutePlaceholders(codec.decode(src).value, context, today, render).value))
  {
    match codec.decode(src)
    case None => None
    case Some(text) =>
      match SubstitutePlaceholders(text, context, today, render)
      case None => None
      case Some(out) => WriteFile(t, dst, codec.encode(out))
  }

  // ---------------------------------------------------------------------------
  // Template metadata
  // ---------------------------------------------------------------------------

  /** Where `create_template_metadata` writes: `.agent/metadata.json`. */
  const MetadataWritePath: Path := [AgentDir, TemplateMetadataFile]

  /** `create_template_metadata`: creates `.agent` and writes the record there as JSON. */
  function CreateTemplateMetadata(t: Tree, info: Json, codec: Codec): (r: Option<Tree>)
    ensures r.Some? <==> DirCreatable(t, [AgentDir]) && !IsDir(t, MetadataWritePath)
    ensures r.Some? ==>
              && MetadataWritePath in r.value
              && r.value[MetadataWritePath] == codec.encode(codec.dump(info))
              && r.value.Keys == t.Keys + {MetadataWritePath}
              && forall q :: q in t && q != MetadataWritePath ==> r.value[q] == t[q]
  {
    assert MetadataWritePath[..1] == [AgentDir] == [AgentDir][..1];
    assert ParentsCreatable(t, MetadataWritePath) <==> [AgentDir] !in t;
    assert DirCreatable(t, [AgentDir]) <==> [AgentDir] !in t;
    if DirCreatable(t, [AgentDir]) then
      WriteFile(t, MetadataWritePath, codec.encode(codec.dump(info)))
    else None
  }

  /** `load_template_metadata`: `None` when the file is missing, cannot be opened or is not
      JSON; text that is not UTF-8 raises, because that error is neither of the two caught. */
  function LoadTemplateMetadata(t: Tree, codec: Codec): (r: Outcome<Option<Json>>)
    ensures !Exists(t, MetadataWritePath) ==> r == Returned(None)
    ensures IsDir(t, MetadataWritePath) && !IsFile(t, MetadataWritePath) ==> r == Returned(None)
    ensures IsFile(t, MetadataWritePath) ==>
              match codec.decode(t[MetadataWritePath])
              case None => r.Raised?
              case Some(text) => r == Returned(codec.parse(text))
  {
    if !Exists(t, MetadataWritePath) then Returned(None)
    else if !IsFile(t, MetadataWritePath) then Returned(None)
    else match codec.decode(t[MetadataWritePath])
      case None => Raised("UnicodeDecodeError")
      case Some(text) => Returned(codec.parse(text))
  }

  /** What `load_template_metadata` reads is what `create_template_metadata` wrote, when
      parsing undoes dumping. */
  lemma MetadataRoundTrip(t: Tree, info: Json, codec: Codec)
    requires CreateTemplateMetadata(t, info, codec).Some?
    requires codec.decode(codec.encode(codec.dump(info))) == Some(codec.dump(info))
    requires codec.parse(codec.dump(info)) == Some(info)
    ensures LoadTemplateMetadata(CreateTemplateMetadata(t, info, codec).value, codec) == Returned(Some(info))
  {
  }

  // ---------------------------------------------------------------------------
  // Directory structure
  // ---------------------------------------------------------------------------

  /** An entry of `get_directory_structure`'s result: `"file"`, or a nested dict. */
  datatype Entry = File | Dir(entries: map<string, Entry>)

  /** Directories nest at most `n` levels deep. */
  predicate NestedWithin(m: map<string, Entry>, n: int)
    decreases if n < 0 then 0 else n
  {
    if n <= 0 then m == map[]
    else forall k :: k in m && m[k].Dir? ==> NestedWithin(m[k].entries, n - 1)
  }

  /** The structure of directory `d` scanned at `depth`: empty at `maxDepth` and beyond,
      otherwise one entry per child, files as `File` and directories as `Dir` holding their
      own structure; so it nests no deeper than the depth left. */
  function Structure(t: Tree, d: Path, depth: int, maxDepth: int): (r: map<string, Entry>)
    ensures depth >= maxDepth ==> r == map[]
    ensures depth < maxDepth ==> r.Keys == Children(t, d)
    ensures forall n :: n in r ==> (r[n].Dir? <==> IsDir(t, d + [n]))
    ensures NestedWithin(r, maxDepth - depth)
    decreases maxDepth - depth
  {
    if depth >= maxDepth then map[]
    else
      map n | n in Children(t, d) ::
        (if IsDir(t, d + [n]) then Dir(Structure(t, d + [n], depth + 1, maxDepth)) else File)
  }

  /** `get_directory_structure(path, max_depth)`, where `t` holds the contents of `path`. */
  method GetDirectoryStructure(t: Tree, maxDepth: int) returns (r: map<string, Entry>)
    ensures r == Structure(t, [], 0, maxDepth)
  {
    r := ScanDirectory(t, [], 0, maxDepth);
  }

  /** `_scan_directory`: fills the dict one child at a time. */
  method ScanDirectory(t: Tree, d: Path, depth: int, maxDepth: int) returns (r: map<string, Entry>)
    ensures r == Structure(t, d, depth, maxDepth)
    decreases maxDepth - depth
  {
    if depth >= maxDepth {
      return map[];
    }
    var all := Children(t, d);
    var todo := all;
    r := map[];
    while todo != {}
      invariant todo <= all
      invariant r.Keys == all - todo
      invariant forall n :: n in r ==> r[n] == Structure(t, d, depth, maxDepth)[n]
      decreases todo
    {
      var n :| n in todo;
      todo := todo - {n};
      if IsDir(t, d + [n]) {
        var sub := ScanDirectory(t, d + [n], depth + 1, maxDepth);
        r := r[n := Dir(sub)];
      } else {
        r := r[n := File];
      }
    }
  }

  // ---------------------------------------------------------------------------
  // Binary test and links
  // ---------------------------------------------------------------------------

  /** `is_binary_file`: a NUL byte among the first 1024 bytes; a path that cannot be opened
      (missing, or a directory) is not binary. */
  function IsBinaryFile(t: Tree, p: Path): (r: bool)
    ensures r <==> p in t && exists i :: 0 <= i < |t[p]| && i < 1024 && t[p][i] == 0
  {
    if p !in t then false
    else
      var chunk := if |t[p]| <= 1024 then t[p] else t[p][..1024];
      0 in chunk
  }

  /** `create_symlink(target, dst)`: creates `dst`'s parents, removes whatever is at `dst`,
      then links `dst` to `target`; `linked` says whether `os.symlink` succeeds. A link
      shows the content of the file it points to; a link to a missing file is in `links`
      but reads as absent. Returns whether the call completed without raising, and the
      files and links it leaves, also when it raises part way. */
  function CreateSymlink(t: Tree, links: set<Path>, target: Path, dst: Path, linked: bool)
    : (r: (bool, Tree, set<Path>))
    requires |dst| > 0
    ensures r.0 <==> ParentsCreatable(t, dst) && !IsDir(t, dst) && linked
    ensures !ParentsCreatable(t, dst) || IsDir(t, dst) ==> r.1 == t && r.2 == links
    ensures ParentsCreatable(t, dst) && !IsDir(t, dst) ==>
              && r.1 - {dst} == t - {dst}
              && (dst in r.1 ==> r.0 && target in t && target != dst && r.1[dst] == t[target])
              && r.2 == (if linked then links + {dst} else links - {dst})
    ensures r.0 && target in t && target != dst ==> dst in r.1
  {
    if !ParentsCreatable(t, dst) then (false, t, links)
    else if IsDir(t, dst) then (false, t, links)  // unlink of a directory raises
    else
      var t1, links1 := t - {dst}, links - {dst};
      if !linked then (false, t1, links1)
      else if target in t1 then (true, t1[dst := t1[target]], links1 + {dst})
      else (true, t1, links1 + {dst})
  }
}
