/** The template cache: a local mirror of the template repository, refreshed at most once a
    day, and the discovery of the templates it holds. */
module Templates {
  import opened Base
  import opened Json
  import opened Strings
  import opened Paths
  import opened Constants
  import opened GitUtils

  /** What sits at `<cache_dir>/cache_info.json`. */
  datatype CacheInfoFile = NoInfo | InfoDirectory | Info(content: Bytes)

  /** `datetime.fromisoformat` of a string: a naive time (microseconds on the local clock),
      a time with a UTC offset, or a `ValueError`. */
  datatype IsoTime = Naive(micros: int) | Aware | Invalid

  /** The clock: `now` is `datetime.now()` when freshness is decided, `stamp` the
      `isoformat()` of the `datetime.now()` recorded after a refresh. */
  datatype Clock = Clock(now: int, stamp: string, fromIso: string -> IsoTime)

  /** What git answers during a refresh. */
  datatype GitReply = GitReply(fetch: FetchReply, cloned: Option<Tree>)

  const IntervalMicros: int := CacheUpdateInterval * 1000000

  /** The default of a missing `last_update`: the epoch. */
  const Epoch: string := "1970-01-01"

  datatype Freshness = Stale | Fresh | Broken(error: string)

  /** Whether `ensure_cache_updated` refreshes: it does when forced, when the info file is
      missing, is not UTF-8, is not JSON, or holds a `last_update` that is not ISO or is
      more than 24 hours old. Some contents make the call raise instead. */
  function CacheFreshness(force: bool, info: CacheInfoFile, codec: Codec, clock: Clock): (r: Freshness)
    ensures force || info.NoInfo? ==> r == Stale
    ensures !force && info.InfoDirectory? ==> r.Broken?
    ensures info.Info? && codec.decode(info.content).None? ==> r == Stale
    ensures info.Info? && codec.decode(info.content).Some? ==>
              var j := codec.parse(codec.decode(info.content).value);
              && (j.None? ==> r == Stale)
              && (!force && j.Some? && j.value.JObj? ==>
                    var last := Get(j.value.fields, "last_update", JStr(Epoch));
                    && (last.JStr? && clock.fromIso(last.s).Naive? ==>
                          r == (if clock.now - clock.fromIso(last.s).micros > IntervalMicros then Stale else Fresh))
                    && (last.JStr? && clock.fromIso(last.s).Invalid? ==> r == Stale)
                    && (last.JStr? && clock.fromIso(last.s).Aware? ==> r.Broken?)
                    && (!last.JStr? ==> r.Broken?))
              && (!force && j.Some? && !j.value.JObj? ==> r.Broken?)
    ensures r == Fresh ==>
              && info.Info? && codec.decode(info.content).Some?
              && var j := codec.parse(codec.decode(info.content).value);
              && j.Some? && j.value.JObj?
              && var last := Get(j.value.fields, "last_update", JStr(Epoch));
              && last.JStr? && clock.fromIso(last.s).Naive?
              && clock.now - clock.fromIso(last.s).micros <= IntervalMicros
  {
    if force || info.NoInfo? then Stale
    else if info.InfoDirectory? then Broken("IsADirectoryError")
    else match codec.decode(info.content)
      case None => Stale  // UnicodeDecodeError is a ValueError
      case Some(text) =>
        match codec.parse(text)
        case None => Stale
        case Some(j) =>
          if !j.JObj? then Broken("AttributeError")
          else match Get(j.fields, "last_update", JStr(Epoch))
            case JStr(s) =>
              (match clock.fromIso(s)
               case Invalid => Stale
               case Aware => Broken("TypeError")
               case Naive(t) => if clock.now - t > IntervalMicros then Stale else Fresh)
            case _ => Broken("TypeError")
  }

  /** An info record without `last_update` is judged as if it were last updated at the epoch. */
  lemma MissingStampIsEpoch(fields: map<string, Json>, codec: Codec, clock: Clock, content: Bytes)
    requires "last_update" !in fields
    requires codec.decode(content).Some? && codec.parse(codec.decode(content).value) == Some(JObj(fields))
    ensures CacheFreshness(false, Info(content), codec, clock)
         == CacheFreshness(false, Info(content), codec,
                           Clock(clock.now, clock.stamp, (s: string) => clock.fromIso(Epoch)))
  {
  }

  /** The record `_update_cache` writes after a successful refresh. */
  function CacheInfoRecord(stamp: string, repoUrl: Json, branch: Json): (r: Json)
    ensures r.JObj? && r.fields.Keys == {"last_update", "repo_url", "branch"}
    ensures r.fields["last_update"] == JStr(stamp)
  {
    JObj(map["last_update" := JStr(stamp), "repo_url" := repoUrl, "branch" := branch])
  }

  /** `_update_cache`: update the mirror when it exists, clone it otherwise; on success
      record the refresh. Returns the outcome, the new mirror and the new info file. */
  function RefreshCache(mirror: Option<Tree>, info: CacheInfoFile, repoUrl: Json, branch: Json,
                        reply: GitReply, stamp: string, codec: Codec)
    : (r: (Outcome<bool>, Option<Tree>, CacheInfoFile))
    ensures mirror.None? ==> r.1 == reply.cloned
    ensures mirror.Some? && reply.fetch.Fetched? ==> r.1 == Some(reply.fetch.tree)
    ensures r.0 == Returned(true) ==> r.2 == Info(codec.encode(codec.dumpAscii(CacheInfoRecord(stamp, repoUrl, branch))))
    ensures r.0 != Returned(true) ==> r.2 == info
    ensures r.0 == Returned(false) ==> r.1.None?
    ensures r.0.Raised? && mirror.Some? && (reply.fetch.NotARepository? || reply.fetch.NoOrigin?) ==> r.1 == mirror
    ensures r.0.Raised? && !(mirror.Some? && (reply.fetch.NotARepository? || reply.fetch.NoOrigin?)) ==>
              && info.InfoDirectory?
              && r.1 == (if mirror.Some? && reply.fetch.Fetched? then Some(reply.fetch.tree) else reply.cloned)
  {
    var git := if mirror.Some? then UpdateRepository(mirror, reply.fetch, reply.cloned)
               else Returned(CloneRepository(mirror, reply.cloned));
    match git
    case Raised(e) => (Raised(e), mirror, info)
    case Returned((ok, tree)) =>
      if !ok then (Returned(false), tree, info)
      else if info.InfoDirectory? then (Raised("IsADirectoryError"), tree, info)
      else (Returned(true), tree, Info(codec.encode(codec.dumpAscii(CacheInfoRecord(stamp, repoUrl, branch)))))
  }

  /** `validate_template`: `AGENT.md` or `README.md` directly in the template directory. */
  function ValidateTemplate(t: Tree): (r: bool)
    ensures r <==> Exists(t, ["AGENT.md"]) || Exists(t, ["README.md"])
  {
    !(!Exists(t, ["AGENT.md"]) && !Exists(t, ["README.md"]))
  }

  // ---------------------------------------------------------------------------
  // Discovery
  // ---------------------------------------------------------------------------

  const Categories: set<string> := {"development", "content", "learning"}

  function Elems(xs: seq<string>): set<string> {
    set x | x in xs
  }

  /** The entries of `d` that the scan descends into: directories not starting with `.`. */
  function VisibleDirs(t: Tree, d: Path): set<string> {
    set n | n in Children(t, d) && IsDir(t, d + [n]) && !StartsWith(n, ".")
  }

  function DevId(category: string, lang: string, framework: string): string {
    category + "/" + lang + "/" + framework
  }

  function TypeId(category: string, kind: string): string {
    category + "/" + kind
  }

  /** The ids of the frameworks of language `lang`. */
  function FrameworkIds(t: Tree, d: Path, category: string, lang: string, frameworks: set<string>): set<string> {
    set f | f in frameworks && f in VisibleDirs(t, d + [lang]) :: DevId(category, lang, f)
  }

  /** The ids of the languages among `langs`, three levels deep. */
  function DevIds(t: Tree, d: Path, category: string, langs: set<string>): set<string> {
    set l, f | l in langs && l in VisibleDirs(t, d) && f in VisibleDirs(t, d + [l]) :: DevId(category, l, f)
  }

  /** The ids of the types among `kinds`, two levels deep. */
  function TypeIds(t: Tree, d: Path, category: string, kinds: set<string>): set<string> {
    set k | k in kinds && k in VisibleDirs(t, d) :: TypeId(category, k)
  }

  /** The template ids of category directory `d`: `development/<lang>/<framework>` for
      development, `<category>/<type>` for every other category. */
  function CategoryIds(t: Tree, d: Path, category: string): set<string> {
    if category == "development" then DevIds(t, d, category, Children(t, d))
    else TypeIds(t, d, category, Children(t, d))
  }

  /** What discovery lists for category `c` of mirror `t`: the ids in its directory, or
      none when it has no directory. */
  function Expected(t: Tree, c: string): set<string> {
    if IsDir(t, ["templates", c]) then CategoryIds(t, ["templates", c], c) else {}
  }

  /** The result of a discovery: exactly the three categories, each with its ids. */
  predicate Discovered(t: Tree, m: map<string, seq<string>>) {
    m.Keys == Categories && forall c :: c in Categories ==> Elems(m[c]) == Expected(t, c)
  }

  /** Discovery so far: the categories in `seen` hold their ids, the others none yet. */
  predicate Partial(t: Tree, m: map<string, seq<string>>, seen: set<string>) {
    m.Keys == Categories && forall c :: c in Categories ==> Elems(m[c]) == (if c in seen then Expected(t, c) else {})
  }

  lemma PartialSkip(t: Tree, m: map<string, seq<string>>, seen: set<string>, c: string)
    requires Partial(t, m, seen)
    requires c in Categories ==> Expected(t, c) == {}
    ensures Partial(t, m, seen + {c})
  {
  }

  lemma PartialScan(t: Tree, m: map<string, seq<string>>, seen: set<string>, c: string, ids: seq<string>)
    requires Partial(t, m, seen)
    requires c in Categories && IsDir(t, ["templates", c])
    requires Elems(ids) == CategoryIds(t, ["templates", c], c)
    ensures Partial(t, m[c := ids], seen + {c})
  {
  }

  /** A category name that is skipped lists nothing anyway. */
  lemma NotScanned(t: Tree, c: string)
    requires !IsDir(t, ["templates", c]) || StartsWith(c, ".")
    ensures c in Categories ==> Expected(t, c) == {}
  {
    if c in Categories {
      assert c[0] != '.';
      assert !IsDir(t, ["templates", c]);
    }
  }

  lemma DevIdsAdd(t: Tree, d: Path, category: string, langs: set<string>, l: string)
    ensures DevIds(t, d, category, langs + {l})
         == DevIds(t, d, category, langs)
            + (if l in VisibleDirs(t, d) then FrameworkIds(t, d, category, l, Children(t, d + [l])) else {})
  {
    var extra := if l in VisibleDirs(t, d) then FrameworkIds(t, d, category, l, Children(t, d + [l])) else {};
    forall x | x in DevIds(t, d, category, langs + {l})
      ensures x in DevIds(t, d, category, langs) + extra
    {
      var l', f :| l' in langs + {l} && l' in VisibleDirs(t, d) && f in VisibleDirs(t, d + [l']) && x == DevId(category, l', f);
      if l' != l {
        assert x in DevIds(t, d, category, langs);
      } else {
        assert f in Children(t, d + [l]);
        assert x in extra;
      }
    }
  }

  lemma FrameworkIdsAdd(t: Tree, d: Path, category: string, lang: string, fws: set<string>, f: string)
    ensures FrameworkIds(t, d, category, lang, fws + {f})
         == FrameworkIds(t, d, category, lang, fws)
            + (if f in VisibleDirs(t, d + [lang]) then {DevId(category, lang, f)} else {})
  {
  }

  lemma TypeIdsAdd(t: Tree, d: Path, category: string, kinds: set<string>, k: string)
    ensures TypeIds(t, d, category, kinds + {k})
         == TypeIds(t, d, category, kinds) + (if k in VisibleDirs(t, d) then {TypeId(category, k)} else {})
  {
  }

  /** `_scan_category_templates`, with `iterdir()` yielding entries in any order. */
  method ScanCategoryTemplates(t: Tree, d: Path, category: string) returns (ids: seq<string>)
    ensures Elems(ids) == CategoryIds(t, d, category)
  {
    if category == "development" {
      ids := ScanLanguages(t, d, category);
    } else {
      ids := ScanTypes(t, d, category);
    }
  }

  /** The development branch: languages, then the frameworks of each. */
  method ScanLanguages(t: Tree, d: Path, category: string) returns (ids: seq<string>)
    ensures Elems(ids) == DevIds(t, d, category, Children(t, d))
  {
    ids := [];
    var all := Children(t, d);
    var todo := all;
    while todo != {}
      invariant todo <= all
      invariant Elems(ids) == DevIds(t, d, category, all - todo)
      decreases todo
    {
      var lang :| lang in todo;
      DevIdsAdd(t, d, category, all - todo, lang);
      assert all - todo + {lang} == all - (todo - {lang});
      todo := todo - {lang};
      if !IsDir(t, d + [lang]) || StartsWith(lang, ".") {
        continue;
      }
      ids := ScanFrameworks(t, d, category, lang, ids);
    }
    assert all - todo == all;
  }

  /** The frameworks of one language, appended to `ids`. */
  method ScanFrameworks(t: Tree, d: Path, category: string, lang: string, ids: seq<string>)
    returns (out: seq<string>)
    ensures Elems(out) == Elems(ids) + FrameworkIds(t, d, category, lang, Children(t, d + [lang]))
  {
    out := ids;
    var all := Children(t, d + [lang]);
    var todo := all;
    while todo != {}
      invariant todo <= all
      invariant Elems(out) == Elems(ids) + FrameworkIds(t, d, category, lang, all - todo)
      decreases todo
    {
      var fw :| fw in todo;
      FrameworkIdsAdd(t, d, category, lang, all - todo, fw);
      assert all - todo + {fw} == all - (todo - {fw});
      todo := todo - {fw};
      if !IsDir(t, d + [lang] + [fw]) || StartsWith(fw, ".") {
        continue;
      }
      assert Elems(out + [DevId(category, lang, fw)]) == Elems(out) + {DevId(category, lang, fw)};
      out := out + [DevId(category, lang, fw)];
    }
    assert all - todo == all;
  }

  /** The other categories: one id per type directory. */
  method ScanTypes(t: Tree, d: Path, category: string) returns (ids: seq<string>)
    ensures Elems(ids) == TypeIds(t, d, category, Children(t, d))
  {
    ids := [];
    var all := Children(t, d);
    var todo := all;
    while todo != {}
      invariant todo <= all
      invariant Elems(ids) == TypeIds(t, d, category, all - todo)
      decreases todo
    {
      var kind :| kind in todo;
      TypeIdsAdd(t, d, category, all - todo, kind);
      assert all - todo + {kind} == all - (todo - {kind});
      todo := todo - {kind};
      if !IsDir(t, d + [kind]) || StartsWith(kind, ".") {
        continue;
      }
      assert Elems(ids + [TypeId(category, kind)]) == Elems(ids) + {TypeId(category, kind)};
      ids := ids + [TypeId(category, kind)];
    }
    assert all - todo == all;
  }

  /** `get_template_versions`: `latest`, then the remote's tags; `lsRemote` is the output of
      `git ls-remote --tags`, or `None` when it fails. The template name plays no part. */
  method GetTemplateVersions(templateName: string, gitAvailable: bool, lsRemote: Option<string>)
    returns (versions: seq<string>)
    ensures !gitAvailable ==> versions == ["latest"]
    ensures gitAvailable && lsRemote.None? ==> versions == ["latest"]
    ensures gitAvailable && lsRemote.Some? ==>
              versions == ["latest"] + SortDescending(TagsOf(OutputLines(lsRemote.value)))
  {
    if !gitAvailable {
      return ["latest"];
    }
    var tags := GetRemoteTags(lsRemote);
    versions := ["latest"] + tags;
  }

  /** What `ensure_cache_updated()` returns when git is available: `true` for a fresh
      cache, the refresh's outcome for a stale one, and the error of a cache info that
      makes the freshness test raise. */
  function Readiness(mirror: Option<Tree>, info: CacheInfoFile, repoUrl: Json, branch: Json,
                     reply: GitReply, clock: Clock, codec: Codec): Outcome<bool> {
    match CacheFreshness(false, info, codec, clock)
    case Fresh => Returned(true)
    case Broken(e) => Raised(e)
    case Stale => RefreshCache(mirror, info, repoUrl, branch, reply, clock.stamp, codec).0
  }

  /** The scan of `get_available_templates` over mirror `t`: the three categories, each
      with the ids of its directory; unknown and dot-prefixed category directories are
      ignored. A `templates` entry that is a file makes `iterdir()` raise. */
  method DiscoverTemplates(t: Tree) returns (r: Outcome<map<string, seq<string>>>)
    ensures r.Returned? ==> Discovered(t, r.value)
    ensures r.Raised? <==> IsFile(t, ["templates"]) && !IsDir(t, ["templates"])
  {
    var templates: map<string, seq<string>> := map["development" := [], "content" := [], "learning" := []];
    var root: Path := ["templates"];
    if !Exists(t, root) {
      NothingDiscovered(t, templates);
      return Returned(templates);
    }
    if !IsDir(t, root) {
      return Raised("NotADirectoryError");
    }
    var templates' := ScanCategoryDirs(t, templates);
    r := Returned(templates');
  }

  /** Without a `templates` entry, every category is empty. */
  lemma NothingDiscovered(t: Tree, m: map<string, seq<string>>)
    requires !Exists(t, ["templates"]) && Partial(t, m, {})
    ensures Discovered(t, m)
  {
    forall c | c in Categories ensures !IsDir(t, ["templates", c]) {
      NoCategoryDir(t, c);
    }
  }

  lemma NoCategoryDir(t: Tree, c: string)
    requires !Exists(t, ["templates"])
    ensures !IsDir(t, ["templates", c])
  {
    if IsDir(t, ["templates", c]) {
      assert ["templates"] + [c] == ["templates", c];
      ParentIsDir(t, ["templates"], c);
    }
  }

  /** The loop of `get_available_templates` over the entries of `templates/`. */
  method ScanCategoryDirs(t: Tree, empty: map<string, seq<string>>) returns (templates: map<string, seq<string>>)
    requires Partial(t, empty, {})
    ensures Discovered(t, templates)
  {
    templates := empty;
    var todo := Children(t, ["templates"]);
    ghost var seen: set<string> := {};
    while todo != {}
      invariant seen + todo == Children(t, ["templates"])
      invariant Partial(t, templates, seen)
      decreases todo
    {
      var c :| c in todo;
      todo := todo - {c};
      var dir: Path := ["templates", c];
      if !IsDir(t, dir) || StartsWith(c, ".") {
        NotScanned(t, c);
        PartialSkip(t, templates, seen, c);
      } else if c in templates {
        var ids := ScanCategoryTemplates(t, dir, c);
        PartialScan(t, templates, seen, c, ids);
        templates := templates[c := ids];
      } else {
        PartialSkip(t, templates, seen, c);
      }
      seen := seen + {c};
    }
    forall c | c in Categories && c !in seen ensures Expected(t, c) == {} {
      AbsentCategory(t, c);
    }
  }

  /** A category that `iterdir()` does not list has no directory. */
  lemma AbsentCategory(t: Tree, c: string)
    requires c !in Children(t, ["templates"])
    ensures Expected(t, c) == {}
  {
    ChildExists(t, ["templates"], c);
    assert ["templates"] + [c] == ["templates", c];
  }

  class TemplateManager {
    const repoUrl: Json
    const branch: Json
    /** The contents of `<cache_dir>/templates`, the mirror of the repository. */
    var mirror: Option<Tree>
    var cacheInfo: CacheInfoFile
    const codec: Codec

    constructor (repoUrl: Json, branch: Json, mirror: Option<Tree>, cacheInfo: CacheInfoFile, codec: Codec)
      ensures this.repoUrl == repoUrl && this.branch == branch && this.codec == codec
      ensures this.mirror == mirror && this.cacheInfo == cacheInfo
    {
      this.repoUrl := repoUrl;
      this.branch := branch;
      this.mirror := mirror;
      this.cacheInfo := cacheInfo;
      this.codec := codec;
    }

    /** `_update_cache`. */
    method UpdateCache(reply: GitReply, stamp: string) returns (r: Outcome<bool>)
      modifies this
      ensures (r, mirror, cacheInfo) == RefreshCache(old(mirror), old(cacheInfo), repoUrl, branch, reply, stamp, codec)
    {
      var git: Outcome<(bool, Option<Tree>)>;
      if mirror.Some? {
        git := UpdateRepository(mirror, reply.fetch, reply.cloned);
      } else {
        git := Returned(CloneRepository(mirror, reply.cloned));
      }
      if git.Raised? {
        return Raised(git.error);
      }
      var success := git.value.0;
      mirror := git.value.1;
      if !success {
        return Returned(false);
      }
      if cacheInfo.InfoDirectory? {
        return Raised("IsADirectoryError");
      }
      cacheInfo := Info(codec.encode(codec.dumpAscii(CacheInfoRecord(stamp, repoUrl, branch))));
      r := Returned(true);
    }

    /** `ensure_cache_updated`: without git nothing happens; otherwise the cache is
        refreshed exactly when it is stale. */
    method EnsureCacheUpdated(force: bool, gitAvailable: bool, clock: Clock, reply: GitReply)
      returns (r: Outcome<bool>)
      modifies this
      ensures !gitAvailable ==> r == Returned(false) && mirror == old(mirror) && cacheInfo == old(cacheInfo)
      ensures gitAvailable ==> match CacheFreshness(force, old(cacheInfo), codec, clock)
        case Fresh => r == Returned(true) && mirror == old(mirror) && cacheInfo == old(cacheInfo)
        case Broken(e) => r == Raised(e) && mirror == old(mirror) && cacheInfo == old(cacheInfo)
        case Stale =>
          (r, mirror, cacheInfo) == RefreshCache(old(mirror), old(cacheInfo), repoUrl, branch, reply, clock.stamp, codec)
    {
      if !gitAvailable {
        return Returned(false);
      }
      var needsUpdate := force;
      if !needsUpdate && !cacheInfo.NoInfo? {
        if cacheInfo.InfoDirectory? {
          return Raised("IsADirectoryError");
        }
        var text := codec.decode(cacheInfo.content);
        if text.None? {
          needsUpdate := true;
        } else {
          var parsed := codec.parse(text.value);
          if parsed.None? {
            needsUpdate := true;
          } else {
            if !parsed.value.JObj? {
              return Raised("AttributeError");
            }
            var last := Get(parsed.value.fields, "last_update", JStr(Epoch));
            if !last.JStr? {
              return Raised("TypeError");
            }
            var lastUpdate := clock.fromIso(last.s);
            if lastUpdate.Invalid? {
              needsUpdate := true;
            } else if lastUpdate.Aware? {
              return Raised("TypeError");
            } else if clock.now - lastUpdate.micros > IntervalMicros {
              needsUpdate := true;
            }
          }
        }
      } else {
        needsUpdate := true;
      }
      if needsUpdate {
        r := UpdateCache(reply, clock.stamp);
        return;
      }
      r := Returned(true);
    }

    /** `get_available_templates`: `{}` when the cache cannot be brought up to date;
        otherwise the discovery over the mirror. */
    method GetAvailableTemplates(gitAvailable: bool, clock: Clock, reply: GitReply)
      returns (r: Outcome<map<string, seq<string>>>)
      modifies this
      ensures !gitAvailable ==> r == Returned(map[]) && mirror == old(mirror) && cacheInfo == old(cacheInfo)
      ensures gitAvailable ==>
                var ready := Readiness(old(mirror), old(cacheInfo), repoUrl, branch, reply, clock, codec);
                && (ready.Raised? ==> r == Raised(ready.error))
                && (ready == Returned(false) ==> r == Returned(map[]))
                && (ready == Returned(true) ==>
                      && (r.Raised? <==> IsFile(mirror.GetOr(map[]), ["templates"]) && !IsDir(mirror.GetOr(map[]), ["templates"]))
                      && (r.Returned? ==> Discovered(mirror.GetOr(map[]), r.value)))
    {
      var ok := EnsureCacheUpdated(false, gitAvailable, clock, reply);
      if ok.Raised? {
        return Raised(ok.error);
      }
      if !ok.value {
        return Returned(map[]);
      }
      r := DiscoverTemplates(mirror.GetOr(map[]));
    }

    /** `get_cache_info`: the stored record, or a default one when there is none or it
        cannot be opened or parsed; `cacheSize` is the formatted size of the cache. */
    function GetCacheInfo(cacheSize: string): (r: Outcome<Json>)
      reads this
      ensures cacheInfo.NoInfo? || cacheInfo.InfoDirectory? ==> r == Returned(DefaultCacheInfo(cacheSize))
      ensures cacheInfo.Info? ==>
                match codec.decode(cacheInfo.content)
                case None => r.Raised?
                case Some(text) => r == Returned(codec.parse(text).GetOr(DefaultCacheInfo(cacheSize)))
    {
      match cacheInfo
      case Info(content) =>
        (match codec.decode(content)
         case None => Raised("UnicodeDecodeError")
         case Some(text) => Returned(codec.parse(text).GetOr(DefaultCacheInfo(cacheSize))))
      case _ => Returned(DefaultCacheInfo(cacheSize))
    }

    function DefaultCacheInfo(cacheSize: string): (r: Json)
      reads this
      ensures r.JObj? && "last_update" in r.fields && r.fields["last_update"] == JStr("Never")
    {
      JObj(map["last_update" := JStr("Never"), "repo_url" := repoUrl, "branch" := branch,
               "cache_size" := JStr(cacheSize)])
    }
  }
}
