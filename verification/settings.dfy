/** The user's settings store, `~/.agent-template/config.json`. */
module Config {
  import opened Base
  import opened Json
  import opened Constants

  /** What sits at the path of the config file. */
  datatype ConfigFile = Missing | Directory | Stored(content: Bytes)

  /** `_get_default_config`. */
  function DefaultConfig(cacheDir: string): (r: Json)
    ensures r.JObj? && r.fields.Keys == {"repo_url", "branch", "cache_dir", "author"}
    ensures r.fields["repo_url"] == JStr(DefaultRepoUrl) && r.fields["branch"] == JStr(DefaultBranch)
    ensures r.fields["cache_dir"] == JStr(cacheDir)
    ensures r.fields["author"] == EmptyAuthor()
  {
    JObj(map["repo_url" := JStr(DefaultRepoUrl), "branch" := JStr(DefaultBranch),
             "cache_dir" := JStr(cacheDir), "author" := EmptyAuthor()])
  }

  function Author(name: string, email: string): Json {
    JObj(map["name" := JStr(name), "email" := JStr(email)])
  }

  function EmptyAuthor(): Json {
    Author("", "")
  }

  /** `_load_config`: a missing file, a file that cannot be opened, or text that is not
      JSON gives the default configuration; text that is not UTF-8 raises, because only
      `JSONDecodeError` and `IOError` are caught. Any JSON value is accepted as it is. */
  function LoadConfig(file: ConfigFile, codec: Codec, cacheDir: string): (r: Outcome<Json>)
    ensures file.Missing? || file.Directory? ==> r == Returned(DefaultConfig(cacheDir))
    ensures file.Stored? && codec.decode(file.content).None? ==> r.Raised?
    ensures file.Stored? && codec.decode(file.content).Some? ==>
              r == Returned(codec.parse(codec.decode(file.content).value).GetOr(DefaultConfig(cacheDir)))
  {
    match file
    case Missing => Returned(DefaultConfig(cacheDir))
    case Directory => Returned(DefaultConfig(cacheDir))
    case Stored(content) =>
      match codec.decode(content)
      case None => Raised("UnicodeDecodeError")
      case Some(text) =>
        match codec.parse(text)
        case None => Returned(DefaultConfig(cacheDir))
        case Some(j) => Returned(j)
  }

  /** `config.get(key, default)`: a configuration that is not a JSON object has no `get`. */
  function Lookup(config: Json, key: string, default: Json): (r: Outcome<Json>)
    ensures config.JObj? && key in config.fields ==> r == Returned(config.fields[key])
    ensures config.JObj? && key !in config.fields ==> r == Returned(default)
    ensures !config.JObj? ==> r == Raised("AttributeError")
  {
    if config.JObj? then Returned(Get(config.fields, key, default)) else Raised("AttributeError")
  }

  /** `config[key] = value`: only a JSON object supports item assignment. */
  function Store(config: Json, key: string, value: Json): (r: Outcome<Json>)
    ensures r.Returned? <==> config.JObj?
    ensures r.Returned? ==> forall d :: Lookup(r.value, key, d) == Returned(value)
    ensures r.Returned? ==> forall k, d :: k != key ==> Lookup(r.value, k, d) == Lookup(config, k, d)
    ensures r.Raised? ==> r.error == "TypeError"
  {
    if config.JObj? then Returned(JObj(config.fields[key := value])) else Raised("TypeError")
  }

  /** `save_config`: the configuration is written as JSON; a file that cannot be opened
      for writing is reported and otherwise ignored. */
  function Saved(file: ConfigFile, config: Json, codec: Codec): (r: ConfigFile)
    ensures file.Directory? ==> r == file
    ensures !file.Directory? ==> r == Stored(codec.encode(codec.dump(config)))
  {
    if file.Directory? then file else Stored(codec.encode(codec.dump(config)))
  }

  class Settings {
    var config: Json
    var file: ConfigFile
    const codec: Codec
    const defaultCacheDir: string

    /** `Settings()`: creates `~/.agent-template` with its parents, then loads the
        configuration. `dirCreated` says whether that `mkdir(parents=True, exist_ok=True)`
        succeeds; it raises `FileExistsError` when a file sits at the path or on the way to
        it. Construction does not complete when the mkdir or the load raises. */
    constructor (dirCreated: bool, file: ConfigFile, codec: Codec, defaultCacheDir: string)
      requires dirCreated
      requires LoadConfig(file, codec, defaultCacheDir).Returned?
      ensures this.config == LoadConfig(file, codec, defaultCacheDir).value
      ensures this.file == file && this.codec == codec && this.defaultCacheDir == defaultCacheDir
    {
      this.config := LoadConfig(file, codec, defaultCacheDir).value;
      this.file := file;
      this.codec := codec;
      this.defaultCacheDir := defaultCacheDir;
    }

    function Get(key: string, default: Json): (r: Outcome<Json>)
      reads this
      ensures r == Lookup(config, key, default)
    {
      Lookup(config, key, default)
    }

    /** `set`: stores the value and saves the file; nothing changes when the stored
        configuration is not a JSON object. */
    method Set(key: string, value: Json) returns (r: Outcome<()>)
      modifies this
      ensures Store(old(config), key, value).Returned? ==>
                && r == Returned(())
                && config == Store(old(config), key, value).value
                && file == Saved(old(file), config, codec)
      ensures Store(old(config), key, value).Raised? ==>
                r == Raised("TypeError") && config == old(config) && file == old(file)
      ensures r.Returned? ==> forall d :: Get(key, d) == Returned(value)
      ensures r.Returned? ==> forall k, d :: k != key ==> Get(k, d) == old(Get(k, d))
    {
      var stored := Store(config, key, value);
      if stored.Raised? {
        return Raised(stored.error);
      }
      config := stored.value;
      SaveConfig();
      r := Returned(());
    }

    method SaveConfig()
      modifies this`file
      ensures file == Saved(old(file), config, codec)
    {
      file := Saved(file, config, codec);
    }

    function GetRepoUrl(): (r: Outcome<Json>)
      reads this
      ensures config.JObj? && "repo_url" !in config.fields ==> r == Returned(JStr(DefaultRepoUrl))
      ensures config.JObj? && "repo_url" in config.fields ==> r == Returned(config.fields["repo_url"])
    {
      Get("repo_url", JStr(DefaultRepoUrl))
    }

    function GetBranch(): (r: Outcome<Json>)
      reads this
      ensures config.JObj? && "branch" !in config.fields ==> r == Returned(JStr(DefaultBranch))
      ensures config.JObj? && "branch" in config.fields ==> r == Returned(config.fields["branch"])
    {
      Get("branch", JStr(DefaultBranch))
    }

    /** `get_cache_dir`: the stored path, or the default, created with its parents;
        `Path(...)` of a value that is not a string raises. `created(dir)` says whether
        `mkdir(parents=True, exist_ok=True)` succeeds: it raises `FileExistsError` when a
        file sits at the path or on the way to it. */
    function GetCacheDir(created: string -> bool): (r: Outcome<string>)
      reads this
      ensures config.JObj? && "cache_dir" !in config.fields ==>
                r == (if created(defaultCacheDir) then Returned(defaultCacheDir) else Raised("FileExistsError"))
      ensures r.Returned? ==> Get("cache_dir", JStr(defaultCacheDir)) == Returned(JStr(r.value)) && created(r.value)
      ensures Get("cache_dir", JStr(defaultCacheDir)).Returned? && Get("cache_dir", JStr(defaultCacheDir)).value.JStr?
              ==> (r.Returned? <==> created(Get("cache_dir", JStr(defaultCacheDir)).value.s))
    {
      match Get("cache_dir", JStr(defaultCacheDir))
      case Returned(JStr(dir)) => if created(dir) then Returned(dir) else Raised("FileExistsError")
      case Returned(_) => Raised("TypeError")
      case Raised(e) => Raised(e)
    }

    function GetAuthorInfo(): (r: Outcome<Json>)
      reads this
      ensures config.JObj? && "author" !in config.fields ==> r == Returned(EmptyAuthor())
      ensures config.JObj? && "author" in config.fields ==> r == Returned(config.fields["author"])
    {
      Get("author", EmptyAuthor())
    }

    method SetAuthorInfo(name: string, email: string) returns (r: Outcome<()>)
      modifies this
      ensures old(config).JObj? ==> r == Returned(()) && GetAuthorInfo() == Returned(Author(name, email))
      ensures old(config).JObj? ==> file == Saved(old(file), config, codec)
      ensures !old(config).JObj? ==> r.Raised? && config == old(config) && file == old(file)
    {
      r := Set("author", Author(name, email));
    }
  }
}
