# agent-template CLI core, modelled in Dafny

This project models the core of the `agent-template` command-line tool. The tool creates
projects from templates kept in a git repository. It later brings generated projects up
to newer template versions without overwriting the files the project marks as protected.
The model covers the following parts:

- **Update** (`update template`). The change analysis (`_analyze_changes`,
  `_files_differ`), the backup under `.agent/backups` (`_create_backup`), writing the
  template over the project (`_apply_update`), and the command that sequences them and
  rewrites the metadata.
- **Project generation** (`generate_project`). Copying or rendering the template's files,
  caching the protected files under `.agent/template` and linking them from the project
  root, writing the metadata record, and the follow-up steps (`get_next_steps`).
- **Template cache.** The 24-hour freshness rule, refreshing the local mirror, discovery
  of the template ids (three levels deep for `development`, two for the other
  categories), the version list and the marker-file check.
- **Git helpers.** Parsing of `git ls-remote --tags`, with its sort in descending string
  order, and the clone / fetch-and-reset control flow.
- **File helpers.** `copy_file`, the placeholder context, template metadata, the
  directory structure, the binary-file test and `create_symlink`.
- **Content conversion** (`convert platform`). Checking the platforms, choosing the
  output file, the six dedicated rules and the generic rule.
- **Settings.** The configuration store, with its defaults, getters and setters.

A directory's contents are a `Tree`: a map from relative paths (sequences of name
components) to file bytes. Directories are the proper prefixes of file paths. Git, the
Jinja2 engine, UTF-8 and JSON codecs, MD5, the clock and the answers to prompts are
parameters. The order in which `rglob` or `iterdir` lists entries is also a parameter,
or an arbitrary choice. A Python call that raises is modelled as `Raised(error)` in an
`Outcome`, or as `None` where the caller catches the exception. Every loop of the source
is a `while` or `for` loop in a method. Each such method is proved equal to a function
of its inputs: for the loops over a walk, a fold of the loop's body over the listed
entries; for the directory scans, a set or map comprehension over the directory's
children. The properties are lemmas about those functions.

The model keeps the source's inconsistencies:

- Analysis and apply exclude different name lists.
- `.toml` is text for generation but not for update.
- `Path.match` tests only a file's own name.
- The backup's `.agent/backups` entry never equals a single path component, so earlier
  backups are backed up again. Because `rglob` is lazy, the walk can also enter the
  backup directory it is filling and copy those copies one level deeper; the model's
  walk is a snapshot and does not capture this (see "Left out").
- A failing backup only prints a warning, and the update goes on.
- Project generation writes its metadata to `.agent/metadata.json`, but `update template`
  reads and rewrites `.agent/template/metadata.json`. So `update template` refuses a
  freshly generated project unless its template supplied that file.
- Generation skips protected names at any depth, but caches and links only the ones at
  the template's root. Update protects exactly the relative path strings listed in the
  metadata.

## Model

| member | source | states |
|---|---|---|
| Update.FilesDiffer | cli/commands/update.py:262-286 | an unreadable project file differs; files of different sizes differ; identical bytes differ only when the file is text by suffix and not UTF-8; equal-size text files differ exactly when their decoded texts differ; other files differ exactly when their digests differ |
| Update.ListedNames | cli/commands/update.py:229-246 | a path is protected exactly when its string is in the recorded list; the default empty list protects nothing |
| Update.TopLevelListed | cli/core/project_generator.py:191 | the root-level name that generation records is recognised by the update's membership test |
| Paths.WriteFile | cli/utils/file_utils.py:92-97 | creating the parents and writing succeeds exactly when no file sits on the way and the path is not a directory; the path then holds the data and every other file is unchanged |
| Paths.Suffix | cli/commands/update.py:270 | `PurePath.suffix`: the stem and suffix make up the name; a suffix starts with its only dot, which is neither the first nor the last character of the name |
| Strings.JoinSplit | cli/commands/convert.py:217 | joining the pieces of `str.split(sep)` with `sep` gives the text back |
| Paths.MatchNameOnly | cli/core/project_generator.py:137 | `Path.match` against the exclusion patterns tests the last component only: two paths with the same name are excluded alike |
| Update.ExclusionLooksAtName | cli/commands/update.py:237 | a file inside `.git` takes part in the analysis, a `*.pyc` file in any directory does not |
| Update.AgentFilesTakePart | cli/commands/update.py:217-237 | excluding `.agent` excludes a file of that name only; the metadata file inside `.agent` takes part in the analysis |
| Update.RecordFor | cli/commands/update.py:233-253 | a template file gives a record exactly when it is not excluded, is missing or different in the project, and its membership test does not raise; the record holds the path string, is never `removed`, is `added` exactly when the project lacks the path, and is protected exactly when the path string is listed |
| Update.CollectRecords | cli/commands/update.py:232-253 | the loop raises exactly when some file's membership test raises; otherwise its records are exactly those the walked files give |
| Update.CollectAll | cli/commands/update.py:232-255 | a loop over a full enumeration of the template collects exactly the records of the template's files |
| Update.AssessTestable | cli/commands/update.py:236-253 | when membership can be evaluated, the loop body gives the file's record and never raises |
| Update.AnalysisReports | cli/commands/update.py:211-259 | the analysis returns exactly the records the template's files give; when a membership test raises it returns the empty list |
| Update.NothingProtectedByDefault | cli/commands/update.py:229 | without `protected_files` in the metadata, no record is protected |
| Update.AnalyzeChanges | cli/commands/update.py:211-259 | the analysis loop computes the analysis of the template against the project |
| Update.CollectLoop | cli/commands/update.py:232-253 | the loop completes exactly when the fold over the walk returns, and then yields its records |
| Update.CollectOne | cli/commands/update.py:233-253 | one iteration extends the fold by one file, or the whole fold raises |
| Update.ForceIgnoresList | cli/commands/update.py:355-358 | with `force` set, a listed file is handled like an unlisted one |
| Update.ApplyFrame | cli/commands/update.py:345-366 | the apply loop leaves every path that none of its written files touches unchanged |
| Update.ApplyLanded | cli/commands/update.py:345-366 | after the loop, every written template file holds its rendered text or copied bytes at its project path |
| Update.WriteLands | cli/commands/update.py:360-366 | writing one template file puts its content at its target and changes nothing else |
| Update.ApplyUpdate | cli/commands/update.py:315-372 | `_apply_update` succeeds exactly when the fold over the template completes; the project becomes the fold's result, or what it held when an exception stopped the loop |
| Update.ApplyLoop | cli/commands/update.py:345-366 | the loop's result is the fold of its body over the walk |
| Update.ApplyOne | cli/commands/update.py:346-366 | one iteration extends the fold by one file; a failure stops the loop with the files as they are |
| Update.ApplyFile | cli/commands/update.py:346-366 | one file is skipped when excluded or protected without force, rendered when it has a text suffix, copied otherwise, and fails when the membership test raises |
| Update.ActionFor | cli/commands/update.py:350-366 | the decision for one template file: an excluded file is passed over; a raising membership test fails the loop; a listed file without `force` is passed over; otherwise a file with a text suffix (`.toml` not among them) is rendered and any other is copied |
| Update.ApplyKeepsUntouched | cli/commands/update.py:345-366 | a path that no template file writes is the same after the update |
| Update.ApplyKeepsProtected | cli/commands/update.py:355-358 | without `force`, a listed template file's project path is left as it was |
| Update.ApplyCompleted | cli/commands/update.py:345-372 | after a successful apply, no membership test raised and every written template file landed in the project |
| Update.ApplyRuns | cli/commands/update.py:368-372 | a completed loop met no file whose membership test raises |
| Update.SkippedNames | cli/commands/update.py:297-305 | a file is kept out of the backup exactly when one of its path components is `.git`, `__pycache__`, `venv` or `node_modules` |
| Update.CreateBackup | cli/commands/update.py:289-312 | the backup copies the project's files in walk order; it copies nothing when the backup directory cannot be created, and stops silently at the first failure |
| Update.Backup | cli/commands/update.py:289-312 | the project after `_create_backup`: unchanged when `mkdir` of the backup directory raises; otherwise the fold of the copy step over the walk, up to the first copy that raises |
| Update.BackupLoop | cli/commands/update.py:299-309 | the loop's result is the fold of its body over the walk, or the files at the first failure |
| Update.BackupOne | cli/commands/update.py:300-309 | one iteration extends the fold by one file |
| Update.BackupFrame | cli/commands/update.py:299-309 | the backup loop changes nothing outside the backup directory |
| Update.BackupConfined | cli/commands/update.py:289-312 | the backup changes nothing outside its directory: `.agent/backups` followed by the components of the name cut at `/` |
| Update.SlashInVersion | cli/commands/update.py:99-100 | a version holding a `/` nests the backup directory one component deeper, so a file at `.agent/backups/<first part>` makes `mkdir` raise and nothing is backed up |
| Update.FreshBackup | cli/commands/update.py:289-312 | a backup into a new directory adds exactly a copy of each file that no component excludes, under the backup directory, and keeps everything else |
| Update.RewriteMetadata | cli/commands/update.py:107-113 | after a successful update only `version` and `last_updated` change in the metadata |
| Update.ReadMetadata | cli/commands/update.py:46-51 | reading `.agent/template/metadata.json`: a directory there raises `IsADirectoryError`, non-UTF-8 bytes raise `UnicodeDecodeError`, text that is not JSON raises `JSONDecodeError`, and a JSON value that is not an object raises `AttributeError` at the first `.get`; an object gives its entries |
| Update.UpdateTemplate | cli/commands/update.py:20-124 | before its first write the command ends as the checks decide and changes nothing; afterwards it backs up, applies, and rewrites the metadata only when applying succeeded |
| Update.Precheck | cli/commands/update.py:33-97 | the checks of `template()` before its first write, in order: a missing project or metadata file exits 1; a metadata read error fails; the same version unconfirmed exits 0; a missing template exits 1; no changes, a dry run or an unconfirmed apply exit 0; otherwise the update goes on |
| Update.DryRunWritesNothing | cli/commands/update.py:89-97 | a dry run, or an unconfirmed run, ends before any backup or write |
| Update.UnmarkedProjectRefused | cli/commands/update.py:38-43 | a project without `.agent/template/metadata.json` is refused with status 1, and the metadata that generation writes does not supply that file |
| Update.RewrittenMetadataReadBack | cli/commands/update.py:107-113 | the rewritten metadata reads back with the new version |
| Update.DryRunStatusAsWritten | cli/commands/update.py:89-92 | as written, a dry run that finds changes exits with status 1 |
| Update.DryRunStatus | cli/commands/update.py:90-92 | with the status each exit asks for, that dry run exits with 0, and only failures exit with 1 |
| ProjectGenerator.CopyTemplateFiles | cli/core/project_generator.py:113-159 | the copy succeeds exactly when the fold over the template's files completes, and the project becomes its result |
| ProjectGenerator.CopyLoop | cli/core/project_generator.py:131-153 | the loop computes the fold of its body over the walk |
| ProjectGenerator.CopyOne | cli/core/project_generator.py:132-153 | one iteration extends the fold by one file |
| ProjectGenerator.ProcessOrCopy | cli/core/project_generator.py:136-153 | an excluded or protected-name file is skipped, a text file is rendered, any other file is copied |
| ProjectGenerator.Classify | cli/core/project_generator.py:136-148 | the plan for a file follows from its name: excluded, protected, text suffix (including `.toml`) or other |
| ProjectGenerator.PlanFor | cli/core/project_generator.py:137-153 | the decision for one template file: skipped when it matches an exclusion pattern or its name is protected, rendered when its suffix is a text suffix including `.toml`, copied otherwise |
| ProjectGenerator.CopyIntoEmptyProject | cli/core/project_generator.py:113-159 | copying into an empty project succeeds exactly when every text file renders, and then yields exactly the produced files |
| ProjectGenerator.TemplateOutputs | cli/core/project_generator.py:129-153 | the copied project holds exactly the template's files that are not excluded and not protected-named, at the same paths; copied files keep their bytes and text files hold their rendering |
| ProjectGenerator.NotSkipped | cli/core/project_generator.py:136-145 | a copied file matches no exclusion and carries no protected name, at any depth |
| ProjectGenerator.PresentProtected | cli/core/project_generator.py:170-197 | the recorded names are exactly the protected names present at the template root, in the fixed order |
| ProjectGenerator.ProtectOne | cli/core/project_generator.py:178-197 | a protected name is copied to `.agent/template` and linked from the root, falling back to a copy; a name the template lacks fails, and nothing outside its four paths changes |
| ProjectGenerator.LinkOrCopy | cli/core/project_generator.py:187-197 | the root entry shows the cached file's bytes, as a link exactly when linking succeeded |
| ProjectGenerator.CreateProtectedFiles | cli/core/project_generator.py:161-199 | the result lists the present protected names in order; each lands cached and at the root; only paths named after a protected file change, and, on success, neither `.agent` itself nor any entry of it outside `.agent/template`; it raises when `.agent/template` cannot be created, and succeeds when that can be created and nothing obstructs the protected files |
| ProjectGenerator.ProtectAll | cli/core/project_generator.py:177-197 | the loop over the protected names keeps every processed name landed and every other path unchanged |
| ProjectGenerator.ProtectNext | cli/core/project_generator.py:177-197 | one protected name is processed and added to the list when present |
| ProjectGenerator.GenerationContext | cli/core/project_generator.py:63-71 | `project_name`, `template_version` and `template_name` overwrite the caller's values; other keys are kept |
| ProjectGenerator.GenerateProject | cli/core/project_generator.py:27-111 | an existing directory, a missing template, a template without a marker file or a project directory that cannot be created fails; otherwise generation succeeds when every file renders, the copied files leave room for `.agent/template` and `.agent/metadata.json`, and nothing obstructs the protected files, and it succeeds only when the first two hold; success leaves the rendered and copied files, the landed protected files and the metadata record listing them; every failure leaves no project |
| ProjectGenerator.ProjectMetadata | cli/core/project_generator.py:84-93 | the metadata record: version, template type, the two clock readings, author and email from the context with `""` as default, the project name and the protected names |
| ProjectGenerator.ProtectAndRecord | cli/core/project_generator.py:81-96 | after the copy, protecting and recording succeed when `.agent/template` and `.agent/metadata.json` have room and nothing obstructs the protected files, and only when the first holds; the metadata record lists the present protected names; outside them and the metadata file the copied files are kept |
| ProjectGenerator.MetadataPathKept | cli/core/project_generator.py:81-96 | protecting the files changes neither whether `.agent` can be created nor whether something lies under `.agent/metadata.json`, so the metadata write after it succeeds exactly when it would have before |
| ProjectGenerator.CopiedFilesKept | cli/core/project_generator.py:81-96 | the protected files and the metadata do not disturb the copied files |
| ProjectGenerator.ProtectedFilesKept | cli/core/project_generator.py:81-96 | writing the metadata keeps the protected files landed |
| ProjectGenerator.NextSteps | cli/core/project_generator.py:201-253 | the steps start with `cd <project>` and follow the first of python, typescript, rust and content in the template name; each branch's exact list is stated: the python setup followed by the run steps of the first of fastapi, django, flask and typer, the npm and cargo steps, the Obsidian steps or the README step for content, and the README step otherwise |
| Templates.CacheFreshness | cli/core/template_manager.py:35-51 | a refresh is due when forced, when the info is missing, not UTF-8 or not JSON, when `last_update` is not an ISO time, or when a naive `last_update` is more than 24 hours old; the cache is fresh only when a naive `last_update` is at most 24 hours old; the check raises for a directory in place of the info file, a JSON value that is not an object, a `last_update` that is not a string, and one with a UTC offset |
| Templates.MissingStampIsEpoch | cli/core/template_manager.py:44 | a missing `last_update` is judged as the epoch |
| Templates.CacheInfoRecord | cli/core/template_manager.py:70-74 | the recorded info holds exactly `last_update`, `repo_url` and `branch` |
| Templates.RefreshCache | cli/core/template_manager.py:58-84 | an existing mirror is updated, a missing one cloned; the info is written only on success and otherwise kept; a failure leaves no mirror; when git raises the mirror is unchanged, and when writing the info raises the mirror is the new one |
| Templates.ValidateTemplate | cli/core/template_manager.py:161-167 | a template is valid exactly when `AGENT.md` or `README.md` exists at its root |
| Templates.NotScanned | cli/core/template_manager.py:104-105 | a category that is not a directory or starts with `.` contributes no ids |
| Templates.ScanCategoryTemplates | cli/core/template_manager.py:113-139 | the ids of a category are `development/<lang>/<framework>` for development and `<category>/<type>` otherwise, over visible directories |
| Templates.ScanLanguages | cli/core/template_manager.py:117-128 | the development ids are those of every visible language directory |
| Templates.ScanFrameworks | cli/core/template_manager.py:123-128 | the ids of one language are those of its visible framework directories |
| Templates.ScanTypes | cli/core/template_manager.py:130-137 | the other categories list one id per visible type directory |
| Templates.GetTemplateVersions | cli/core/template_manager.py:153-159 | `latest`, followed by the remote tags when git is available; the template name plays no part |
| Templates.DiscoverTemplates | cli/core/template_manager.py:91-111 | discovery has exactly the three categories, each with the ids of its directory; a `templates` file makes it raise |
| Templates.NothingDiscovered | cli/core/template_manager.py:99-100 | without a `templates` directory every category is empty |
| Templates.NoCategoryDir | cli/core/template_manager.py:99-100 | without a `templates` directory no category directory exists |
| Templates.ScanCategoryDirs | cli/core/template_manager.py:103-109 | the loop over the category directories fills exactly the known categories and ignores the others |
| Templates.AbsentCategory | cli/core/template_manager.py:103-109 | a category that `iterdir()` does not list contributes no ids |
| Templates.TemplateManager.constructor | cli/core/template_manager.py:20-27 | the manager starts from the configured repository, branch, mirror and cache info |
| Templates.TemplateManager.UpdateCache | cli/core/template_manager.py:58-84 | the new mirror, the cache info and the result are those of the refresh |
| Templates.TemplateManager.EnsureCacheUpdated | cli/core/template_manager.py:29-56 | without git it returns false and changes nothing; otherwise it refreshes exactly when the cache is stale, and a fresh cache returns true unchanged |
| Templates.Readiness | cli/core/template_manager.py:29-56 | what `ensure_cache_updated()` returns with git available: `true` for a fresh cache, the refresh's outcome for a stale one, and the error of cache info that makes the freshness test raise |
| Templates.TemplateManager.GetAvailableTemplates | cli/core/template_manager.py:86-111 | without git the result is `{}` and nothing changes; with git, a cache info that makes the freshness test raise makes the call raise, a refresh that reports failure gives `{}`, and a fresh cache or a successful refresh gives the discovery over the mirror, which raises exactly when `templates` is a file |
| Templates.TemplateManager.GetCacheInfo | cli/core/template_manager.py:169-186 | the stored record when it parses; the default record when the file is missing, a directory or not JSON; raises on text that is not UTF-8 |
| Templates.TemplateManager.DefaultCacheInfo | cli/core/template_manager.py:181-186 | the default record says `last_update` is `Never` |
| GitUtils.CloneRepository | cli/utils/git_utils.py:21-32 | the target is replaced by the clone, or by nothing when the clone fails; the result says which |
| GitUtils.UpdateRepository | cli/utils/git_utils.py:35-51 | a missing directory is cloned, a fetched one reset to the remote, a failed fetch re-cloned; a directory git does not recognise, or a repository without an `origin` remote, raises |
| GitUtils.FailedUpdateLosesMirror | cli/utils/git_utils.py:48-51 | a failed fetch followed by a failed re-clone leaves no mirror |
| GitUtils.LexLeTotal | cli/utils/git_utils.py:71 | Python's string order is total |
| GitUtils.LexLeTransitive | cli/utils/git_utils.py:71 | Python's string order is transitive |
| GitUtils.LexLeReflexive | cli/utils/git_utils.py:71 | Python's string order is reflexive |
| GitUtils.LexLeAntisymmetric | cli/utils/git_utils.py:71 | Python's string order is antisymmetric |
| GitUtils.Insert | cli/utils/git_utils.py:71 | inserting into a descending sequence keeps it descending and adds the element |
| GitUtils.SortDescending | cli/utils/git_utils.py:71 | `sorted(..., reverse=True)` gives a descending permutation of its input |
| GitUtils.SortedDescendingUnique | cli/utils/git_utils.py:71 | the descending permutation of a list is unique |
| GitUtils.TagOfLine | cli/utils/git_utils.py:65-69 | a line contributes at most one tag: the text after its last `refs/tags/`, never one ending in `^{}`; a line with `refs/tags/` contributes the text after its last occurrence exactly when that text does not end in `^{}`, and a line without it contributes nothing |
| GitUtils.TagsOfLines | cli/utils/git_utils.py:64-69 | every collected tag comes from a line, and every line's tag is collected |
| GitUtils.TagsOfNotPeeled | cli/utils/git_utils.py:68-69 | no collected tag ends with `^{}` |
| GitUtils.SortedTagsNotPeeled | cli/utils/git_utils.py:68-71 | no returned tag ends with `^{}` |
| GitUtils.GetRemoteTags | cli/utils/git_utils.py:54-73 | a failing `ls-remote` gives `[]`; otherwise the tags of the output lines, sorted in descending string order |
| GitUtils.CollectTags | cli/utils/git_utils.py:64-69 | the loop collects the tags of the lines in order |
| GitUtils.LineTag | cli/utils/git_utils.py:66-69 | one line's tag, as the loop body extracts it |
| GitUtils.NotSemver | cli/utils/git_utils.py:71 | the order is by string, not by version: `v1.9.0` sorts before `v1.10.0` in the descending result |
| FileUtils.CopyFile | cli/utils/file_utils.py:22-26 | the copy fails when the parents cannot be created, and succeeds when they can and the destination is not a directory; a directory destination succeeds exactly when the file of the same name inside it is not a directory; the destination (or the file of the same name inside it, when it is a directory) then holds the source's bytes and nothing else changes |
| FileUtils.FullContext | cli/utils/file_utils.py:63-71 | the context adds `current_date` and `current_year`, and the caller's values win |
| FileUtils.SubstitutePlaceholders | cli/utils/file_utils.py:61-81 | the text is rendered with the merged context |
| FileUtils.CallerDatesWin | cli/utils/file_utils.py:64-71 | a caller that supplies both date keys gets the same rendering on every day |
| FileUtils.ProcessTemplateFile | cli/utils/file_utils.py:84-97 | a source that is not UTF-8 fails; a success means the text rendered and the destination holds the encoded rendering |
| FileUtils.CreateTemplateMetadata | cli/utils/file_utils.py:100-108 | the record is written to `.agent/metadata.json` exactly when `.agent` can be created and that path is not a directory, and nothing else changes |
| FileUtils.LoadTemplateMetadata | cli/utils/file_utils.py:111-122 | a missing file or a directory gives `None`; UTF-8 text gives its JSON value, or `None` when it is not JSON; non-UTF-8 text raises |
| FileUtils.MetadataRoundTrip | cli/utils/file_utils.py:100-122 | loading returns what creating wrote, when parsing undoes dumping |
| FileUtils.Structure | cli/utils/file_utils.py:142-157 | empty at `max_depth` and beyond; otherwise one entry per child, directories nested and files as `file`; nesting stays within the depth left |
| FileUtils.GetDirectoryStructure | cli/utils/file_utils.py:140-159 | the result is the structure of the directory from depth 0 |
| FileUtils.ScanDirectory | cli/utils/file_utils.py:142-157 | the recursive scan computes the structure one child at a time |
| FileUtils.IsBinaryFile | cli/utils/file_utils.py:188-195 | binary exactly when a NUL byte is among the first 1024 bytes; an unreadable path is not binary |
| FileUtils.CreateSymlink | cli/utils/file_utils.py:39-48 | the call completes exactly when the parents can be created, the destination is no directory and linking succeeds; the old entry at the destination is removed even when linking fails; a new link shows the target's bytes; nothing else changes |
| Convert.Truncate | cli/commands/convert.py:270-275 | the result fits in 280 characters; text within the limit is unchanged; longer text becomes exactly 280 characters, starting with its first 277 and ending with `...` |
| Convert.TruncateIdempotent | cli/commands/convert.py:270-275 | shortening twice equals shortening once |
| Convert.HashtagsStartLines | cli/commands/convert.py:263-267 | every `#` of the result starts a line |
| Convert.XToInstagram | cli/commands/convert.py:263-267 | `_convert_x_to_instagram`: a line break before every `#`, through one left-to-right `replace` |
| Convert.XToInstagramRoundTrip | cli/commands/convert.py:263-267 | the rule only inserts line breaks: removing them gives the input back |
| Convert.Joined | cli/commands/convert.py:232-235 | each closed group becomes its words joined by single spaces |
| Convert.ChunkStateWords | cli/commands/convert.py:226-233 | the closed groups and the open one hold the words in order |
| Convert.GroupsWords | cli/commands/convert.py:226-235 | the groups of a paragraph hold its words in order |
| Convert.ChunkStateShape | cli/commands/convert.py:228-233 | the closed groups have the chunk shape (each fits under 100 characters or is one word, only the first may be empty); the open group fits and is empty only before the first word; a first word of 100 characters or more closes an empty group first |
| Convert.GroupsShape | cli/commands/convert.py:226-235 | the groups of a paragraph have the chunk shape, and a paragraph with words has at least one group |
| Convert.GroupedLine | cli/commands/convert.py:232-235 | a group joins into one line that fits and is empty only for the empty group |
| Convert.WordsOfJoined | cli/commands/convert.py:232-235 | the words of the joined lines are the groups' words |
| Convert.ChunksKeepWords | cli/commands/convert.py:225-235 | the cut lines' words, in order, are the paragraph's words |
| Convert.ChunksFitOneLine | cli/commands/convert.py:225-235 | each cut line is one line, shorter than 100 characters or a single word |
| Convert.ChunksEmptyFirst | cli/commands/convert.py:225-235 | only the first cut line can be empty, exactly when the first word reaches 100 characters |
| Convert.ChunkLine | cli/commands/convert.py:225-235 | the accumulator loop cuts a paragraph into its chunks |
| Convert.CloseLine | cli/commands/convert.py:232-235 | stripping the accumulator gives the group's words joined by spaces |
| Convert.HeadingClean | cli/commands/convert.py:222-223 | a heading keeps no `#` and no surrounding whitespace, and adds no character |
| Convert.YoutubeToInstagram | cli/commands/convert.py:214-239 | the loop computes the conversion: the per-line results joined with line breaks |
| Convert.LineToInstagram | cli/commands/convert.py:222-237 | a heading loses its `#`s, a line over 100 characters is cut, any other line is kept |
| Convert.LinesForOneLine | cli/commands/convert.py:222-237 | an input line without line breaks gives lines without line breaks |
| Convert.InstagramLinesOneLine | cli/commands/convert.py:220-237 | lines without line breaks convert to lines without line breaks |
| Convert.SplitLinesOneLine | cli/commands/convert.py:217 | splitting at line breaks leaves none in the pieces |
| Convert.YoutubeToInstagramLines | cli/commands/convert.py:214-239 | when the conversion produces lines, splitting the output at line breaks gives exactly those lines |
| Convert.KeptLines | cli/commands/convert.py:252-253 | the lines kept are exactly the non-blank ones |
| Convert.SectionsShape | cli/commands/convert.py:252-258 | each kept line becomes `## <line>`, a blank line, the detail prompt and a blank line, in order |
| Convert.InstagramToYoutube | cli/commands/convert.py:242-260 | the conversion is the title, a blank line and the sections, joined with line breaks |
| Convert.AddSection | cli/commands/convert.py:253-258 | one line adds its section |
| Convert.IsBlank | cli/commands/convert.py:253 | a line is blank exactly when stripping leaves nothing |
| Convert.SectionsOneLine | cli/commands/convert.py:252-258 | sections hold no line breaks |
| Convert.InstagramToYoutubeLines | cli/commands/convert.py:242-260 | the output's lines are the title, a blank line and the sections |
| Convert.CollapseBreaksLength | cli/commands/convert.py:301-303 | the replacement never lengthens the text, and keeps its length exactly when it holds no two line breaks in a row |
| Convert.CollapseOnce | cli/commands/convert.py:303 | the replacement is a single left-to-right pass: three breaks become two |
| Convert.Generic | cli/commands/convert.py:290-310 | for X the text is shortened, for Instagram double breaks are collapsed, for YouTube the suffix is added exactly when the text is under 500 characters, otherwise unchanged |
| Convert.ForXFits | cli/commands/convert.py:192-193 | text converted for X never exceeds 280 characters |
| Convert.ThreadsInstagramIdentity | cli/commands/convert.py:278-287 | Threads to Instagram and back are the identity |
| Convert.OtherPairsGeneric | cli/commands/convert.py:203-205 | every pair without a dedicated rule uses the generic one |
| Convert.GenericNeverForInstagram | cli/commands/convert.py:179-205 | among valid pairs the generic rule applies exactly when neither side is Instagram |
| Convert.ConvertContent | cli/commands/convert.py:169-211 | the dispatch applies the rule of the pair |
| Convert.ConvertText | cli/commands/convert.py:177-206 | the pair dispatch: the six dedicated rules for their pairs, in the source's order, and the generic rule for every other pair |
| Convert.DefaultOutput | cli/commands/convert.py:56-59 | the default output is `<stem>_<target><suffix>` beside the input |
| Convert.DefaultOutputIsNew | cli/commands/convert.py:56-59 | the default output is never the input file |
| Convert.Platform | cli/commands/convert.py:20-86 | the command succeeds exactly when both platforms are supported and differ, the content file is UTF-8 text, the output file is new or `--force` is set, and the output's parents can be created; the output file then holds the converted text and nothing else changes |
| Config.DefaultConfig | cli/config/settings.py:31-41 | the default configuration holds exactly the repository, branch, cache directory and an empty author |
| Config.LoadConfig | cli/config/settings.py:20-29 | a missing or unopenable file, or text that is not JSON, gives the defaults; non-UTF-8 text raises |
| Config.Lookup | cli/config/settings.py:51-53 | the stored value, or the default when the key is absent |
| Config.Store | cli/config/settings.py:55-57 | after storing, the key reads back as the value and other keys are unchanged |
| Config.Saved | cli/config/settings.py:43-49 | the configuration is written as JSON; a directory in the way is left as it is, without raising |
| Config.Settings.constructor | cli/config/settings.py:14-18 | construction completes only when the configuration directory can be created with its parents and the load does not raise; the settings then start from the loaded configuration |
| Config.Settings.Get | cli/config/settings.py:51-53 | reading a key is a lookup with its default |
| Config.Settings.Set | cli/config/settings.py:55-58 | after `set`, the key reads back as the value, other keys are unchanged and the file is saved |
| Config.Settings.SaveConfig | cli/config/settings.py:43-49 | saving writes the configuration |
| Config.Settings.GetRepoUrl | cli/config/settings.py:60-62 | the stored URL, or the default repository |
| Config.Settings.GetBranch | cli/config/settings.py:64-66 | the stored branch, or `main` |
| Config.Settings.GetCacheDir | cli/config/settings.py:68-72 | the stored cache directory, or the default one when none is stored; it is returned exactly when creating it with its parents succeeds, and `FileExistsError` is raised otherwise; a stored value that is not a string raises |
| Config.Settings.GetAuthorInfo | cli/config/settings.py:74-76 | the stored author, or an empty name and email |
| Config.Settings.SetAuthorInfo | cli/config/settings.py:78-80 | after setting, the author reads back as the given name and email |

## Left out

- Git is not run. Cloning, fetching, resetting, `ls-remote` and `is_git_available` are replies passed in as parameters.
- Jinja2 rendering is an opaque function. Whether an unknown placeholder fails is not modelled.
- UTF-8 decoding and encoding, `json.load` and `json.dump`, MD5 and Python's `str` of a JSON value are opaque functions. Newline translation in text mode is part of the decode function.
- `datetime.now()` and `datetime.fromisoformat` are parameters: a clock reading, a stamp string and a parsing function.
- The `confirm` prompts are boolean parameters. The interactive `convert interactive` command, the `init` prompts, the `update cache` and `update check` commands, the list command and all printing are not part of this model. `convert interactive` catches its own `typer.Exit(0)` in the same way as `update template` does.
- `get_template_with_version` is not part of this model. Its result is a parameter: the template's files and their listing order, or nothing.
- Permission bits (`set_read_only`, `ensure_executable`), `cleanup_empty_directories` and `_get_cache_size` are left out. The model has no empty directories, so pruning them has nothing to do.
- `Update.ApplyUpdate` and `Update.ApplyFile`: generation makes each cached protected file read-only (cli/core/project_generator.py:185). An update that writes through a project's root link to such a file, with `force` or for a name not listed as protected, raises `PermissionError` for a user other than root. `_apply_update` then returns False after its earlier writes. The model has no permission bits, so its write succeeds there.
- `rglob` and `iterdir` are snapshots taken before the loop. A walk does not see files the loop itself creates.
- Paths are relative, component by component. Absolute paths, `..` and the parent of the current directory are not represented.
- A symbolic link is modelled as the bytes it shows plus membership in a set of links. Update writes through a link as it would to a file, and a link whose target changes later is not followed.
- `Convert.Platform`: an empty `--output` string is the absent option (`None`), as in the source's truthiness test. Creating the output's parent directories is modelled only as the condition that they can be created.
- `ProjectGenerator.GenerateProject`: the landing contract does not cover a protected file whose cache path the template itself uses as a directory.
- `ProjectGenerator.ProtectOne`, `ProjectGenerator.LinkOrCopy`, `ProjectGenerator.CreateProtectedFiles` and `ProjectGenerator.GenerateProject` assume that a link resolves: the project directory is taken to be absolute, as the default `Path.cwd() / name` is (cli/commands/init.py:133). With a relative `--output` (cli/commands/init.py:131) `os.symlink` stores a relative target that dangles from the link's own directory. `os.symlink` does not fail on a dangling target, so the copy fallback does not run and the root entry shows no bytes; the model does not capture this.
- `Update.CreateBackup`, `Update.BackupConfined` and `Update.FreshBackup` walk a snapshot of the project taken before the loop. The source's `rglob` is lazy and can walk into `.agent/backups/backup_<version>` while it is being filled. It then copies the copies again one level deeper, and again, until an `OSError` (a path grown too long) ends the loop with a warning. The model does not capture this repetition.
- `Templates.TemplateManager.constructor`: creating the cache directory with `mkdir(parents=True, exist_ok=True)` (cli/core/template_manager.py:27) is not modelled. The same creation inside `get_cache_dir` is modelled by `Config.Settings.GetCacheDir`.
- `Update.BackupName` and `Update.BackupConfined`: the backup directory is `.agent/backups` followed by the components `pathlib` makes of `backup_<version>`, cut at `/` (`Update.SlashInVersion`). A `..` component is kept as a plain name, as `pathlib` keeps it, but the operating system resolves it. A version such as `x/../../y` therefore puts the source's backup outside `.agent/backups`, and the model's confinement does not capture that. Git tag names cannot hold `..`, but a hand-edited metadata file can.
- `FileUtils.Structure`, `FileUtils.ScanDirectory` and `FileUtils.GetDirectoryStructure` return a map. The key order that `sorted(iterdir())` gives the source's dict is not modelled. The tree is taken to be the contents of a directory. A path that is a file or is missing makes `iterdir()` raise `NotADirectoryError` or `FileNotFoundError`, which the source does not catch; the model does not capture that. The `PermissionError` the source swallows is not modelled either.
- `Templates.Discovered` fixes the set of ids in each category, not the list: the order is `iterdir()`'s, and the contract does not exclude a repeated id. On a real file system no id repeats, because names hold no `/`. The model's path components are arbitrary strings, so it cannot show this.
- `Json.JNum` holds integers only. Floating-point numbers in JSON documents are not modelled; none of the values the core reads or writes is a float.
- `Update.CreateBackup`: the contract does not model the metadata that `copy2` copies along with the bytes.

## Findings

| source | as written | input that shows it | evidently intended | confidence | as-written member | corrected member |
|---|---|---|---|---|---|---|
| cli/commands/update.py:30-124 | the `except Exception` handler also catches each `typer.Exit(code=0)` raised inside the `try`, because click's `Exit` is a `RuntimeError`, and exits with status 1 | `update template <project> --dry-run` on a managed project whose template has changes | a dry run, a cancelled run and a run with nothing to update exit with status 0 | high (not executed) | Update.DryRunStatusAsWritten | Update.DryRunStatus |
