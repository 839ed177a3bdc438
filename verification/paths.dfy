/** Relative paths and directory trees, as the tool sees them through `pathlib`. */
module Paths {
  import opened Base
  import opened Strings

  /** A relative path, as the sequence of its components. */
  type Path = seq<string>

  /** The regular files below one directory, keyed by their path relative to it.
      A directory exists exactly when it is a proper prefix of some file's path. */
  type Tree = map<Path, Bytes>

  /** The components `pathlib` makes of the pieces of a path string cut at `/`: empty and
      `.` pieces are dropped, and `..` stays a component of its own. */
  function Components(pieces: seq<string>): (r: Path)
    ensures forall c :: c in r ==> c in pieces && c != "" && c != "."
    ensures |r| <= |pieces|
  {
    if |pieces| == 0 then []
    else (if pieces[0] == "" || pieces[0] == "." then [] else [pieces[0]]) + Components(pieces[1..])
  }

  /** The path a string names when it is joined onto a `Path` with `/`. */
  function PathOf(s: string): Path {
    Components(Split(s, "/"))
  }

  /** A plain name without a slash is one component. */
  lemma PlainName(s: string)
    requires '/' !in s && s != "" && s != "."
    ensures PathOf(s) == [s]
  {
    SplitWithout(s, '/');
  }

  /** `Path.name`: the last component. */
  function Name(p: Path): string {
    if |p| == 0 then "" else p[|p| - 1]
  }

  /** `str(path)` of a relative path on POSIX. */
  function PathString(p: Path): string {
    Join(p, "/")
  }

  /** Python's `name.rfind('.')`. */
  function LastDot(s: string): (r: int)
    ensures -1 <= r < |s|
    ensures 0 <= r ==> s[r] == '.'
    ensures forall j :: r < j < |s| ==> s[j] != '.'
  {
    if |s| == 0 then -1
    else if s[|s| - 1] == '.' then |s| - 1
    else LastDot(s[..|s| - 1])
  }

  /** `PurePath.suffix`: from the last dot on, unless that dot is the first or the last
      character of the name (a hidden file such as `.bashrc` has no suffix). */
  function Suffix(name: string): (r: string)
    ensures Stem(name) + r == name
    ensures r != "" ==> r[0] == '.' && 2 <= |r| < |name| && forall j :: 1 <= j < |r| ==> r[j] != '.'
  {
    var i := LastDot(name);
    if 0 < i < |name| - 1 then name[i..] else ""
  }

  /** `PurePath.stem`: the name without its suffix. */
  function Stem(name: string): string {
    var i := LastDot(name);
    if 0 < i < |name| - 1 then name[..i] else name
  }

  /** `fnmatch` of one path component against the patterns the tool uses: a literal
      name, or `*` followed by a literal tail. */
  predicate NameMatches(pattern: string, name: string) {
    if |pattern| > 0 && pattern[0] == '*' then EndsWith(name, pattern[1..]) else name == pattern
  }

  /** `Path.match(pattern)` for a one-component relative pattern: it is matched against
      the last component only. */
  predicate PathMatches(p: Path, pattern: string) {
    |p| > 0 && NameMatches(pattern, Name(p))
  }

  /** `any(path.match(pattern) for pattern in patterns)`. */
  predicate MatchesAny(p: Path, patterns: seq<string>)
    decreases |patterns|
  {
    |patterns| > 0 && (PathMatches(p, patterns[0]) || MatchesAny(p, patterns[1..]))
  }

  /** `Path.match` with one-component patterns looks at the last component only: two
      paths with the same name are excluded alike, whatever directories they are in. */
  lemma {:induction false} MatchNameOnly(p: Path, q: Path, patterns: seq<string>)
    requires |p| > 0 && |q| > 0 && Name(p) == Name(q)
    ensures MatchesAny(p, patterns) <==> MatchesAny(q, patterns)
    decreases |patterns|
  {
    if |patterns| > 0 {
      MatchNameOnly(p, q, patterns[1..]);
    }
  }

  /** `q` lies strictly inside directory `d`. */
  predicate Below(d: Path, q: Path) {
    |d| < |q| && q[..|d|] == d
  }

  predicate IsFile(t: Tree, p: Path) {
    p in t
  }

  predicate IsDir(t: Tree, p: Path) {
    exists q :: q in t && Below(p, q)
  }

  predicate Exists(t: Tree, p: Path) {
    IsFile(t, p) || IsDir(t, p)
  }

  /** No file sits where a directory is needed: the root is not a file and no file path
      is a proper prefix of another. */
  predicate WellFormed(t: Tree) {
    [] !in t && forall p, q :: p in t && q in t ==> !Below(p, q)
  }

  /** `p.parent.mkdir(parents=True, exist_ok=True)` succeeds: no proper, non-empty prefix
      of `p` is a file. */
  predicate ParentsCreatable(t: Tree, p: Path) {
    forall k :: 0 < k < |p| ==> p[..k] !in t
  }

  /** `d.mkdir(parents=True, exist_ok=True)` succeeds: neither `d` nor one of its
      ancestors is a file. */
  predicate DirCreatable(t: Tree, d: Path) {
    forall k :: 0 < k <= |d| ==> d[..k] !in t
  }

  /** `iterdir()` of directory `d`: the names of its entries. */
  function Children(t: Tree, d: Path): set<string> {
    set q | q in t && Below(d, q) :: q[|d|]
  }

  /** A name is listed by `iterdir()` exactly when that entry exists. */
  lemma ChildExists(t: Tree, d: Path, n: string)
    ensures n in Children(t, d) <==> Exists(t, d + [n])
  {
    if n in Children(t, d) {
      var q :| q in t && Below(d, q) && q[|d|] == n;
      assert q[..|d| + 1] == d + [n];
      if |q| > |d| + 1 { assert Below(d + [n], q); } else { assert q == d + [n]; }
    }
    if Exists(t, d + [n]) {
      if IsFile(t, d + [n]) {
        assert Below(d, d + [n]);
      } else {
        var q :| q in t && Below(d + [n], q);
        assert q[..|d|] == (d + [n])[..|d|] == d;
        assert q[|d|] == (d + [n])[|d|] == n;
      }
    }
  }

  /** The directory holding an existing entry is itself a directory. */
  lemma ParentIsDir(t: Tree, d: Path, n: string)
    requires Exists(t, d + [n])
    ensures IsDir(t, d)
  {
    if IsFile(t, d + [n]) {
      assert Below(d, d + [n]);
    } else {
      var q :| q in t && Below(d + [n], q);
      assert q[..|d|] == (d + [n])[..|d|];
      assert Below(d, q);
    }
  }

  /** The files below directory `d`, keyed by their path relative to `d`. */
  function Subtree(t: Tree, d: Path): (r: Tree)
    ensures forall q :: q in t && Below(d, q) ==> q[|d|..] in r && r[q[|d|..]] == t[q]
    ensures forall p :: p in r ==> d + p in t && t[d + p] == r[p]
  {
    var keys := set q | q in t && Below(d, q) :: q[|d|..];
    assert forall p :: p in keys ==> d + p in t by {
      forall p | p in keys ensures d + p in t {
        var q :| q in t && Below(d, q) && q[|d|..] == p;
        assert d + p == q;
      }
    }
    assert forall q :: q in t && Below(d, q) ==> d + q[|d|..] == q by {
      forall q | q in t && Below(d, q) ensures d + q[|d|..] == q {
        assert q == q[..|d|] + q[|d|..];
      }
    }
    map p | p in keys :: t[d + p]
  }

  /** `open(p, 'w')` after `p.parent.mkdir(parents=True, exist_ok=True)`: it fails when an
      ancestor of `p` is a file or `p` is a directory, and otherwise leaves `data` at `p`. */
  function WriteFile(t: Tree, p: Path, data: Bytes): (r: Option<Tree>)
    ensures r.Some? <==> |p| > 0 && ParentsCreatable(t, p) && !IsDir(t, p)
    ensures r.Some? ==> r.value.Keys == t.Keys + {p} && r.value[p] == data
    ensures r.Some? ==> forall q :: q in t && q != p ==> r.value[q] == t[q]
    ensures r.Some? && WellFormed(t) ==> WellFormed(r.value)
  {
    if |p| > 0 && ParentsCreatable(t, p) && !IsDir(t, p) then Some(t[p := data]) else None
  }

  /** `walk` lists every file of `t` exactly once: what `rglob('*')` filtered by
      `is_file()` yields, in the order the file system happens to produce. */
  predicate Enumerates(walk: seq<Path>, t: Tree) {
    (forall i :: 0 <= i < |walk| ==> walk[i] in t)
    && (forall p :: p in t ==> p in walk)
    && (forall i, j :: 0 <= i < j < |walk| ==> walk[i] != walk[j])
  }

  /** Nothing at `q` differs between the two trees. */
  predicate SameAt(a: Tree, b: Tree, q: Path) {
    (q in a <==> q in b) && (q in a ==> a[q] == b[q])
  }

  /** The first `n` paths listed in `walk`. */
  function Walked(walk: seq<Path>, n: nat): set<Path>
    requires n <= |walk|
  {
    set i | 0 <= i < n :: walk[i]
  }

  /** A walk that enumerates a tree lists all of its files. */
  lemma WalkedAll(walk: seq<Path>, t: Tree)
    requires Enumerates(walk, t)
    ensures Walked(walk, |walk|) == t.Keys
  {
    assert forall p :: p in t ==> p in Walked(walk, |walk|) by {
      forall p | p in t ensures p in Walked(walk, |walk|) {
        var i :| 0 <= i < |walk| && walk[i] == p;
      }
    }
  }

  /** One more path walked. */
  lemma WalkedNext(walk: seq<Path>, n: nat)
    requires n < |walk|
    ensures Walked(walk, n + 1) == Walked(walk, n) + {walk[n]}
  {
  }

  /** A loop over the paths of `walk` whose body `step` may raise, which ends the loop:
      the files after the first `n` iterations, or `None` once one of them has raised. */
  function Steps(step: (Tree, Path) -> Option<Tree>, walk: seq<Path>, n: nat, acc: Tree): Option<Tree>
    requires n <= |walk|
  {
    if n == 0 then Some(acc)
    else
      match Steps(step, walk, n - 1, acc)
      case None => None
      case Some(a) => step(a, walk[n - 1])
  }

  /** Once a prefix of the walk has raised, every longer one has. */
  lemma {:induction false} StepsStop(step: (Tree, Path) -> Option<Tree>, walk: seq<Path>, acc: Tree, j: nat, n: nat)
    requires j <= n <= |walk|
    requires Steps(step, walk, j, acc).None?
    ensures Steps(step, walk, n, acc).None?
    decreases n
  {
    if j < n {
      StepsStop(step, walk, acc, j, n - 1);
    }
  }

  /** The walk one path further: the next step's result, and once it raises, the end. */
  lemma StepsAdvance(step: (Tree, Path) -> Option<Tree>, walk: seq<Path>, acc: Tree, i: nat, out: Tree,
                     next: Option<Tree>)
    requires i < |walk| && Steps(step, walk, i, acc) == Some(out) && next == step(out, walk[i])
    ensures next == Steps(step, walk, i + 1, acc)
    ensures next.None? ==> Steps(step, walk, |walk|, acc).None?
  {
    if next.None? {
      StepsStop(step, walk, acc, i + 1, |walk|);
    }
  }

  /** The files as the loop leaves them: after its last iteration, or as they were when an
      iteration raised. */
  function Reached(step: (Tree, Path) -> Option<Tree>, walk: seq<Path>, n: nat, acc: Tree): Tree
    requires n <= |walk|
  {
    if n == 0 then acc
    else
      match Steps(step, walk, n, acc)
      case Some(t) => t
      case None => Reached(step, walk, n - 1, acc)
  }

  /** What the loop leaves is the outcome of some prefix of the walk. */
  lemma {:induction false} ReachedPrefix(step: (Tree, Path) -> Option<Tree>, walk: seq<Path>, n: nat, acc: Tree)
    returns (k: nat)
    requires n <= |walk|
    ensures k <= n && Steps(step, walk, k, acc) == Some(Reached(step, walk, n, acc))
    decreases n
  {
    if n == 0 || Steps(step, walk, n, acc).Some? {
      k := n;
    } else {
      k := ReachedPrefix(step, walk, n - 1, acc);
    }
  }

  /** When iteration `i` raises, the loop leaves the files as the earlier ones made them. */
  lemma {:induction false} ReachedStop(step: (Tree, Path) -> Option<Tree>, walk: seq<Path>, acc: Tree, i: nat, out: Tree,
                                       n: nat)
    requires i < n <= |walk| && Steps(step, walk, i, acc) == Some(out) && step(out, walk[i]).None?
    ensures Reached(step, walk, n, acc) == out
    decreases n
  {
    StepsStop(step, walk, acc, i + 1, n);
    if n > i + 1 {
      ReachedStop(step, walk, acc, i, out, n - 1);
    }
  }
}
