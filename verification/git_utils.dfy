/** The git helpers: cloning and updating the template mirror, with git itself as an
    oracle, and the parser for the tag list of `git ls-remote --tags`. */
module GitUtils {
  import opened Base
  import opened Strings
  import opened Paths

  // ---------------------------------------------------------------------------
  // Clone and update. The contents of a directory are `Some(tree)`, or `None` when the
  // directory does not exist. What git answers is given: the snapshot it checks out, or
  // `None` when GitPython raises `GitCommandError`.
  // ---------------------------------------------------------------------------

  /** `clone_repository` and `clone_specific_tag`: whatever is at the target is removed
      first; the result is the clone's snapshot, or no directory when the clone fails. */
  function CloneRepository(target: Option<Tree>, cloned: Option<Tree>): (r: (bool, Option<Tree>))
    ensures r.0 <==> cloned.Some?
    ensures r.1 == cloned
  {
    (cloned.Some?, cloned)
  }

  /** What `fetch` followed by `reset --hard origin/<branch>` does to an existing directory. */
  datatype FetchReply =
    | Fetched(tree: Tree)  // both git commands succeed; the resulting working tree
    | FetchFailed          // one of them raises `GitCommandError`
    | NotARepository       // `Repo(repo_dir)` raises `InvalidGitRepositoryError`
    | NoOrigin             // the repository has no `origin` remote: `remotes.origin` raises `AttributeError`

  /** `update_repository`: a missing directory is cloned; an existing one is fetched and
      reset, and re-cloned when git fails. A directory git does not recognise, or a
      repository without an `origin` remote, makes the call raise, because only
      `GitCommandError` is caught. */
  function UpdateRepository(dir: Option<Tree>, fetch: FetchReply, cloned: Option<Tree>)
    : (r: Outcome<(bool, Option<Tree>)>)
    ensures dir.None? ==> r == Returned(CloneRepository(dir, cloned))
    ensures dir.Some? && fetch.Fetched? ==> r == Returned((true, Some(fetch.tree)))
    ensures dir.Some? && fetch.FetchFailed? ==> r == Returned(CloneRepository(dir, cloned))
    ensures r.Raised? <==> dir.Some? && (fetch.NotARepository? || fetch.NoOrigin?)
    ensures r.Returned? ==> (r.value.0 <==> r.value.1.Some?)
  {
    if dir.None? then Returned(CloneRepository(dir, cloned))
    else match fetch
      case Fetched(tree) => Returned((true, Some(tree)))
      case FetchFailed => Returned(CloneRepository(dir, cloned))
      case NotARepository => Raised("InvalidGitRepositoryError")
      case NoOrigin => Raised("AttributeError")
  }

  /** A failed update whose re-clone also fails leaves no mirror behind at all. */
  lemma FailedUpdateLosesMirror(dir: Tree, cloned: Option<Tree>)
    requires cloned.None?
    ensures UpdateRepository(Some(dir), FetchFailed, cloned) == Returned((false, None))
  {
  }

  // ---------------------------------------------------------------------------
  // Tag list parsing.
  // ---------------------------------------------------------------------------

  const TagRefPrefix: string := "refs/tags/"

  /** Python's `<` on `str`: code point by code point, a proper prefix first. */
  predicate LexLe(a: string, b: string) {
    |a| == 0 || (|b| > 0 && (a[0] < b[0] || (a[0] == b[0] && LexLe(a[1..], b[1..]))))
  }

  lemma {:induction false} LexLeTotal(a: string, b: string)
    ensures LexLe(a, b) || LexLe(b, a)
  {
    if |a| > 0 && |b| > 0 && a[0] == b[0] {
      LexLeTotal(a[1..], b[1..]);
    }
  }

  lemma {:induction false} LexLeTransitive(a: string, b: string, c: string)
    requires LexLe(a, b) && LexLe(b, c)
    ensures LexLe(a, c)
  {
    if |a| > 0 && a[0] == b[0] && b[0] == c[0] {
      LexLeTransitive(a[1..], b[1..], c[1..]);
    }
  }

  lemma {:induction false} LexLeReflexive(a: string)
    ensures LexLe(a, a)
  {
    if |a| > 0 {
      LexLeReflexive(a[1..]);
    }
  }

  lemma {:induction false} LexLeAntisymmetric(a: string, b: string)
    requires LexLe(a, b) && LexLe(b, a)
    ensures a == b
  {
    if |a| > 0 {
      LexLeAntisymmetric(a[1..], b[1..]);
      assert a == [a[0]] + a[1..];
      assert b == [b[0]] + b[1..];
    }
  }

  /** Every element is at least the next one: descending string order. */
  predicate SortedDescending(s: seq<string>) {
    forall i, j :: 0 <= i < j < |s| ==> LexLe(s[j], s[i])
  }

  /** Inserting `x` into a descending sequence, before the first element not above it. */
  function Insert(x: string, s: seq<string>): (r: seq<string>)
    ensures multiset(r) == multiset(s) + multiset{x}
    ensures |r| == |s| + 1
    ensures SortedDescending(s) ==> SortedDescending(r)
  {
    if |s| == 0 then [x]
    else if LexLe(s[0], x) then
      InsertFront(x, s);
      [x] + s
    else
      LexLeTotal(s[0], x);
      var rest := Insert(x, s[1..]);
      assert multiset(s) == multiset{s[0]} + multiset(s[1..]) by { assert s == [s[0]] + s[1..]; }
      InsertBehind(x, s, rest);
      [s[0]] + rest
  }

  lemma InsertFront(x: string, s: seq<string>)
    requires |s| > 0 && LexLe(s[0], x)
    ensures SortedDescending(s) ==> SortedDescending([x] + s)
  {
    if SortedDescending(s) {
      var r := [x] + s;
      forall i, j | 0 <= i < j < |r| ensures LexLe(r[j], r[i]) {
        if i == 0 && j > 1 {
          LexLeTransitive(s[j - 1], s[0], x);
        }
      }
    }
  }

  lemma InsertBehind(x: string, s: seq<string>, rest: seq<string>)
    requires |s| > 0 && LexLe(x, s[0])
    requires multiset(rest) == multiset(s[1..]) + multiset{x}
    requires SortedDescending(s) ==> SortedDescending(rest)
    ensures SortedDescending(s) ==> SortedDescending([s[0]] + rest)
  {
    if SortedDescending(s) {
      var r := [s[0]] + rest;
      forall i, j | 0 <= i < j < |r| ensures LexLe(r[j], r[i]) {
        if i == 0 {
          var y := rest[j - 1];
          assert y in multiset(rest);
          if y == x {
          } else {
            assert y in multiset(s[1..]);
            var k :| 0 <= k < |s[1..]| && s[1..][k] == y;
            assert s[k + 1] == y;
          }
        }
      }
    }
  }

  /** Python's `sorted(xs, reverse=True)` on strings. */
  function SortDescending(xs: seq<string>): (r: seq<string>)
    ensures SortedDescending(r)
    ensures multiset(r) == multiset(xs)
  {
    if |xs| == 0 then []
    else
      assert xs == [xs[0]] + xs[1..];
      Insert(xs[0], SortDescending(xs[1..]))
  }

  /** Two descending sequences with the same elements are equal: the sort's result is
      fixed by its input's elements. */
  lemma {:induction false} SortedDescendingUnique(a: seq<string>, b: seq<string>)
    requires SortedDescending(a) && SortedDescending(b)
    requires multiset(a) == multiset(b)
    ensures a == b
    decreases |a|
  {
    assert |a| == |multiset(a)| == |multiset(b)| == |b|;
    if |a| > 0 {
      assert a[0] in multiset(b);
      assert b[0] in multiset(a);
      var i :| 0 <= i < |b| && b[i] == a[0];
      var j :| 0 <= j < |a| && a[j] == b[0];
      LexLeReflexive(a[0]);
      LexLeReflexive(b[0]);
      assert LexLe(a[j], a[0]);
      assert LexLe(b[i], b[0]);
      LexLeAntisymmetric(a[0], b[0]);
      assert a == [a[0]] + a[1..];
      assert b == [b[0]] + b[1..];
      assert multiset(a) == multiset{a[0]} + multiset(a[1..]);
      assert multiset(b) == multiset{b[0]} + multiset(b[1..]);
      assert multiset(a[1..]) == multiset(a) - multiset{a[0]};
      assert multiset(b[1..]) == multiset(b) - multiset{b[0]};
      SortedDescendingUnique(a[1..], b[1..]);
    }
  }

  /** The contribution of one output line: its tag, when the line is non-empty, mentions
      `refs/tags/`, and is not a peeled `^{}` entry. */
  function TagOfLine(line: string): (r: seq<string>)
    ensures |r| <= 1
    ensures |r| == 1 ==>
              && Contains(line, TagRefPrefix)
              && EndsWith(line, TagRefPrefix + r[0])
              && !Contains(r[0], TagRefPrefix)
              && !EndsWith(r[0], "^{}")
    ensures !Contains(line, TagRefPrefix) ==> r == []
    ensures forall t :: IsLastTag(line, t) ==> r == (if EndsWith(t, "^{}") then [] else [t])
  {
    if |line| > 0 && Contains(line, TagRefPrefix) then
      var parts := Split(line, TagRefPrefix);
      LastPiece(line, TagRefPrefix);
      var tag := parts[|parts| - 1];
      LastTagUnique(line, tag);
      if !EndsWith(tag, "^{}") then [tag] else []
    else
      NoLastTag(line);
      []
  }

  /** `t` is the text after the last `refs/tags/` of `line`. */
  predicate IsLastTag(line: string, t: string) {
    EndsWith(line, TagRefPrefix + t) && !Contains(t, TagRefPrefix)
  }

  /** A line without `refs/tags/`, or an empty one, has no text after it. */
  lemma NoLastTag(line: string)
    requires !(|line| > 0 && Contains(line, TagRefPrefix))
    ensures forall t :: !IsLastTag(line, t)
  {
    forall t | IsLastTag(line, t) ensures false {
      SuffixContains(line, TagRefPrefix, t);
    }
  }

  /** The text after the last `refs/tags/` is unique. */
  lemma LastTagUnique(line: string, tag: string)
    requires IsLastTag(line, tag)
    ensures forall t :: IsLastTag(line, t) ==> t == tag
  {
    forall t | IsLastTag(line, t) ensures t == tag {
      if |t| <= |tag| {
        LastTagsAgree(line, t, tag);
      } else {
        LastTagsAgree(line, tag, t);
      }
    }
  }

  /** Two candidates for the text after the last `refs/tags/`, the first no longer than
      the second, are equal: the longer one would contain the prefix, or the prefix would
      overlap itself, and `refs/tags/` has no `r` past its first character. */
  lemma LastTagsAgree(line: string, t: string, u: string)
    requires IsLastTag(line, t) && IsLastTag(line, u) && |t| <= |u|
    ensures t == u
  {
    var P := TagRefPrefix;
    var a := line[|line| - |P + t|..];
    var b := line[|line| - |P + u|..];
    assert a == P + t && b == P + u;
    assert a[0] == 'r';
    forall k | 0 < k < |P| ensures b[k] != 'r' {
      PrefixHasOneR(k);
    }
    if |u| >= |P| + |t| {
      var k := |u| - |P + t|;
      assert u[k..] == P + t by {
        assert u[k..] == b[|P| + k..];
        assert b[|P| + k..] == line[|line| - |P + t|..];
      }
      SuffixContains(u, P, t);
    } else if |u| > |t| {
      assert false;
    } else {
      assert t == a[|P|..] && u == b[|P|..];
    }
  }

  /** `refs/tags/` holds no `r` past its first character. */
  lemma PrefixHasOneR(k: int)
    requires 0 < k < |TagRefPrefix|
    ensures TagRefPrefix[k] != 'r'
  {
  }

  /** A string that ends with `sub + t` contains `sub`. */
  lemma {:induction false} SuffixContains(s: string, sub: string, t: string)
    requires EndsWith(s, sub + t)
    ensures Contains(s, sub)
    decreases |s|
  {
    if |s| == |sub + t| {
      assert s[..|sub|] == (sub + t)[..|sub|];
    } else {
      assert EndsWith(s[1..], sub + t) by {
        assert s[1..][|s[1..]| - |sub + t|..] == s[|s| - |sub + t|..];
      }
      SuffixContains(s[1..], sub, t);
    }
  }

  /** The tags of the lines, in line order. */
  function TagsOf(lines: seq<string>): seq<string> {
    if |lines| == 0 then [] else TagsOf(lines[..|lines| - 1]) + TagOfLine(lines[|lines| - 1])
  }

  /** Every collected tag comes from one line, and every line with a tag contributes it. */
  lemma {:induction false} TagsOfLines(lines: seq<string>)
    ensures forall t :: t in TagsOf(lines) ==> exists l :: l in lines && TagOfLine(l) == [t]
    ensures forall l :: l in lines && |TagOfLine(l)| == 1 ==> TagOfLine(l)[0] in TagsOf(lines)
    decreases |lines|
  {
    if |lines| > 0 {
      var init, last := lines[..|lines| - 1], lines[|lines| - 1];
      TagsOfLines(init);
      assert lines == init + [last];
      assert TagsOf(lines) == TagsOf(init) + TagOfLine(last);
      forall t | t in TagsOf(lines) ensures exists l :: l in lines && TagOfLine(l) == [t] {
        if t in TagsOf(init) {
          var l :| l in init && TagOfLine(l) == [t];
          assert l in lines;
        } else {
          assert TagOfLine(last) == [t];
        }
      }
      forall l | l in lines && |TagOfLine(l)| == 1 ensures TagOfLine(l)[0] in TagsOf(lines) {
        if l in init {
          assert TagOfLine(l)[0] in TagsOf(init);
        } else {
          assert l == last;
        }
      }
    }
  }

  /** No collected tag is a peeled `^{}` entry. */
  lemma {:induction false} TagsOfNotPeeled(lines: seq<string>)
    ensures forall t :: t in TagsOf(lines) ==> !EndsWith(t, "^{}")
    decreases |lines|
  {
    if |lines| > 0 {
      TagsOfNotPeeled(lines[..|lines| - 1]);
    }
  }

  lemma SortedTagsNotPeeled(lines: seq<string>)
    ensures forall t :: t in SortDescending(TagsOf(lines)) ==> !EndsWith(t, "^{}")
  {
    TagsOfNotPeeled(lines);
    forall t | t in SortDescending(TagsOf(lines)) ensures !EndsWith(t, "^{}") {
      assert t in multiset(SortDescending(TagsOf(lines)));
    }
  }

  /** The lines of the `ls-remote` output: stripped, then split at newlines. */
  function OutputLines(stdout: string): seq<string> {
    Split(Strip(stdout), "\n")
  }

  /** `get_remote_tags`: `stdout` is the output of `git ls-remote --tags <url>`, or `None`
      when the command exits with an error. */
  method GetRemoteTags(stdout: Option<string>) returns (tags: seq<string>)
    ensures stdout.None? ==> tags == []
    ensures stdout.Some? ==> tags == SortDescending(TagsOf(OutputLines(stdout.value)))
    ensures SortedDescending(tags)
  {
    if stdout.None? {
      return [];
    }
    var found := CollectTags(OutputLines(stdout.value));
    tags := SortDescending(found);
  }

  /** The loop of `get_remote_tags`: the tags of the lines, in line order. */
  method CollectTags(lines: seq<string>) returns (found: seq<string>)
    ensures found == TagsOf(lines)
  {
    found := [];
    var i := 0;
    while i < |lines|
      invariant 0 <= i <= |lines|
      invariant found == TagsOf(lines[..i])
    {
      var tag := LineTag(lines[i]);
      NextLine(lines, i);
      found := found + tag;
      i := i + 1;
    }
    assert lines[..i] == lines;
  }

  /** The loop body of `get_remote_tags` for one line: the tag after the last `refs/tags/`,
      unless it is a peeled `^{}` entry. */
  method LineTag(line: string) returns (tag: seq<string>)
    ensures tag == TagOfLine(line)
  {
    tag := [];
    if |line| > 0 && Contains(line, TagRefPrefix) {
      var parts := Split(line, TagRefPrefix);
      var last := parts[|parts| - 1];
      if !EndsWith(last, "^{}") {
        tag := [last];
      }
    }
  }

  lemma NextLine(lines: seq<string>, i: nat)
    requires i < |lines|
    ensures TagsOf(lines[..i + 1]) == TagsOf(lines[..i]) + TagOfLine(lines[i])
  {
    assert lines[..i + 1][..i] == lines[..i];
  }

  /** Tags are ordered as strings, not as versions: `v1.9.0` comes before `v1.10.0`. */
  lemma NotSemver()
    ensures SortDescending(["v1.10.0", "v1.9.0", "v2.0.0"]) == ["v2.0.0", "v1.9.0", "v1.10.0"]
  {
    var xs := ["v1.10.0", "v1.9.0", "v2.0.0"];
    var expected := ["v2.0.0", "v1.9.0", "v1.10.0"];
    assert LexLe("v1.9.0", "v2.0.0");
    assert LexLe("v1.10.0", "v1.9.0");
    assert SortedDescending(expected);
    assert multiset(xs) == multiset(expected);
    SortedDescendingUnique(SortDescending(xs), expected);
  }
}
