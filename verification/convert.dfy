/** The `convert platform` command: checks the two platforms, picks the output file and
    rewrites the content for the target platform with one rule per pair of platforms. */
module Convert {
  import opened Base
  import opened Strings
  import opened Paths
  import opened Json

  /** The platforms `convert platform` accepts. */
  const Platforms: seq<string> := ["youtube", "instagram", "x", "threads"]

  /** The longest post X takes, and the marker a cut post ends with. */
  const XLimit := 280
  const Ellipsis := "..."

  /** The length above which a YouTube paragraph is cut into shorter lines, and the bound
      those lines are built under. */
  const LongLine := 100

  /** The lines and texts the conversions write. */
  const YoutubeTitle := "# YouTube 콘텐츠"
  const DetailPrompt := "이 부분에 대한 자세한 설명을 추가하세요."
  const MoreDetail := "\n\n더 자세한 내용을 추가하세요."

  /** Below this length the generic rule for YouTube asks for more detail. */
  const YoutubeShort := 500

  // ---------------------------------------------------------------------------
  // Instagram -> X, and the generic rule for X
  // ---------------------------------------------------------------------------

  /** Shortening to X's limit: text within the limit is kept, longer text keeps its first
      277 characters followed by `...`, exactly filling the limit. */
  function Truncate(content: string): (r: string)
    ensures |r| <= XLimit
    ensures |content| <= XLimit ==> r == content
    ensures |content| > XLimit ==> |r| == XLimit && StartsWith(content, r[..XLimit - |Ellipsis|])
                                   && EndsWith(r, Ellipsis)
  {
    if |content| > XLimit then content[..XLimit - |Ellipsis|] + Ellipsis else content
  }

  /** Shortening twice is shortening once. */
  lemma TruncateIdempotent(content: string)
    ensures Truncate(Truncate(content)) == Truncate(content)
  {
  }

  // ---------------------------------------------------------------------------
  // X -> Instagram
  // ---------------------------------------------------------------------------

  /** `_convert_x_to_instagram`: a line break before every `#`. */
  function XToInstagram(content: string): string {
    Replace(content, "#", "\n#")
  }

  /** Every `#` of the Instagram text starts a line, and the text does not start with one. */
  lemma {:induction false} HashtagsStartLines(content: string)
    ensures var r := XToInstagram(content);
            && (|r| == 0 || r[0] != '#')
            && forall i :: 0 <= i < |r| && r[i] == '#' ==> 0 < i && r[i - 1] == '\n'
    decreases |content|
  {
    if |content| > 0 {
      HashtagsStartLines(content[1..]);
      var tail := XToInstagram(content[1..]);
      if content[0] == '#' {
        assert StartsWith(content, "#") by { assert content[..1] == [content[0]]; }
        assert XToInstagram(content) == "\n#" + tail;
      } else {
        assert !StartsWith(content, "#") by { assert content[..1][0] == content[0]; }
        assert XToInstagram(content) == [content[0]] + tail;
      }
    }
  }

  /** Only line breaks are inserted: taking out the break before each `#` gives back the
      X text. */
  lemma {:induction false} XToInstagramRoundTrip(content: string)
    ensures Replace(XToInstagram(content), "\n#", "#") == content
    decreases |content|
  {
    if |content| > 0 {
      XToInstagramRoundTrip(content[1..]);
      var tail := XToInstagram(content[1..]);
      HashtagsStartLines(content[1..]);
      if content[0] == '#' {
        assert StartsWith(content, "#") by { assert content[..1] == [content[0]]; }
        var r := "\n#" + tail;
        assert XToInstagram(content) == r;
        assert StartsWith(r, "\n#") && r[2..] == tail;
        assert Replace(r, "\n#", "#") == "#" + content[1..];
      } else {
        assert !StartsWith(content, "#") by { assert content[..1][0] == content[0]; }
        var r := [content[0]] + tail;
        assert XToInstagram(content) == r;
        assert !StartsWith(r, "\n#") by {
          if |r| >= 2 {
            assert r[..2][1] == tail[0];
          }
        }
        assert r[1..] == tail;
        assert content == [content[0]] + content[1..];
      }
    }
  }

  // ---------------------------------------------------------------------------
  // YouTube -> Instagram
  // ---------------------------------------------------------------------------

  /** The state of the chunking loop: the groups of words already appended as lines, and
      the words held in `current_line` (each followed by one space). */
  datatype Chunking = Chunking(done: seq<seq<string>>, held: seq<string>)

  /** The chunking loop's state after the words `ws`: a word joins `current_line` while
      the two together stay under 100 characters; otherwise the stripped `current_line` is
      appended and the word starts a new one. */
  function ChunkState(ws: seq<string>): Chunking
    decreases |ws|
  {
    if |ws| == 0 then Chunking([], [])
    else
      var s := ChunkState(ws[..|ws| - 1]);
      var w := ws[|ws| - 1];
      if |Spaced(s.held) + w| < LongLine then Chunking(s.done, s.held + [w])
      else Chunking(s.done + [s.held], [w])
  }

  /** Each group of words as a line: the words joined by single spaces. */
  function Joined(groups: seq<seq<string>>): (r: seq<string>)
    ensures |r| == |groups|
    ensures forall i :: 0 <= i < |groups| ==> r[i] == JoinWords(groups[i])
    decreases |groups|
  {
    if |groups| == 0 then [] else Joined(groups[..|groups| - 1]) + [JoinWords(groups[|groups| - 1])]
  }

  /** The groups the loop appends, the last one after the loop included unless empty. */
  function Groups(ws: seq<string>): seq<seq<string>> {
    var s := ChunkState(ws);
    if s.held != [] then s.done + [s.held] else s.done
  }

  /** The lines a long paragraph is cut into. */
  function Chunks(line: string): seq<string> {
    Joined(Groups(Words(line)))
  }

  /** The groups' words, group after group. */
  function Flatten(groups: seq<seq<string>>): seq<string>
    decreases |groups|
  {
    if |groups| == 0 then [] else Flatten(groups[..|groups| - 1]) + groups[|groups| - 1]
  }

  lemma FlattenAppend(groups: seq<seq<string>>, g: seq<string>)
    ensures Flatten(groups + [g]) == Flatten(groups) + g
  {
    assert (groups + [g])[..|groups|] == groups;
  }

  /** The words of a sequence of lines, line after line. */
  function WordsOfAll(lines: seq<string>): seq<string>
    decreases |lines|
  {
    if |lines| == 0 then [] else WordsOfAll(lines[..|lines| - 1]) + Words(lines[|lines| - 1])
  }

  /** The groups appended, then the held words, are the words in order. */
  lemma {:induction false} ChunkStateWords(ws: seq<string>)
    ensures Flatten(ChunkState(ws).done) + ChunkState(ws).held == ws
    decreases |ws|
  {
    if |ws| > 0 {
      var front, w := ws[..|ws| - 1], ws[|ws| - 1];
      ChunkStateWords(front);
      var s := ChunkState(front);
      assert ws == front + [w];
      if |Spaced(s.held) + w| >= LongLine {
        FlattenAppend(s.done, s.held);
      }
    }
  }

  /** The groups are, in order, the words. */
  lemma GroupsWords(ws: seq<string>)
    ensures Flatten(Groups(ws)) == ws
  {
    ChunkStateWords(ws);
    var s := ChunkState(ws);
    if s.held != [] {
      FlattenAppend(s.done, s.held);
    }
  }

  /** A group that fits a line: words that together stay within 100 characters with their
      spaces, or a single word. */
  predicate Grouped(g: seq<string>) {
    AllWords(g) && (|g| <= 1 || |Spaced(g)| <= LongLine)
  }

  /** Only the first group can be empty, and it is exactly when the first word alone
      reaches 100 characters; every group is a fitting group of words. */
  predicate Shaped(groups: seq<seq<string>>, ws: seq<string>) {
    && (forall i :: 0 <= i < |groups| ==> Grouped(groups[i]))
    && (forall i :: 0 < i < |groups| ==> groups[i] != [])
    && (|groups| > 0 && |ws| > 0 ==> (groups[0] == [] <==> |ws[0]| >= LongLine))
  }

  /** The loop's groups are shaped, and it holds a fitting group, empty only before the
      first word; after the first word the first group exists when that word is long. */
  lemma {:induction false} ChunkStateShape(ws: seq<string>)
    requires AllWords(ws)
    ensures Shaped(ChunkState(ws).done, ws)
    ensures Grouped(ChunkState(ws).held) && (ChunkState(ws).held == [] <==> ws == [])
    ensures |ws| > 0 && |ws[0]| >= LongLine ==> |ChunkState(ws).done| > 0
    decreases |ws|
  {
    if |ws| > 0 {
      var front, w := ws[..|ws| - 1], ws[|ws| - 1];
      assert AllWords(front) by {
        forall i | 0 <= i < |front| ensures IsWord(front[i]) {
          assert front[i] == ws[i];
        }
      }
      ChunkStateShape(front);
      var s := ChunkState(front);
      assert IsWord(w);
      if |front| > 0 {
        assert ws[0] == front[0];
      }
      if |Spaced(s.held) + w| < LongLine {
        SpacedAppend(s.held, w);
        AllWordsAppend(s.held, w);
      }
    }
  }

  /** Groups are shaped once the last held words are added. */
  lemma GroupsShape(ws: seq<string>)
    requires AllWords(ws)
    ensures Shaped(Groups(ws), ws)
    ensures ws != [] ==> Groups(ws) != []
  {
    ChunkStateShape(ws);
  }

  /** A chunk is shorter than 100 characters or is one word. */
  predicate Fits(c: string) {
    |c| < LongLine || IsWord(c)
  }

  /** A fitting group of words joins into a line that fits, holds no line break, and is
      empty only for the empty group. */
  lemma GroupedLine(g: seq<string>)
    requires Grouped(g)
    ensures Fits(JoinWords(g)) && '\n' !in JoinWords(g)
    ensures JoinWords(g) == "" <==> g == []
  {
    JoinWordsOneLine(g);
    if |g| > 1 {
      SpacedIsJoinPlusSpace(g);
    } else if |g| == 1 {
      assert IsWord(g[0]);
    }
    if g != [] {
      JoinWordsShape(g);
    }
  }

  /** The words of the joined groups are the groups' words. */
  lemma {:induction false} WordsOfJoined(groups: seq<seq<string>>)
    requires forall i :: 0 <= i < |groups| ==> AllWords(groups[i])
    ensures WordsOfAll(Joined(groups)) == Flatten(groups)
    decreases |groups|
  {
    if |groups| > 0 {
      var front := groups[..|groups| - 1];
      WordsOfJoined(front);
      WordsOfJoin(groups[|groups| - 1]);
      assert Joined(groups)[..|front|] == Joined(front);
    }
  }

  /** The cut of a paragraph keeps its words, in order and nothing else. */
  lemma ChunksKeepWords(line: string)
    ensures WordsOfAll(Chunks(line)) == Words(line)
  {
    var ws := Words(line);
    WordsAreWords(line);
    GroupsShape(ws);
    GroupsWords(ws);
    WordsOfJoined(Groups(ws));
  }

  /** A piece of a cut paragraph: it fits, and it is a single line. */
  predicate Piece(c: string) {
    Fits(c) && '\n' !in c
  }

  /** Each piece of a cut paragraph is a single line, shorter than 100 characters or one
      word. */
  lemma ChunksFitOneLine(line: string)
    ensures forall i :: 0 <= i < |Chunks(line)| ==> Piece(Chunks(line)[i])
  {
    var ws := Words(line);
    WordsAreWords(line);
    GroupsShape(ws);
    forall i | 0 <= i < |Chunks(line)| ensures Piece(Chunks(line)[i]) {
      GroupedLine(Groups(ws)[i]);
    }
  }

  /** A paragraph of whitespace alone is cut into nothing. Otherwise only the first piece
      can be empty, and it is exactly when the first word alone reaches 100 characters. */
  lemma ChunksEmptyFirst(line: string)
    ensures Words(line) == [] ==> Chunks(line) == []
    ensures forall i :: 0 < i < |Chunks(line)| ==> Chunks(line)[i] != ""
    ensures Words(line) != [] ==> |Chunks(line)| > 0 && (Chunks(line)[0] == "" <==> |Words(line)[0]| >= LongLine)
  {
    var ws := Words(line);
    WordsAreWords(line);
    GroupsShape(ws);
    forall i | 0 <= i < |Chunks(line)| ensures Chunks(line)[i] == "" <==> Groups(ws)[i] == [] {
      GroupedLine(Groups(ws)[i]);
    }
  }

  /** The inner loop of `_convert_youtube_to_instagram`: cuts a long paragraph into the
      lines it appends. */
  method ChunkLine(line: string) returns (chunks: seq<string>)
    ensures chunks == Chunks(line)
  {
    var words := Words(line);
    WordsAreWords(line);
    var current := "";
    ghost var done: seq<seq<string>> := [];
    ghost var held: seq<string> := [];
    chunks := [];
    for i := 0 to |words|
      invariant ChunkState(words[..i]) == Chunking(done, held)
      invariant chunks == Joined(done)
      invariant current == Spaced(held)
      invariant AllWords(held)
    {
      var word := words[i];
      ChunkStateNext(words, i);
      assert IsWord(word);
      if |current + word| < LongLine {
        SpacedAppend(held, word);
        AllWordsAppend(held, word);
        current := current + word + " ";
        held := held + [word];
      } else {
        var closed := CloseLine(current, held);
        JoinedAppend(done, held);
        chunks := chunks + [closed];
        done := done + [held];
        current := word + " ";
        held := [word];
        assert AllWords(held);
      }
    }
    assert words[..|words|] == words;
    var last := CloseLine(current, held);
    if held != [] {
      JoinWordsShape(held);
    }
    if last != "" {
      chunks := chunks + [last];
    }
  }

  lemma ChunkStateNext(ws: seq<string>, i: nat)
    requires i < |ws|
    ensures var s := ChunkState(ws[..i]);
            ChunkState(ws[..i + 1]) == if |Spaced(s.held) + ws[i]| < LongLine then Chunking(s.done, s.held + [ws[i]])
                                       else Chunking(s.done + [s.held], [ws[i]])
  {
    assert ws[..i + 1][..i] == ws[..i];
  }

  lemma JoinedAppend(groups: seq<seq<string>>, g: seq<string>)
    ensures Joined(groups + [g]) == Joined(groups) + [JoinWords(g)]
  {
    assert (groups + [g])[..|groups|] == groups;
  }

  /** `current_line.strip()`: the held words joined by single spaces. */
  method CloseLine(current: string, ghost held: seq<string>) returns (line: string)
    requires current == Spaced(held) && AllWords(held)
    ensures line == JoinWords(held)
  {
    StripSpaced(held);
    line := Strip(current);
  }

  /** `line.replace('#', '').strip()`: a heading without its `#` marks. */
  function Heading(line: string): string {
    Strip(Replace(line, "#", ""))
  }

  /** A heading keeps no `#` and no surrounding whitespace, and adds no character the
      line did not have. */
  lemma HeadingClean(line: string)
    ensures '#' !in Heading(line)
    ensures Heading(line) == [] || (!IsSpace(Heading(line)[0]) && !IsSpace(Heading(line)[|Heading(line)| - 1]))
    ensures forall d :: d in Heading(line) ==> d in line
  {
    ReplaceCharByNothing(line, '#');
    StripWithin(Replace(line, "#", ""));
  }

  /** The lines one input line turns into for Instagram: a heading loses its marks, a
      paragraph over 100 characters is cut, any other line is kept. */
  function LinesFor(line: string): seq<string> {
    if StartsWith(line, "#") then [Heading(line)]
    else if |line| > LongLine then Chunks(line)
    else [line]
  }

  /** The Instagram lines for a sequence of YouTube lines, in order. */
  function InstagramLines(lines: seq<string>): seq<string>
    decreases |lines|
  {
    if |lines| == 0 then [] else InstagramLines(lines[..|lines| - 1]) + LinesFor(lines[|lines| - 1])
  }

  /** `_convert_youtube_to_instagram`, as the text it returns. */
  function YoutubeToInstagramText(content: string): string {
    Join(InstagramLines(Split(content, "\n")), "\n")
  }

  /** `_convert_youtube_to_instagram`: converts the content line by line and joins the
      resulting lines with line breaks. */
  method YoutubeToInstagram(content: string) returns (r: string)
    ensures r == YoutubeToInstagramText(content)
  {
    var lines := Split(content, "\n");
    var converted: seq<string> := [];
    for i := 0 to |lines|
      invariant converted == InstagramLines(lines[..i])
    {
      InstagramLinesNext(lines, i);
      var pieces := LineToInstagram(lines[i]);
      converted := converted + pieces;
    }
    assert lines[..|lines|] == lines;
    r := Join(converted, "\n");
  }

  /** The body of `_convert_youtube_to_instagram`'s loop for one line. */
  method LineToInstagram(line: string) returns (pieces: seq<string>)
    ensures pieces == LinesFor(line)
  {
    if StartsWith(line, "#") {
      pieces := [Strip(Replace(line, "#", ""))];
    } else if |line| > LongLine {
      pieces := ChunkLine(line);
    } else {
      pieces := [line];
    }
  }

  lemma InstagramLinesNext(lines: seq<string>, i: nat)
    requires i < |lines|
    ensures InstagramLines(lines[..i + 1]) == InstagramLines(lines[..i]) + LinesFor(lines[i])
  {
    assert lines[..i + 1][..i] == lines[..i];
  }

  /** A line without a line break turns into lines without one. */
  lemma LinesForOneLine(line: string)
    requires '\n' !in line
    ensures forall i :: 0 <= i < |LinesFor(line)| ==> '\n' !in LinesFor(line)[i]
  {
    if StartsWith(line, "#") {
      HeadingClean(line);
      assert LinesFor(line) == [Heading(line)];
    } else if |line| > LongLine {
      ChunksFitOneLine(line);
      assert LinesFor(line) == Chunks(line);
      forall i | 0 <= i < |Chunks(line)| ensures '\n' !in Chunks(line)[i] {
        assert Piece(Chunks(line)[i]);
      }
    } else {
      assert LinesFor(line) == [line];
    }
  }

  /** Lines without line breaks turn into lines without one. */
  lemma {:induction false} InstagramLinesOneLine(lines: seq<string>)
    requires forall i :: 0 <= i < |lines| ==> '\n' !in lines[i]
    ensures forall i :: 0 <= i < |InstagramLines(lines)| ==> '\n' !in InstagramLines(lines)[i]
    decreases |lines|
  {
    if |lines| > 0 {
      InstagramLinesOneLine(lines[..|lines| - 1]);
      LinesForOneLine(lines[|lines| - 1]);
    }
  }

  /** The pieces of a split at line breaks hold none. */
  lemma SplitLinesOneLine(content: string)
    ensures forall i :: 0 <= i < |Split(content, "\n")| ==> '\n' !in Split(content, "\n")[i]
  {
    forall i | 0 <= i < |Split(content, "\n")| ensures '\n' !in Split(content, "\n")[i] {
      SplitPiecesAvoidSep(content, "\n", i);
      ContainsChar(Split(content, "\n")[i], '\n');
    }
  }

  /** The lines of the Instagram text are exactly the converted lines, when there are any. */
  lemma YoutubeToInstagramLines(content: string)
    requires InstagramLines(Split(content, "\n")) != []
    ensures Split(YoutubeToInstagramText(content), "\n") == InstagramLines(Split(content, "\n"))
  {
    SplitLinesOneLine(content);
    InstagramLinesOneLine(Split(content, "\n"));
    SplitJoin(InstagramLines(Split(content, "\n")), '\n');
  }

  // ---------------------------------------------------------------------------
  // Instagram -> YouTube
  // ---------------------------------------------------------------------------

  /** A line with more than whitespace. */
  predicate NonBlank(line: string) {
    HasText(line)
  }

  /** The section a line turns into on YouTube: a sub-heading, a blank line, the prompt to
      add detail and a blank line; a blank line turns into nothing. */
  function Section(line: string): seq<string> {
    if NonBlank(line) then ["## " + line, "", DetailPrompt, ""] else []
  }

  /** The sections for a sequence of lines, in order. */
  function Sections(lines: seq<string>): seq<string>
    decreases |lines|
  {
    if |lines| == 0 then [] else Sections(lines[..|lines| - 1]) + Section(lines[|lines| - 1])
  }

  /** The lines that are not blank, in order. */
  function Kept(lines: seq<string>): seq<string>
    decreases |lines|
  {
    if |lines| == 0 then []
    else Kept(lines[..|lines| - 1]) + (if NonBlank(lines[|lines| - 1]) then [lines[|lines| - 1]] else [])
  }

  /** The kept lines are exactly the non-blank ones. */
  lemma {:induction false} KeptLines(lines: seq<string>)
    ensures forall l :: l in Kept(lines) <==> l in lines && NonBlank(l)
    decreases |lines|
  {
    if |lines| > 0 {
      var front, last := lines[..|lines| - 1], lines[|lines| - 1];
      KeptLines(front);
      assert lines == front + [last];
    }
  }

  /** The sections are four lines per non-blank line, the k-th four made from the k-th
      non-blank line. */
  lemma {:induction false} SectionsShape(lines: seq<string>)
    ensures |Sections(lines)| == 4 * |Kept(lines)|
    ensures forall k :: 0 <= k < |Kept(lines)| ==>
              Sections(lines)[4 * k..4 * k + 4] == ["## " + Kept(lines)[k], "", DetailPrompt, ""]
    decreases |lines|
  {
    if |lines| > 0 {
      var front, last := lines[..|lines| - 1], lines[|lines| - 1];
      SectionsShape(front);
      var s := Sections(front);
      assert Sections(lines) == s + Section(last);
      if NonBlank(last) {
        assert Kept(lines) == Kept(front) + [last];
        assert |Section(last)| == 4;
      } else {
        assert Kept(lines) == Kept(front);
        assert Section(last) == [];
      }
      forall k | 0 <= k < |Kept(front)|
        ensures Sections(lines)[4 * k..4 * k + 4] == s[4 * k..4 * k + 4]
      {
        assert 4 * k + 4 <= |s|;
      }
    }
  }

  /** `_convert_instagram_to_youtube`, as the text it returns. */
  function InstagramToYoutubeText(content: string): string {
    Join([YoutubeTitle, ""] + Sections(Split(content, "\n")), "\n")
  }

  /** `_convert_instagram_to_youtube`: the title and a blank line, then a section per
      non-blank line, joined with line breaks. */
  method InstagramToYoutube(content: string) returns (r: string)
    ensures r == InstagramToYoutubeText(content)
  {
    var lines := Split(content, "\n");
    var converted := [YoutubeTitle, ""];
    for i := 0 to |lines|
      invariant converted == [YoutubeTitle, ""] + Sections(lines[..i])
    {
      SectionsNext(lines, i);
      converted := AddSection(converted, lines[i]);
    }
    assert lines[..|lines|] == lines;
    r := Join(converted, "\n");
  }

  /** The body of `_convert_instagram_to_youtube`'s loop for one line. */
  method AddSection(converted: seq<string>, line: string) returns (r: seq<string>)
    ensures r == converted + Section(line)
  {
    r := converted;
    var blank := IsBlank(line);
    if !blank {
      r := r + ["## " + line];
      r := r + [""];
      r := r + [DetailPrompt];
      r := r + [""];
      assert r == converted + ["## " + line, "", DetailPrompt, ""];
    }
  }

  /** `not line.strip()`. */
  method IsBlank(line: string) returns (b: bool)
    ensures b <==> !NonBlank(line)
  {
    StripNonEmpty(line);
    b := Strip(line) == "";
  }

  lemma SectionsNext(lines: seq<string>, i: nat)
    requires i < |lines|
    ensures Sections(lines[..i + 1]) == Sections(lines[..i]) + Section(lines[i])
  {
    assert lines[..i + 1][..i] == lines[..i];
  }

  /** A section of a line without line breaks holds none. */
  lemma {:induction false} SectionsOneLine(lines: seq<string>)
    requires forall i :: 0 <= i < |lines| ==> '\n' !in lines[i]
    ensures forall i :: 0 <= i < |Sections(lines)| ==> '\n' !in Sections(lines)[i]
    decreases |lines|
  {
    if |lines| > 0 {
      SectionsOneLine(lines[..|lines| - 1]);
      assert '\n' !in DetailPrompt;
    }
  }

  /** The lines of the YouTube text are the title, a blank line and the sections. */
  lemma InstagramToYoutubeLines(content: string)
    ensures Split(InstagramToYoutubeText(content), "\n") == [YoutubeTitle, ""] + Sections(Split(content, "\n"))
  {
    SplitLinesOneLine(content);
    SectionsOneLine(Split(content, "\n"));
    var all := [YoutubeTitle, ""] + Sections(Split(content, "\n"));
    assert '\n' !in YoutubeTitle;
    forall i | 0 <= i < |all| ensures '\n' !in all[i] {
      if i >= 2 {
        assert all[i] == Sections(Split(content, "\n"))[i - 2];
      }
    }
    SplitJoin(all, '\n');
  }

  // ---------------------------------------------------------------------------
  // The generic rule
  // ---------------------------------------------------------------------------

  /** `content.replace("\n\n", "\n")`: one left-to-right pass. */
  function CollapseBreaks(content: string): string {
    Replace(content, "\n\n", "\n")
  }

  /** The pass shortens the text by one character per pair of line breaks it meets, so the
      text keeps its length exactly when it holds no two line breaks in a row. */
  lemma {:induction false} CollapseBreaksLength(content: string)
    ensures |CollapseBreaks(content)| <= |content|
    ensures |CollapseBreaks(content)| == |content| <==> !Contains(content, "\n\n")
    decreases |content|
  {
    if StartsWith(content, "\n\n") {
      CollapseBreaksLength(content[2..]);
    } else if |content| > 0 {
      CollapseBreaksLength(content[1..]);
    }
  }

  /** One pass can leave two line breaks in a row: three become two. */
  lemma CollapseOnce()
    ensures CollapseBreaks("\n\n\n") == "\n\n"
  {
    assert StartsWith("\n\n\n", "\n\n");
    assert "\n\n\n"[2..] == "\n";
    assert !StartsWith("\n", "\n\n");
    assert "\n"[1..] == "";
  }

  /** `_apply_generic_conversion`, keyed by the target alone: X shortens, Instagram makes
      one pass collapsing double line breaks, YouTube asks for more detail below 500
      characters, and anything else is kept. */
  function Generic(content: string, source: string, target: string): (r: string)
    ensures target == "x" ==> r == Truncate(content)
    ensures target == "instagram" ==> |r| <= |content| && (|r| == |content| <==> !Contains(content, "\n\n"))
    ensures target == "youtube" ==> StartsWith(r, content) && (r == content <==> |content| >= YoutubeShort)
    ensures target != "x" && target != "instagram" && target != "youtube" ==> r == content
  {
    if target == "x" then Truncate(content)
    else if target == "instagram" then
      CollapseBreaksLength(content);
      CollapseBreaks(content)
    else if target == "youtube" then
      if |content| < YoutubeShort then
        assert (content + MoreDetail)[..|content|] == content;
        content + MoreDetail
      else content
    else content
  }

  // ---------------------------------------------------------------------------
  // Dispatch
  // ---------------------------------------------------------------------------

  /** One of the six pairs with a rule of its own. */
  predicate Dedicated(source: string, target: string) {
    || (source == "youtube" && target == "instagram")
    || (source == "instagram" && target == "youtube")
    || (source == "x" && target == "instagram")
    || (source == "instagram" && target == "x")
    || (source == "threads" && target == "instagram")
    || (source == "instagram" && target == "threads")
  }

  /** `_convert_content` on text already read: the rule of the pair, or the generic one. */
  function ConvertText(content: string, source: string, target: string): string {
    if source == "youtube" && target == "instagram" then YoutubeToInstagramText(content)
    else if source == "instagram" && target == "youtube" then InstagramToYoutubeText(content)
    else if source == "x" && target == "instagram" then XToInstagram(content)
    else if source == "instagram" && target == "x" then Truncate(content)
    else if source == "threads" && target == "instagram" then content
    else if source == "instagram" && target == "threads" then content
    else Generic(content, source, target)
  }

  /** Text for X never exceeds 280 characters, whatever the source platform. */
  lemma ForXFits(content: string, source: string)
    ensures |ConvertText(content, source, "x")| <= XLimit
  {
  }

  /** Threads and Instagram take each other's text unchanged. */
  lemma ThreadsInstagramIdentity(content: string)
    ensures ConvertText(content, "threads", "instagram") == content
    ensures ConvertText(content, "instagram", "threads") == content
  {
  }

  /** Pairs without a rule of their own use the generic rule of their target. */
  lemma OtherPairsGeneric(content: string, source: string, target: string)
    requires !Dedicated(source, target)
    ensures ConvertText(content, source, target) == Generic(content, source, target)
  {
  }

  /** Between two different supported platforms the generic rule never targets Instagram:
      every source has a rule of its own for it. */
  lemma GenericNeverForInstagram(source: string, target: string)
    requires source in Platforms && target in Platforms && source != target
    ensures !Dedicated(source, target) ==> target != "instagram"
    ensures !Dedicated(source, target) <==> source != "instagram" && target != "instagram"
  {
  }

  /** `_convert_content` on text already read: calls the rule of the pair. */
  method ConvertContent(content: string, source: string, target: string) returns (r: string)
    ensures r == ConvertText(content, source, target)
  {
    if source == "youtube" && target == "instagram" {
      r := YoutubeToInstagram(content);
    } else if source == "instagram" && target == "youtube" {
      r := InstagramToYoutube(content);
    } else if source == "x" && target == "instagram" {
      r := XToInstagram(content);
    } else if source == "instagram" && target == "x" {
      r := Truncate(content);
    } else if source == "threads" && target == "instagram" {
      r := content;
    } else if source == "instagram" && target == "threads" {
      r := content;
    } else {
      r := Generic(content, source, target);
    }
  }

  // ---------------------------------------------------------------------------
  // The command
  // ---------------------------------------------------------------------------

  /** `Path.parent` of a relative path; the parent of `.` is `.`. */
  function Parent(p: Path): Path {
    if |p| == 0 then [] else p[..|p| - 1]
  }

  /** The default output file: `<stem>_<target><suffix>` beside the content file. */
  function DefaultOutput(content: Path, target: string): (r: Path)
    ensures |r| > 0 && Parent(r) == Parent(content)
    ensures Name(r) == Stem(Name(content)) + "_" + target + Suffix(Name(content))
  {
    Parent(content) + [Stem(Name(content)) + "_" + target + Suffix(Name(content))]
  }

  /** The default output file is never the content file itself. */
  lemma DefaultOutputIsNew(content: Path, target: string)
    ensures DefaultOutput(content, target) != content
  {
    var n := Name(content);
    assert |Stem(n)| + |Suffix(n)| == |n|;
    assert |Name(DefaultOutput(content, target))| == |n| + 1 + |target|;
  }

  /** The output file: the one asked for, or the default. An absent or empty `--output`
      is `None`. */
  function OutputFile(content: Path, output: Option<Path>, target: string): Path {
    match output
    case Some(p) => p
    case None => DefaultOutput(content, target)
  }

  /** `open(content_file, 'r', encoding='utf-8').read()`: `None` when the path is not a
      file or its bytes are not UTF-8. */
  function ReadText(files: Tree, p: Path, codec: Codec): Option<string> {
    if p in files then codec.decode(files[p]) else None
  }

  /** Both platforms are supported and they differ. */
  predicate ValidPair(source: string, target: string) {
    source in Platforms && target in Platforms && source != target
  }

  /** `platform`: checks the platforms and that the content exists, refuses an existing
      output file unless `force` is set, reads and converts the content and writes the
      result. Every failure, raised or refused, ends with exit status 1 and leaves the
      files as they were (`None`); success leaves the converted text at the output file
      and changes nothing else. */
  method Platform(files: Tree, source: string, target: string, content: Path, output: Option<Path>, force: bool,
                  codec: Codec)
    returns (r: Option<Tree>)
    ensures var out := OutputFile(content, output, target);
            r.Some? <==> && ValidPair(source, target)
                         && ReadText(files, content, codec).Some?
                         && (force || !Exists(files, out))
                         && WriteFile(files, out, []).Some?
    ensures r.Some? ==>
              var out := OutputFile(content, output, target);
              var text := ConvertText(ReadText(files, content, codec).value, source, target);
              r.value.Keys == files.Keys + {out} && r.value[out] == codec.encode(text)
              && forall q :: q in files && q != out ==> r.value[q] == files[q]
  {
    if source !in Platforms || target !in Platforms || source == target {
      return None;
    }
    if !Exists(files, content) {
      return None;
    }
    var out := OutputFile(content, output, target);
    if Exists(files, out) && !force {
      return None;
    }
    var read := ReadText(files, content, codec);
    if read.None? {
      return None;  // a directory, or bytes that are not UTF-8
    }
    var text := ConvertContent(read.value, source, target);
    r := WriteFile(files, out, codec.encode(text));
  }
}
