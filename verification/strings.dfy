/** Python string operations used by the tool, with the semantics of CPython's `str` methods. */
module Strings {

  predicate StartsWith(s: string, prefix: string) {
    |prefix| <= |s| && s[..|prefix|] == prefix
  }

  predicate EndsWith(s: string, suffix: string) {
    |suffix| <= |s| && s[|s| - |suffix|..] == suffix
  }

  /** Python's `sub in s`. */
  predicate Contains(s: string, sub: string)
    decreases |s|
  {
    StartsWith(s, sub) || (|s| > 0 && Contains(s[1..], sub))
  }

  /** The characters for which Python's `str.isspace()` holds: tab to carriage return,
      the four information separators, space, next line, no-break space, the Ogham space
      mark, the spaces from en quad to hair space, the line and paragraph separators, the
      narrow no-break space, the medium mathematical space and the ideographic space. */
  predicate IsSpace(c: char) {
    || ('\t' <= c <= '\r')
    || ('\U{1c}' <= c <= ' ')
    || c == '\U{85}' || c == '\U{a0}' || c == '\U{1680}'
    || ('\U{2000}' <= c <= '\U{200a}')
    || c == '\U{2028}' || c == '\U{2029}' || c == '\U{202f}' || c == '\U{205f}' || c == '\U{3000}'
  }

  function LStrip(s: string): (r: string)
    ensures |r| <= |s| && r == s[|s| - |r|..]
    ensures r == [] || !IsSpace(r[0])
    decreases |s|
  {
    if |s| > 0 && IsSpace(s[0]) then LStrip(s[1..]) else s
  }

  function RStrip(s: string): (r: string)
    ensures |r| <= |s| && r == s[..|r|]
    ensures r == [] || !IsSpace(r[|r| - 1])
    decreases |s|
  {
    if |s| > 0 && IsSpace(s[|s| - 1]) then RStrip(s[..|s| - 1]) else s
  }

  /** Python's `s.strip()`: whitespace removed from both ends. */
  function Strip(s: string): (r: string)
    ensures r == [] || (!IsSpace(r[0]) && !IsSpace(r[|r| - 1]))
  {
    RStrip(LStrip(s))
  }

  /** Some character is not whitespace. */
  predicate HasText(s: string)
    decreases |s|
  {
    |s| > 0 && (!IsSpace(s[0]) || HasText(s[1..]))
  }

  /** `s.strip()` is non-empty exactly when `s` holds a character that is not whitespace. */
  lemma StripNonEmpty(s: string)
    ensures Strip(s) != "" <==> HasText(s)
  {
    LStripNonEmpty(s);
    if LStrip(s) != "" {
      RStripKeepsText(LStrip(s));
    }
  }

  lemma {:induction false} LStripNonEmpty(s: string)
    ensures LStrip(s) != "" <==> HasText(s)
    decreases |s|
  {
    if |s| > 0 {
      LStripNonEmpty(s[1..]);
    }
  }

  lemma {:induction false} RStripKeepsText(t: string)
    requires |t| > 0 && !IsSpace(t[0])
    ensures RStrip(t) != ""
    decreases |t|
  {
    if |t| > 1 && IsSpace(t[|t| - 1]) {
      RStripKeepsText(t[..|t| - 1]);
    }
  }

  /** Python's `"".join` with a separator. */
  function Join(parts: seq<string>, sep: string): string {
    if |parts| == 0 then ""
    else if |parts| == 1 then parts[0]
    else parts[0] + sep + Join(parts[1..], sep)
  }

  /** Python's `s.split(sep)` for a non-empty separator: a left-to-right scan that cuts at
      every non-overlapping occurrence of `sep`. */
  function Split(s: string, sep: string): (r: seq<string>)
    requires |sep| > 0
    ensures |r| >= 1
    decreases |s|
  {
    if StartsWith(s, sep) then [""] + Split(s[|sep|..], sep)
    else if |s| == 0 then [""]
    else
      var rest := Split(s[1..], sep);
      [[s[0]] + rest[0]] + rest[1..]
  }

  /** A string without the one-character separator splits into itself alone. */
  lemma {:induction false} SplitWithout(s: string, c: char)
    requires c !in s
    ensures Split(s, [c]) == [s]
    decreases |s|
  {
    if |s| > 0 {
      SplitWithout(s[1..], c);
      assert [s[0]] + s[1..] == s;
    }
  }

  /** A split cuts at the first separator after a piece without one. */
  lemma {:induction false} SplitAfter(a: string, c: char, rest: string)
    requires c !in a
    ensures Split(a + [c] + rest, [c]) == [a] + Split(rest, [c])
    decreases |a|
  {
    if |a| == 0 {
      assert a + [c] + rest == [c] + rest;
      assert ([c] + rest)[1..] == rest;
    } else {
      SplitAfter(a[1..], c, rest);
      assert (a + [c] + rest)[1..] == a[1..] + [c] + rest;
      assert [a[0]] + a[1..] == a;
    }
  }

  /** Joining the pieces of a split with the same separator gives back the string. */
  lemma {:induction false} JoinSplit(s: string, sep: string)
    requires |sep| > 0
    ensures Join(Split(s, sep), sep) == s
    decreases |s|
  {
    if StartsWith(s, sep) {
      var tail := s[|sep|..];
      JoinSplit(tail, sep);
      JoinCons("", Split(tail, sep), sep);
      assert s == sep + tail;
    } else if |s| > 0 {
      var tail := s[1..];
      JoinSplit(tail, sep);
      var rest := Split(tail, sep);
      JoinConsChar(s[0], rest, sep);
      assert s == [s[0]] + tail;
    }
  }

  lemma JoinCons(p: string, rest: seq<string>, sep: string)
    requires |rest| > 0
    ensures Join([p] + rest, sep) == p + sep + Join(rest, sep)
  {
    assert ([p] + rest)[1..] == rest;
  }

  /** Prepending a character to the first part prepends it to the join. */
  lemma JoinConsChar(c: char, rest: seq<string>, sep: string)
    requires |rest| > 0
    ensures Join([[c] + rest[0]] + rest[1..], sep) == [c] + Join(rest, sep)
  {
    var pieces := [[c] + rest[0]] + rest[1..];
    if |rest| > 1 {
      assert pieces[1..] == rest[1..];
    }
  }

  /** The first piece of a split is a prefix of the string. */
  lemma {:induction false} SplitFirstIsPrefix(s: string, sep: string)
    requires |sep| > 0
    ensures StartsWith(s, Split(s, sep)[0])
    decreases |s|
  {
    if StartsWith(s, sep) {
    } else if |s| == 0 {
    } else {
      SplitFirstIsPrefix(s[1..], sep);
      var rest := Split(s[1..], sep);
      assert Split(s, sep)[0] == [s[0]] + rest[0];
      assert s[1..][..|rest[0]|] == rest[0];
      assert s[..1 + |rest[0]|] == [s[0]] + s[1..][..|rest[0]|];
    }
  }

  /** No piece of a split contains the separator; in particular the last piece is the text
      after the last occurrence of the separator. */
  lemma {:induction false} SplitPiecesAvoidSep(s: string, sep: string, i: nat)
    requires |sep| > 0
    requires i < |Split(s, sep)|
    ensures !Contains(Split(s, sep)[i], sep)
    decreases |s|
  {
    if StartsWith(s, sep) {
      if i > 0 {
        SplitPiecesAvoidSep(s[|sep|..], sep, i - 1);
      }
    } else if |s| == 0 {
    } else {
      var rest := Split(s[1..], sep);
      if i == 0 {
        var x := [s[0]] + rest[0];
        SplitPiecesAvoidSep(s[1..], sep, 0);
        SplitFirstIsPrefix(s[1..], sep);
        assert x[1..] == rest[0];
      } else {
        SplitPiecesAvoidSep(s[1..], sep, i);
      }
    }
  }

  /** A string that contains the separator splits into at least two pieces. */
  lemma {:induction false} SplitAtOccurrence(s: string, sep: string)
    requires |sep| > 0
    requires Contains(s, sep)
    ensures |Split(s, sep)| >= 2
    decreases |s|
  {
    if !StartsWith(s, sep) {
      SplitAtOccurrence(s[1..], sep);
    }
  }

  /** With two or more parts, the join ends with the separator and the last part. */
  lemma {:induction false} JoinLast(parts: seq<string>, sep: string)
    requires |parts| >= 2
    ensures EndsWith(Join(parts, sep), sep + parts[|parts| - 1])
    decreases |parts|
  {
    if |parts| > 2 {
      JoinLast(parts[1..], sep);
    }
  }

  /** The last piece of a split at an occurring separator is the text after the separator's
      last occurrence: the string ends with separator and piece, and the piece holds no
      separator. */
  lemma LastPiece(s: string, sep: string)
    requires |sep| > 0
    requires Contains(s, sep)
    ensures var parts := Split(s, sep);
      EndsWith(s, sep + parts[|parts| - 1]) && !Contains(parts[|parts| - 1], sep)
  {
    var parts := Split(s, sep);
    SplitAtOccurrence(s, sep);
    JoinSplit(s, sep);
    JoinLast(parts, sep);
    SplitPiecesAvoidSep(s, sep, |parts| - 1);
  }

  /** Python's `s.replace(pat, rep)` for a non-empty `pat`: one left-to-right pass. */
  function Replace(s: string, pat: string, rep: string): string
    requires |pat| > 0
    decreases |s|
  {
    if StartsWith(s, pat) then rep + Replace(s[|pat|..], pat, rep)
    else if |s| == 0 then ""
    else [s[0]] + Replace(s[1..], pat, rep)
  }

  /** Deleting every occurrence of a single character leaves only characters of the
      string, none of them that one. */
  lemma {:induction false} ReplaceCharByNothing(s: string, c: char)
    ensures c !in Replace(s, [c], "")
    ensures forall d :: d in Replace(s, [c], "") ==> d in s
    ensures |Replace(s, [c], "")| <= |s|
    decreases |s|
  {
    if |s| > 0 {
      ReplaceCharByNothing(s[1..], c);
      assert StartsWith(s, [c]) <==> s[0] == c by { assert |s[..1]| == 1; }
    }
  }

  /** Stripping keeps only characters of the string. */
  lemma StripWithin(s: string)
    ensures forall d :: d in Strip(s) ==> d in s
  {
    var l := LStrip(s);
    forall d | d in Strip(s) ensures d in s {
      var i :| 0 <= i < |Strip(s)| && Strip(s)[i] == d;
      assert l[i] == d;
      assert s[|s| - |l| + i] == d;
    }
  }

  /** A one-character string occurs in `s` exactly when the character does. */
  lemma {:induction false} ContainsChar(s: string, c: char)
    ensures Contains(s, [c]) <==> c in s
    decreases |s|
  {
    if |s| > 0 {
      ContainsChar(s[1..], c);
      assert StartsWith(s, [c]) <==> s[0] == c by { assert |s[..1]| == 1; }
      assert s == [s[0]] + s[1..];
    }
  }

  /** Splitting a join at a one-character separator that no part contains gives back the
      parts. */
  lemma {:induction false} SplitJoin(parts: seq<string>, c: char)
    requires |parts| > 0
    requires forall i :: 0 <= i < |parts| ==> c !in parts[i]
    ensures Split(Join(parts, [c]), [c]) == parts
    decreases |parts|
  {
    if |parts| == 1 {
      SplitWithout(parts[0], c);
    } else {
      SplitJoin(parts[1..], c);
      SplitAfter(parts[0], c, Join(parts[1..], [c]));
      assert parts == [parts[0]] + parts[1..];
    }
  }

  /** Length of the leading run of non-space characters. */
  function WordLength(s: string): (n: nat)
    ensures n <= |s|
    ensures forall i :: 0 <= i < n ==> !IsSpace(s[i])
    ensures n == |s| || IsSpace(s[n])
    decreases |s|
  {
    if |s| == 0 || IsSpace(s[0]) then 0 else 1 + WordLength(s[1..])
  }

  /** Python's `s.split()` with no argument: the maximal runs of non-space characters. */
  function Words(s: string): seq<string>
    decreases |s|
  {
    var t := LStrip(s);
    if |t| == 0 then []
    else
      var n := WordLength(t);
      [t[..n]] + Words(t[n..])
  }

  /** A word: non-empty and free of whitespace. */
  predicate IsWord(w: string) {
    |w| > 0 && forall i :: 0 <= i < |w| ==> !IsSpace(w[i])
  }

  predicate AllWords(ws: seq<string>) {
    forall i :: 0 <= i < |ws| ==> IsWord(ws[i])
  }

  lemma AllWordsCons(w: string, ws: seq<string>)
    requires IsWord(w) && AllWords(ws)
    ensures AllWords([w] + ws)
  {
  }

  lemma AllWordsAppend(ws: seq<string>, w: string)
    requires AllWords(ws) && IsWord(w)
    ensures AllWords(ws + [w])
  {
    forall i | 0 <= i < |ws| + 1 ensures IsWord((ws + [w])[i]) {
      if i < |ws| {
        assert (ws + [w])[i] == ws[i];
      }
    }
  }

  /** Every element of `Words(s)` is a word. */
  lemma {:induction false} WordsAreWords(s: string)
    ensures AllWords(Words(s))
    decreases |s|
  {
    var t := LStrip(s);
    if |t| > 0 {
      var n := WordLength(t);
      assert IsWord(t[..n]);
      WordsAreWords(t[n..]);
      AllWordsCons(t[..n], Words(t[n..]));
    }
  }

  /** Words joined by single spaces. */
  function JoinWords(ws: seq<string>): string {
    Join(ws, " ")
  }

  /** Python's `s.split()` undoes a join by single spaces. */
  lemma {:induction false} WordsOfJoin(ws: seq<string>)
    requires AllWords(ws)
    ensures Words(JoinWords(ws)) == ws
    decreases |ws|
  {
    if |ws| == 1 {
      WordsOfWord(ws[0]);
    } else if |ws| > 1 {
      var w, tail := ws[0], ws[1..];
      assert ws == [w] + tail;
      assert AllWords(tail) by {
        forall i | 0 <= i < |tail| ensures IsWord(tail[i]) {
          assert tail[i] == ws[i + 1];
        }
      }
      WordsOfJoinCons(w, tail);
      WordsOfJoin(tail);
    }
  }

  lemma WordsOfJoinCons(w: string, tail: seq<string>)
    requires IsWord(w) && |tail| > 0
    ensures Words(JoinWords([w] + tail)) == [w] + Words(JoinWords(tail))
  {
    var j := JoinWords(tail);
    assert ([w] + tail)[1..] == tail;
    assert JoinWords([w] + tail) == w + (" " + j);
    WordsAfterWord(w, " " + j);
    WordsSkipSpace(' ', j);
    assert [' '] + j == " " + j;
  }

  /** A word followed by a space or by nothing is the first element of the split. */
  lemma WordsAfterWord(w: string, rest: string)
    requires IsWord(w)
    requires rest == [] || IsSpace(rest[0])
    ensures Words(w + rest) == [w] + Words(rest)
  {
    var s := w + rest;
    WordLengthOfWord(w, rest);
    assert LStrip(s) == s;
    assert s[..|w|] == w;
    assert s[|w|..] == rest;
  }

  lemma WordsOfWord(w: string)
    requires IsWord(w)
    ensures Words(w) == [w]
  {
    assert WordLength(w) == |w| by {
      WordLengthOfWord(w, "");
      assert w + "" == w;
    }
    assert LStrip(w) == w;
    assert w[..|w|] == w;
    assert Words(w[|w|..]) == [] by {
      assert w[|w|..] == "";
    }
  }

  /** Leading whitespace does not change the split. */
  lemma WordsSkipSpace(c: char, j: string)
    requires IsSpace(c)
    ensures Words([c] + j) == Words(j)
  {
    assert ([c] + j)[1..] == j;
    assert LStrip([c] + j) == LStrip(j);
  }

  /** The leading word of `w + rest` is `w` when `rest` is empty or starts with a space. */
  lemma {:induction false} WordLengthOfWord(w: string, rest: string)
    requires IsWord(w)
    requires rest == [] || IsSpace(rest[0])
    ensures WordLength(w + rest) == |w|
    decreases |w|
  {
    if |w| > 1 {
      WordLengthOfWord(w[1..], rest);
      assert (w + rest)[1..] == w[1..] + rest;
    } else {
      assert (w + rest)[1..] == rest;
    }
  }

  /** A space-joined list of words starts and ends with a non-space character. */
  lemma {:induction false} JoinWordsShape(ws: seq<string>)
    requires |ws| > 0
    requires AllWords(ws)
    ensures |JoinWords(ws)| > 0
    ensures !IsSpace(JoinWords(ws)[0])
    ensures !IsSpace(JoinWords(ws)[|JoinWords(ws)| - 1])
    decreases |ws|
  {
    if |ws| > 1 {
      JoinWordsShape(ws[1..]);
      assert JoinWords(ws) == ws[0] + " " + JoinWords(ws[1..]);
    }
  }

  /** Words joined by single spaces hold no line break. */
  lemma {:induction false} JoinWordsOneLine(ws: seq<string>)
    requires AllWords(ws)
    ensures '\n' !in JoinWords(ws)
    decreases |ws|
  {
    assert IsSpace('\n');
    if |ws| > 1 {
      assert AllWords(ws[1..]) by {
        forall i | 0 <= i < |ws| - 1 ensures IsWord(ws[1..][i]) {
          assert ws[1..][i] == ws[i + 1];
        }
      }
      JoinWordsOneLine(ws[1..]);
    }
  }

  /** Each word followed by one space: the accumulator `current_line += word + " "`. */
  function Spaced(ws: seq<string>): string {
    if |ws| == 0 then "" else ws[0] + " " + Spaced(ws[1..])
  }

  /** Stripping the accumulator leaves the words joined by single spaces. */
  lemma {:induction false} StripSpaced(ws: seq<string>)
    requires AllWords(ws)
    ensures Strip(Spaced(ws)) == JoinWords(ws)
  {
    if |ws| == 0 {
    } else {
      SpacedIsJoinPlusSpace(ws);
      JoinWordsShape(ws);
      var j := JoinWords(ws);
      assert LStrip(j + " ") == j + " ";
      assert (j + " ")[..|j + " "| - 1] == j;
      assert RStrip(j + " ") == RStrip(j);
    }
  }

  lemma {:induction false} SpacedIsJoinPlusSpace(ws: seq<string>)
    requires |ws| > 0
    ensures Spaced(ws) == JoinWords(ws) + " "
    decreases |ws|
  {
    if |ws| > 1 {
      SpacedIsJoinPlusSpace(ws[1..]);
    }
  }

  /** `Spaced` distributes over concatenation. */
  lemma {:induction false} SpacedAppend(ws: seq<string>, w: string)
    ensures Spaced(ws + [w]) == Spaced(ws) + w + " "
    decreases |ws|
  {
    if |ws| == 0 {
      assert Spaced([w]) == w + " " + Spaced([]);
    } else {
      assert (ws + [w])[1..] == ws[1..] + [w];
      SpacedAppend(ws[1..], w);
    }
  }

  lemma {:induction false} SpacedLength(ws: seq<string>)
    ensures |Spaced(ws)| == SumLengths(ws) + |ws|
    decreases |ws|
  {
    if |ws| > 0 {
      SpacedLength(ws[1..]);
    }
  }

  function SumLengths(ws: seq<string>): nat {
    if |ws| == 0 then 0 else |ws[0]| + SumLengths(ws[1..])
  }
}
