/** What cutting a file into lines guarantees. */
module RobotFileProperties {
  import opened Js
  import opened RobotFile

  /** No line holds a CR or an LF. */
  lemma {:induction false} LinesHaveNoBreaks(s: string)
    ensures forall i, k :: 0 <= i < |SplitLines(s)| && 0 <= k < |SplitLines(s)[i]| ==>
      !IsLineBreakChar(SplitLines(s)[i][k])
  {
    if s == [] {
    } else if s[0] == '\r' && |s| >= 2 && s[1] == '\n' {
      LinesHaveNoBreaks(s[2..]);
    } else if IsLineBreakChar(s[0]) {
      LinesHaveNoBreaks(s[1..]);
    } else {
      LinesHaveNoBreaks(s[1..]);
      var rest := SplitLines(s[1..]);
      assert SplitLines(s)[0] == [s[0]] + rest[0];
      forall i, k | 0 <= i < |SplitLines(s)| && 0 <= k < |SplitLines(s)[i]|
        ensures !IsLineBreakChar(SplitLines(s)[i][k])
      {
        if i == 0 && k > 0 {
          assert SplitLines(s)[0][k] == rest[0][k - 1];
        } else if i > 0 {
          assert SplitLines(s)[i] == rest[i];
        }
      }
    }
  }

  /** There is one line more than there are line breaks, empty lines included. */
  lemma {:induction false} LineCount(s: string)
    ensures |SplitLines(s)| == LineBreaks(s) + 1
  {
    if s == [] {
    } else if s[0] == '\r' && |s| >= 2 && s[1] == '\n' {
      LineCount(s[2..]);
      assert s[1..][1..] == s[2..];
      assert LineBreaks(s[1..]) == 1 + LineBreaks(s[2..]);
    } else {
      LineCount(s[1..]);
    }
  }

  predicate NoBreaks(w: string) {
    forall k :: 0 <= k < |w| ==> !IsLineBreakChar(w[k])
  }

  lemma {:induction false} SplitLinesPrefix(w: string, t: string)
    requires NoBreaks(w)
    ensures SplitLines(w + t) == [w + SplitLines(t)[0]] + SplitLines(t)[1..]
  {
    if w != [] {
      assert (w + t)[1..] == w[1..] + t;
      SplitLinesPrefix(w[1..], t);
      assert [w[0]] + (w[1..] + SplitLines(t)[0]) == w + SplitLines(t)[0];
    } else {
      assert w + t == t;
      assert w + SplitLines(t)[0] == SplitLines(t)[0];
      assert SplitLines(t) == [SplitLines(t)[0]] + SplitLines(t)[1..];
    }
  }

  /** A text joined with CR does not start with LF when its lines hold no break. */
  lemma {:induction false} JoinedDoesNotStartWithLineFeed(lines: seq<string>)
    requires forall i :: 0 <= i < |lines| ==> NoBreaks(lines[i])
    ensures var s := Join(lines, "\r"); s == [] || s[0] != '\n'
  {
    if |lines| > 1 && lines[0] == [] {
      assert Join(lines, "\r") == "\r" + Join(lines[1..], "\r");
    } else if |lines| > 1 {
      assert Join(lines, "\r")[0] == lines[0][0];
    }
  }

  /** Cutting lines joined by one line-break convention (LF, CR LF or CR) gives
      back the lines, empty ones included, provided no line holds a break. */
  lemma {:induction false} SplitLinesOfJoin(lines: seq<string>, sep: string)
    requires lines != []
    requires sep == "\n" || sep == "\r\n" || sep == "\r"
    requires forall i :: 0 <= i < |lines| ==> NoBreaks(lines[i])
    ensures SplitLines(Join(lines, sep)) == lines
  {
    if |lines| == 1 {
      SplitLinesPrefix(lines[0], "");
      assert SplitLines("") == [""];
      assert lines[0] + "" == lines[0];
    } else {
      var rest := Join(lines[1..], sep);
      assert Join(lines, sep) == lines[0] + (sep + rest);
      SplitLinesPrefix(lines[0], sep + rest);
      SplitLinesOfJoin(lines[1..], sep);
      SplitLinesAfterBreak(lines[1..], sep);
      assert lines[0] + "" == lines[0];
      assert [lines[0]] + lines[1..] == lines;
    }
  }

  /** A break followed by joined lines starts an empty line. */
  lemma SplitLinesAfterBreak(lines: seq<string>, sep: string)
    requires lines != []
    requires sep == "\n" || sep == "\r\n" || sep == "\r"
    requires forall i :: 0 <= i < |lines| ==> NoBreaks(lines[i])
    ensures SplitLines(sep + Join(lines, sep)) == [""] + SplitLines(Join(lines, sep))
  {
    var rest := Join(lines, sep);
    if sep == "\r" {
      JoinedDoesNotStartWithLineFeed(lines);
      assert (sep + rest)[1..] == rest;
    } else if sep == "\n" {
      assert (sep + rest)[1..] == rest;
    } else {
      assert (sep + rest)[2..] == rest;
    }
  }

  /** The example of the unit tests: "2 2\n0 0 N\nL" is cut into three lines. */
  lemma SplitLinesExample()
    ensures SplitLines("2 2\n0 0 N\nL") == ["2 2", "0 0 N", "L"]
  {
    var lines := ["2 2", "0 0 N", "L"];
    assert Join(lines, "\n") == "2 2\n0 0 N\nL" by {
      assert Join(lines[2..], "\n") == "L";
      assert Join(lines[1..], "\n") == "0 0 N\nL";
    }
    forall i | 0 <= i < 3 ensures NoBreaks(lines[i]) { }
    SplitLinesOfJoin(lines, "\n");
  }
}
