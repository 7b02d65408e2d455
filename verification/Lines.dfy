/**
 `add_line` and `remove_line` of pskit/state.py: one line in a shared file, appended and recorded by
 the kit and taken out again by uninstall.
 */
module Lines {
  import opened Common

  /** Where `splitlines` breaks. */
  predicate IsBreak(c: char) {
    var n := c as int;
    10 <= n <= 13 || 28 <= n <= 30 || n == 0x85 || n == 0x2028 || n == 0x2029
  }

  predicate NoBreak(s: string) {
    forall i :: 0 <= i < |s| ==> !IsBreak(s[i])
  }

  predicate Blank(s: string) {
    forall i :: 0 <= i < |s| ==> IsSpace(s[i])
  }

  function FirstBreak(s: string): (n: nat)
    ensures n <= |s| && NoBreak(s[..n]) && (n < |s| ==> IsBreak(s[n]))
  {
    if |s| == 0 || IsBreak(s[0]) then 0
    else
      var n := FirstBreak(s[1..]);
      assert forall i :: 0 <= i < n + 1 ==> s[i] == if i == 0 then s[0] else s[1..][i - 1];
      n + 1
  }

  /** A carriage return and newline are one break. */
  function Skip(s: string, n: nat): (m: nat)
    requires n < |s|
    ensures n < m <= |s|
  {
    if s[n] == '\r' && n + 1 < |s| && s[n + 1] == '\n' then n + 2 else n + 1
  }

  function SplitLines(s: string): seq<string>
    decreases |s|
  {
    if |s| == 0 then []
    else
      var n := FirstBreak(s);
      if n == |s| then [s] else [s[..n]] + SplitLines(s[Skip(s, n)..])
  }

  function StripNewlines(s: string): string {
    if |s| > 0 && s[|s| - 1] == '\n' then StripNewlines(s[..|s| - 1]) else s
  }

  function Join(lines: seq<string>): string {
    if |lines| == 0 then "" else if |lines| == 1 then lines[0] else lines[0] + "\n" + Join(lines[1..])
  }

  function Without(lines: seq<string>, line: string): seq<string> {
    if |lines| == 0 then []
    else (if lines[0] == line then [] else [lines[0]]) + Without(lines[1..], line)
  }

  /** The text `add_line` writes, or nothing when the line is there. */
  function AddLine(text: string, line: string): Option<string> {
    if line in SplitLines(text) then None
    else Some(StripNewlines(text) + (if Blank(text) then "" else "\n") + line + "\n")
  }

  function RemoveLine(text: string, line: string): Option<string> {
    var lines := SplitLines(text);
    if line !in lines then None
    else
      var kept := Without(lines, line);
      Some(Join(kept) + if |kept| > 0 then "\n" else "")
  }

  // ---------- lines and their text ----------

  function Unlines(lines: seq<string>): string {
    if |lines| == 0 then "" else lines[0] + "\n" + Unlines(lines[1..])
  }

  lemma {:induction false} JoinIsUnlines(lines: seq<string>)
    ensures Join(lines) + (if |lines| > 0 then "\n" else "") == Unlines(lines)
  {
    if |lines| > 1 {
      JoinIsUnlines(lines[1..]);
      assert lines[0] + "\n" + Join(lines[1..]) + "\n" == lines[0] + "\n" + (Join(lines[1..]) + "\n");
    } else if |lines| == 1 {
      assert Unlines(lines[1..]) == "";
    }
  }

  lemma FirstBreakIs(s: string, n: nat)
    requires n < |s| && NoBreak(s[..n]) && IsBreak(s[n])
    ensures FirstBreak(s) == n
  {
    var m := FirstBreak(s);
    forall i | 0 <= i < n ensures !IsBreak(s[i]) { assert s[..n][i] == s[i]; }
    forall i | 0 <= i < m ensures !IsBreak(s[i]) { assert s[..m][i] == s[i]; }
  }

  lemma LineFirst(line: string, rest: string)
    requires NoBreak(line)
    ensures SplitLines(line + "\n" + rest) == [line] + SplitLines(rest)
  {
    var s := line + "\n" + rest;
    assert s[..|line|] == line && s[|line|] == '\n';
    FirstBreakIs(s, |line|);
    assert Skip(s, |line|) == |line| + 1 && s[|line| + 1..] == rest;
  }

  /** What ends a line: the ten characters of `str.splitlines`, or a carriage return with its newline. */
  predicate Separates(sep: string) {
    sep == "\r\n" || (|sep| == 1 && sep[0] as int in {10, 11, 12, 13, 28, 29, 30, 0x85, 0x2028, 0x2029})
  }

  /** Lines end there, each separator ending one, and nowhere else. */
  lemma LinesEndAt(a: string, sep: string, b: string)
    requires Separates(sep) && (sep == "\r" && |b| > 0 ==> b[0] != '\n')
    requires forall i :: 0 <= i < |a| ==> !Separates([a[i]])
    ensures SplitLines(a + sep + b) == [a] + SplitLines(b)
    ensures SplitLines(a) == if a == "" then [] else [a]
  {
    forall i | 0 <= i < |a| ensures !IsBreak(a[i]) { assert [a[i]][0] == a[i]; }
    var s := a + sep + b;
    assert s[..|a|] == a && s[|a|] == sep[0];
    FirstBreakIs(s, |a|);
    assert Skip(s, |a|) == |a| + |sep| by {
      if |sep| == 1 && |b| > 0 { assert s[|a| + 1] == b[0]; }
    }
    assert s[|a| + |sep|..] == b;
    var n := FirstBreak(a);
    assert a[..|a|] == a;
  }

  lemma {:induction false} SplitUnlines(lines: seq<string>)
    requires forall i :: 0 <= i < |lines| ==> NoBreak(lines[i])
    ensures SplitLines(Unlines(lines)) == lines
  {
    if |lines| > 0 {
      SplitUnlines(lines[1..]);
      LineFirst(lines[0], Unlines(lines[1..]));
      assert lines == [lines[0]] + lines[1..];
    }
  }

  lemma {:induction false} SplitHasNoBreaks(s: string)
    ensures forall i :: 0 <= i < |SplitLines(s)| ==> NoBreak(SplitLines(s)[i])
    decreases |s|
  {
    if |s| > 0 && FirstBreak(s) < |s| {
      SplitHasNoBreaks(s[Skip(s, FirstBreak(s))..]);
    } else {
      assert s[..|s|] == s;
    }
  }

  lemma {:induction false} WithoutHas(lines: seq<string>, line: string)
    ensures forall i :: 0 <= i < |Without(lines, line)| ==> Without(lines, line)[i] in lines
    ensures line !in lines ==> Without(lines, line) == lines
  {
    if |lines| > 0 {
      WithoutHas(lines[1..], line);
      assert lines == [lines[0]] + lines[1..];
    }
  }

  lemma {:induction false} WithoutAppend(a: seq<string>, b: seq<string>, line: string)
    ensures Without(a + b, line) == Without(a, line) + Without(b, line)
  {
    if |a| == 0 {
      assert a + b == b;
    } else {
      assert (a + b)[1..] == a[1..] + b;
      WithoutAppend(a[1..], b, line);
    }
  }

  /** Whatever the file looks like by then: taking the line out leaves all other lines, in their order. */
  lemma RemovesExactlyTheLine(text: string, line: string)
    requires line in SplitLines(text)
    ensures RemoveLine(text, line).Some?
    ensures SplitLines(RemoveLine(text, line).value) == Without(SplitLines(text), line)
  {
    var lines := SplitLines(text);
    var kept := Without(lines, line);
    SplitHasNoBreaks(text);
    WithoutHas(lines, line);
    JoinIsUnlines(kept);
    SplitUnlines(kept);
  }

  // ---------- byte for byte ----------

  predicate OnlyNewlines(s: string) {
    forall i :: 0 <= i < |s| && IsBreak(s[i]) ==> s[i] == '\n'
  }

  predicate EndsLine(s: string) {
    |s| == 0 || s[|s| - 1] == '\n'
  }

  lemma BreakBefore(s: string)
    requires |s| > 0 && EndsLine(s)
    ensures FirstBreak(s) < |s|
  {
    var n := FirstBreak(s);
    forall i | 0 <= i < n ensures !IsBreak(s[i]) { assert s[..n][i] == s[i]; }
  }

  lemma SplitFirst(s: string, n: nat)
    requires n == FirstBreak(s) && n < |s|
    ensures SplitLines(s) == [s[..n]] + SplitLines(s[Skip(s, n)..])
  {
  }

  lemma SameFirst(x: string, y: string, n: nat)
    requires EndsLine(x) && n == FirstBreak(x) && n < |x|
    ensures FirstBreak(x + y) == n && Skip(x + y, n) == Skip(x, n)
    ensures (x + y)[..n] == x[..n] && (x + y)[Skip(x, n)..] == x[Skip(x, n)..] + y
    ensures EndsLine(x[Skip(x, n)..])
  {
    assert (x + y)[..n] == x[..n];
    FirstBreakIs(x + y, n);
    hide FirstBreak;
    assert (x + y)[Skip(x, n)..] == x[Skip(x, n)..] + y;
  }

  /** Splitting after a newline is clean. */
  lemma {:induction false} SplitAppend(x: string, y: string)
    requires EndsLine(x)
    ensures SplitLines(x + y) == SplitLines(x) + SplitLines(y)
    decreases |x|
  {
    if |x| == 0 {
      assert x + y == y;
    } else {
      BreakBefore(x);
      var n := FirstBreak(x);
      SameFirst(x, y, n);
      var rest := x[Skip(x, n)..];
      SplitAppend(rest, y);
      SplitFirst(x, n);
      SplitFirst(x + y, n);
      OneMore(x[..n], SplitLines(rest), SplitLines(y));
    }
  }

  lemma OneMore(line: string, a: seq<string>, b: seq<string>)
    ensures [line] + a + b == [line] + (a + b)
  {
  }

  lemma UnlinesCons(line: string, lines: seq<string>)
    ensures Unlines([line] + lines) == line + "\n" + Unlines(lines)
  {
    assert ([line] + lines)[1..] == lines;
  }

  lemma SplitStep(s: string, n: nat)
    requires |s| > 0 && OnlyNewlines(s) && EndsLine(s) && n == FirstBreak(s)
    ensures n < |s| && s == s[..n] + "\n" + s[n + 1..]
    ensures SplitLines(s) == [s[..n]] + SplitLines(s[n + 1..])
  {
    BreakBefore(s);
    assert IsBreak(s[n]);
    NewlineSkipped(s, n);
    SplitFirst(s, n);
  }

  lemma NewlineSkipped(s: string, n: nat)
    requires n < |s| && s[n] == '\n'
    ensures Skip(s, n) == n + 1 && s == s[..n] + "\n" + s[n + 1..]
  {
  }

  lemma {:induction false} UnlinesOfSplit(s: string)
    requires OnlyNewlines(s) && EndsLine(s)
    ensures Unlines(SplitLines(s)) == s
    decreases |s|
  {
    if |s| > 0 {
      var n := FirstBreak(s);
      SplitStep(s, n);
      var rest := s[n + 1..];
      OnlyNewlinesRest(s, n + 1);
      hide SplitLines;
      hide OnlyNewlines;
      hide FirstBreak;
      hide Unlines;
      UnlinesOfSplit(rest);
      UnlinesCons(s[..n], SplitLines(rest));
    } else {
      assert s == "";
    }
  }

  lemma OnlyNewlinesRest(s: string, n: nat)
    requires OnlyNewlines(s) && EndsLine(s) && n <= |s|
    ensures OnlyNewlines(s[n..]) && EndsLine(s[n..])
  {
  }

  lemma {:induction false} UnlinesOnlyNewlines(lines: seq<string>)
    requires forall i :: 0 <= i < |lines| ==> NoBreak(lines[i])
    ensures OnlyNewlines(Unlines(lines)) && EndsLine(Unlines(lines))
  {
    if |lines| > 0 {
      UnlinesOnlyNewlines(lines[1..]);
    }
  }

  /** Empty, or lines ending in newlines only, the last of them not empty, and not all of it blank. */
  predicate Tidy(text: string) {
    text == "" || (OnlyNewlines(text) && !Blank(text) && text[|text| - 1] == '\n'
                   && (|text| >= 2 ==> text[|text| - 2] != '\n'))
  }

  /** The file after the kit added its line and uninstall took it out again. */
  function AddedAndRemoved(text: string, line: string): string
    requires line !in SplitLines(text)
  {
    var added := AddLine(text, line).value;
    match RemoveLine(added, line) case None => added case Some(t) => t
  }

  lemma OneLine(line: string)
    requires NoBreak(line)
    ensures SplitLines(line + "\n") == [line]
  {
    LineFirst(line, "");
    assert line + "\n" + "" == line + "\n";
  }

  lemma TidyAdded(text: string, line: string)
    requires Tidy(text) && line !in SplitLines(text)
    ensures AddLine(text, line) == Some(text + (line + "\n"))
  {
    hide SplitLines;
    if text != "" {
      var stem := text[..|text| - 1];
      assert text == stem + "\n";
      assert StripNewlines(text) == stem;
      assert stem + "\n" + line + "\n" == text + (line + "\n");
    } else {
      assert "" + "" + line + "\n" == text + (line + "\n");
    }
  }

  /** The line is added exactly if it is not there, and then comes after all lines of the file but empty ones
      at its end. In a file with nothing in it but white space, it is put right behind that. */
  lemma AddsExactly(text: string, line: string)
    requires NoBreak(line)
    ensures AddLine(text, line) == None <==> line in SplitLines(text)
    ensures line !in SplitLines(text) && !Blank(text) ==>
              AddLine(text, line).Some?
              && SplitLines(AddLine(text, line).value) == SplitLines(StripNewlines(text) + "\n") + [line]
    ensures line !in SplitLines(text) && Blank(text) ==> AddLine(text, line) == Some(StripNewlines(text) + line + "\n")
  {
    hide SplitLines;
    hide StripNewlines;
    hide Blank;
    var stem := StripNewlines(text);
    OneLine(line);
    SplitAppend(stem + "\n", line + "\n");
    assert stem + "\n" + line + "\n" == stem + "\n" + (line + "\n");
    assert stem + "" + line + "\n" == stem + line + "\n";
  }

  lemma TidyIsRestored(text: string, line: string)
    requires Tidy(text) && NoBreak(line) && line !in SplitLines(text)
    ensures AddedAndRemoved(text, line) == text
  {
    TidyAdded(text, line);
    OneLine(line);
    SplitAppend(text, line + "\n");
    var lines := SplitLines(text);
    WithoutAppend(lines, [line], line);
    WithoutHas(lines, line);
    assert Without([line], line) == [];
    JoinIsUnlines(lines);
    UnlinesOfSplit(text);
    hide *;
    assert Without(lines + [line], line) == lines;
    Removed(text + (line + "\n"), line, lines);
  }

  lemma Removed(added: string, line: string, kept: seq<string>)
    requires line in SplitLines(added) && Without(SplitLines(added), line) == kept
    ensures RemoveLine(added, line) == Some(Unlines(kept))
  {
    JoinIsUnlines(kept);
  }

  // ---------- and not otherwise ----------

  lemma {:induction false} Stripped(text: string)
    ensures |StripNewlines(text)| <= |text| && StripNewlines(text) == text[..|StripNewlines(text)|]
    ensures forall i :: |StripNewlines(text)| <= i < |text| ==> text[i] == '\n'
    ensures StripNewlines(text) == "" || StripNewlines(text)[|StripNewlines(text)| - 1] != '\n'
  {
    if |text| > 0 && text[|text| - 1] == '\n' {
      Stripped(text[..|text| - 1]);
    }
  }

  /** Adding a line with something in it changes the text. */
  lemma AddedDiffers(text: string, line: string)
    requires line !in SplitLines(text) && !Blank(line)
    ensures AddLine(text, line).value != text
  {
    Stripped(text);
    hide SplitLines;
    var stem, mid := StripNewlines(text), if Blank(text) then "" else "\n";
    var added := stem + mid + line + "\n";
    var i :| 0 <= i < |line| && !IsSpace(line[i]);
    assert added[|stem| + |mid| + i] == line[i];
  }

  /** The last line and what comes before. */
  lemma {:induction false} LastLine(s: string) returns (x: string, w: string)
    requires OnlyNewlines(s)
    ensures s == x + w && EndsLine(x) && NoBreak(w)
    ensures |s| > 0 && s[|s| - 1] != '\n' ==> w != ""
  {
    if EndsLine(s) {
      x, w := s, "";
    } else {
      var front := s[..|s| - 1];
      x, w := LastLine(front);
      w := w + [s[|s| - 1]];
      assert s == front + [s[|s| - 1]];
    }
  }

  lemma {:induction false} BlankLines(lines: seq<string>, i: nat)
    requires Blank(Unlines(lines)) && i < |lines|
    ensures Blank(lines[i])
  {
    var rest := Unlines(lines[1..]);
    var text := Unlines(lines);
    assert text == lines[0] + "\n" + rest;
    if i == 0 {
      forall k | 0 <= k < |lines[0]| ensures IsSpace(lines[0][k]) { assert text[k] == lines[0][k]; }
    } else {
      forall k | 0 <= k < |rest| ensures IsSpace(rest[k]) { assert text[|lines[0]| + 1 + k] == rest[k]; }
      BlankLines(lines[1..], i - 1);
    }
  }

  /** What the line was glued to stays, and is not blank. */
  lemma GluedLineStays(x: string, w: string, line: string)
    requires EndsLine(x) && NoBreak(w) && w != "" && NoBreak(line) && !Blank(line)
    ensures var r := RemoveLine(x + (w + line + "\n"), line); r.Some? ==> !Blank(r.value)
  {
    var last := w + line;
    var added := x + (last + "\n");
    SplitAppend(x, last + "\n");
    OneLine(last);
    assert NoBreak(last) && |last| != |line|;
    var kept := Without(SplitLines(x) + [last], line);
    WithoutAppend(SplitLines(x), [last], line);
    assert Without([last], line) == [last];
    hide *;
    assert kept == Without(SplitLines(x), line) + [last];
    assert SplitLines(added) == SplitLines(x) + [last];
    GluedRemoved(added, line, kept, last, w);
  }

  lemma GluedRemoved(added: string, line: string, kept: seq<string>, last: string, w: string)
    requires kept == Without(SplitLines(added), line) && |kept| > 0 && kept[|kept| - 1] == last && last == w + line
             && !Blank(line)
    ensures RemoveLine(added, line).Some? ==> !Blank(RemoveLine(added, line).value)
  {
    if line in SplitLines(added) {
      Removed(added, line, kept);
      hide SplitLines;
      hide Without;
      if Blank(Unlines(kept)) {
        BlankLines(kept, |kept| - 1);
        BlankPart(w, line);
      }
    }
  }

  lemma BlankAdded(text: string, line: string, x: string, w: string)
    requires Blank(text) && line !in SplitLines(text) && StripNewlines(text) == x + w
    ensures AddLine(text, line) == Some(x + (w + line + "\n"))
  {
    hide SplitLines;
    hide StripNewlines;
    assert x + w + "" + line + "\n" == x + (w + line + "\n");
  }

  lemma BlankIsNotRestored(text: string, line: string)
    requires text != "" && OnlyNewlines(text) && Blank(text)
    requires NoBreak(line) && !Blank(line) && line !in SplitLines(text)
    ensures AddedAndRemoved(text, line) != text
  {
    AddedDiffers(text, line);
    Stripped(text);
    var x, w := LastLine(StripNewlines(text));
    BlankAdded(text, line, x, w);
    var added := x + (w + line + "\n");
    if w != "" {
      GluedLineStays(x, w, line);
    } else {
      assert added == line + "\n";
      OnlyLineGoes(line);
    }
    hide SplitLines;
    hide AddLine;
    hide RemoveLine;
    hide StripNewlines;
    assert AddedAndRemoved(text, line) == match RemoveLine(added, line) case None => added case Some(t) => t;
  }

  lemma OnlyLineGoes(line: string)
    requires NoBreak(line)
    ensures RemoveLine(line + "\n", line) == Some("")
  {
    OneLine(line);
    assert Without([line], line) == [];
    Removed(line + "\n", line, []);
  }

  lemma BlankPart(w: string, line: string)
    requires Blank(w + line)
    ensures Blank(line)
  {
    forall k | 0 <= k < |line| ensures IsSpace(line[k]) { assert (w + line)[|w| + k] == line[k]; }
  }

  lemma {:induction false} SplitEnded(x: string, w: string)
    requires EndsLine(x) && NoBreak(w) && w != ""
    ensures SplitLines(x + w + "\n") == SplitLines(x + w)
  {
    SplitAppend(x, w + "\n");
    SplitAppend(x, w);
    OneLine(w);
    assert x + w + "\n" == x + (w + "\n");
    assert w[..|w|] == w;
    assert FirstBreak(w) == |w|;
  }

  lemma StemIsTidy(text: string)
    requires OnlyNewlines(text) && !Blank(text)
    ensures Tidy(StripNewlines(text) + "\n")
  {
    Stripped(text);
    var tidy := StripNewlines(text) + "\n";
    var k :| 0 <= k < |text| && !IsSpace(text[k]);
    assert tidy[k] == text[k];
  }

  lemma SurplusSplit(text: string) returns (rest: string)
    requires StripNewlines(text) != text
    ensures SplitLines(text) == SplitLines(StripNewlines(text) + "\n") + SplitLines(rest)
  {
    Stripped(text);
    var tidy := StripNewlines(text) + "\n";
    rest := text[|tidy|..];
    assert text == tidy + rest;
    SplitAppend(tidy, rest);
  }

  /** Without its surplus newlines a text is tidy, and the kit's line is no more in it. */
  lemma Tidied(text: string, line: string)
    requires OnlyNewlines(text) && !Blank(text) && line !in SplitLines(text)
    ensures Tidy(StripNewlines(text) + "\n") && line !in SplitLines(StripNewlines(text) + "\n")
  {
    StemIsTidy(text);
    Stripped(text);
    if StripNewlines(text) == text {
      var x, w := LastLine(text);
      SplitEnded(x, w);
    } else {
      var rest := SurplusSplit(text);
    }
  }

  lemma UntidyIsNotRestored(text: string, line: string)
    requires OnlyNewlines(text) && !Blank(text) && !Tidy(text)
    requires NoBreak(line) && line !in SplitLines(text)
    ensures AddedAndRemoved(text, line) != text
  {
    Tidied(text, line);
    Stripped(text);
    var tidy := StripNewlines(text) + "\n";
    TidyIsRestored(tidy, line);
    TidyAdded(tidy, line);
    assert StripNewlines(text) + "\n" + line + "\n" == tidy + (line + "\n");
  }

  lemma OtherBreaksAreNotRestored(text: string, line: string)
    requires !OnlyNewlines(text) && NoBreak(line) && !Blank(line) && line !in SplitLines(text)
    ensures AddedAndRemoved(text, line) != text
  {
    AddedDiffers(text, line);
    var added := AddLine(text, line).value;
    if line in SplitLines(added) {
      var kept := Without(SplitLines(added), line);
      SplitHasNoBreaks(added);
      WithoutHas(SplitLines(added), line);
      Removed(added, line, kept);
      UnlinesOnlyNewlines(kept);
    }
  }

  /** Adding the line and taking it out again gives the file back byte for byte exactly when it was tidy. */
  lemma RestoredExactlyWhenTidy(text: string, line: string)
    requires NoBreak(line) && !Blank(line) && line !in SplitLines(text)
    ensures AddedAndRemoved(text, line) == text <==> Tidy(text)
  {
    if Tidy(text) {
      TidyIsRestored(text, line);
    } else if !OnlyNewlines(text) {
      OtherBreaksAreNotRestored(text, line);
    } else if Blank(text) {
      BlankIsNotRestored(text, line);
    } else {
      UntidyIsNotRestored(text, line);
    }
  }
}
