/**
 The final_dataset_gate rewrite as text to text: split into lines that keep their ends,
 rewrite, join. Splitting recognises every line boundary the source's splitlines does; the
 file is read with newline translation, so carriage returns do not occur.
 */
module ConfigText {
  import opened ConfigRewrite

  predicate IsBreak(c: char) {
    c in {'\n', '\U{000B}', '\U{000C}', '\U{001C}', '\U{001D}', '\U{001E}', '\U{0085}', '\U{2028}', '\U{2029}'}
  }

  predicate BreakFree(s: string) {
    forall i :: 0 <= i < |s| ==> !IsBreak(s[i])
  }

  /** Index of the first line boundary, or the length. */
  function FirstBreak(s: string): (k: nat)
    ensures k <= |s| && BreakFree(s[..k])
    ensures k < |s| ==> IsBreak(s[k])
  {
    if s == "" || IsBreak(s[0]) then 0
    else
      assert forall i :: 0 < i <= FirstBreak(s[1..]) ==> s[i] == s[1..][i - 1] || i == |s|;
      1 + FirstBreak(s[1..])
  }

  function SplitLines(text: string): seq<string> {
    if text == "" then []
    else
      var k := FirstBreak(text);
      if k == |text| then [text] else [text[..k + 1]] + SplitLines(text[k + 1..])
  }

  function Join(lines: seq<string>): string {
    if |lines| == 0 then "" else lines[0] + Join(lines[1..])
  }

  function RewriteText(text: string, target: string, days: nat): string {
    Join(Rewritten(SplitLines(text), target, days))
  }

  // ----- splitting and joining

  /** Non-empty, with no line boundary before its last character. */
  predicate IsLine(line: string) { line != "" && BreakFree(line[..|line| - 1]) }

  predicate Ended(line: string) { line != "" && IsBreak(line[|line| - 1]) }

  ghost predicate AllLines(lines: seq<string>) {
    forall i :: 0 <= i < |lines| ==> IsLine(lines[i])
  }

  ghost predicate AllEnded(lines: seq<string>) {
    forall i :: 0 <= i < |lines| - 1 ==> Ended(lines[i])
  }

  lemma SplitStep(text: string)
    requires text != ""
    ensures var k := FirstBreak(text);
      SplitLines(text) == if k == |text| then [text] else [text[..k + 1]] + SplitLines(text[k + 1..])
  {
    hide FirstBreak, BreakFree, IsBreak;
  }

  lemma FirstLineShape(text: string)
    requires text != ""
    ensures var k := FirstBreak(text);
      if k == |text| then IsLine(text) else IsLine(text[..k + 1]) && Ended(text[..k + 1])
  {
    var k := FirstBreak(text);
    if k == |text| {
      assert text[..k] == text;
    } else {
      assert text[..k + 1][..k] == text[..k];
    }
  }

  lemma LinesCons(line: string, rest: seq<string>)
    requires IsLine(line) && Ended(line) && AllLines(rest) && AllEnded(rest)
    ensures AllLines([line] + rest) && AllEnded([line] + rest)
  {
    hide IsLine, Ended;
    var lines := [line] + rest;
    assert forall i :: 0 < i < |lines| ==> lines[i] == rest[i - 1];
  }

  lemma JoinPrepend(line: string, rest: seq<string>)
    ensures Join([line] + rest) == line + Join(rest)
  {
    assert ([line] + rest)[1..] == rest;
  }

  lemma OneLine(line: string)
    ensures Join([line]) == line && AllEnded([line]) && (IsLine(line) ==> AllLines([line]))
  {
    assert Join([line]) == line + Join([line][1..]) == line;
  }

  /** Splitting loses nothing ... */
  lemma {:induction false} JoinOfSplit(text: string)
    ensures Join(SplitLines(text)) == text
    decreases |text|
  {
    if text != "" {
      hide *;
      var k := FirstBreak(text);
      SplitStep(text);
      if k < |text| {
        JoinOfSplit(text[k + 1..]);
        JoinPrepend(text[..k + 1], SplitLines(text[k + 1..]));
      } else {
        OneLine(text);
      }
    }
  }

  /** ... and cuts exactly at the line boundaries. */
  lemma {:induction false} SplitIntoLines(text: string)
    ensures AllLines(SplitLines(text)) && AllEnded(SplitLines(text))
    decreases |text|
  {
    if text != "" {
      hide *;
      var k := FirstBreak(text);
      SplitStep(text);
      FirstLineShape(text);
      if k < |text| {
        SplitIntoLines(text[k + 1..]);
        LinesCons(text[..k + 1], SplitLines(text[k + 1..]));
      } else {
        OneLine(text);
      }
    }
  }

  lemma FirstBreakIs(s: string, k: nat)
    requires k <= |s| && BreakFree(s[..k]) && (k < |s| ==> IsBreak(s[k]))
    ensures FirstBreak(s) == k
  {
    hide IsBreak;
    var j := FirstBreak(s);
    assert forall i :: 0 <= i < k ==> s[..k][i] == s[i];
    assert forall i :: 0 <= i < j ==> s[..j][i] == s[i];
  }

  /** Lines that come back when joined text is split: an unended line runs into the next one. */
  function LineCount(lines: seq<string>): nat {
    if |lines| <= 1 then |lines|
    else (if Ended(lines[0]) then 1 else 0) + LineCount(lines[1..])
  }

  lemma SplitEnded(line: string, rest: string)
    requires IsLine(line) && Ended(line)
    ensures SplitLines(line + rest) == [line] + SplitLines(rest)
  {
    var s, k := line + rest, |line| - 1;
    assert s[..k] == line[..k] && s[..k + 1] == line && s[k + 1..] == rest;
    FirstBreakIs(s, k);
  }

  lemma UnendedIsBreakFree(line: string)
    requires IsLine(line) && !Ended(line)
    ensures BreakFree(line)
  {
    hide IsBreak;
    forall i | 0 <= i < |line| ensures !IsBreak(line[i]) {
      if i < |line| - 1 { assert line[..|line| - 1][i] == line[i]; }
    }
  }

  lemma FirstBreakAfter(line: string, rest: string)
    requires BreakFree(line)
    ensures FirstBreak(line + rest) == |line| + FirstBreak(rest)
  {
    hide IsBreak, BreakFree;
    var s, k := line + rest, FirstBreak(rest);
    BreakFreeConcat(line, rest[..k]);
    assert s[..|line| + k] == line + rest[..k];
    assert k < |rest| ==> s[|line| + k] == rest[k];
    FirstBreakIs(s, |line| + k);
  }

  lemma SplitUnended(line: string, rest: string)
    requires IsLine(line) && !Ended(line) && rest != ""
    ensures |SplitLines(line + rest)| == |SplitLines(rest)|
  {
    hide *;
    var s, k := line + rest, FirstBreak(rest);
    UnendedIsBreakFree(line);
    FirstBreakAfter(line, rest);
    SplitStep(rest);
    SplitStep(s);
    assert k < |rest| ==> s[|line| + k + 1..] == rest[k + 1..];
  }

  lemma SplitSingle(line: string)
    requires IsLine(line)
    ensures SplitLines(line) == [line]
  {
    if Ended(line) {
      SplitEnded(line, "");
      assert line + "" == line;
    } else {
      UnendedIsBreakFree(line);
      assert line[..|line|] == line;
      FirstBreakIs(line, |line|);
    }
  }

  lemma {:induction false} ResplitCount(lines: seq<string>)
    requires AllLines(lines)
    ensures |SplitLines(Join(lines))| == LineCount(lines)
  {
    hide IsLine, Ended, FirstBreak;
    if |lines| == 1 {
      SplitSingle(lines[0]);
      assert Join(lines) == lines[0] + Join(lines[1..]) == lines[0];
    } else if |lines| > 1 {
      var rest := lines[1..];
      assert AllLines(rest);
      ResplitCount(rest);
      JoinIsText(rest);
      hide SplitLines, Join;
      JoinCons(lines);
      if Ended(lines[0]) { SplitEnded(lines[0], Join(rest)); } else { SplitUnended(lines[0], Join(rest)); }
    }
  }

  lemma JoinCons(lines: seq<string>)
    requires |lines| > 0
    ensures Join(lines) == lines[0] + Join(lines[1..])
  {
  }

  lemma JoinIsText(lines: seq<string>)
    requires |lines| > 0 && AllLines(lines)
    ensures Join(lines) != ""
  {
    assert IsLine(lines[0]);
  }

  lemma {:induction false} Resplit(lines: seq<string>)
    requires AllLines(lines) && AllEnded(lines)
    ensures SplitLines(Join(lines)) == lines
  {
    hide IsLine, Ended, FirstBreak;
    if |lines| == 1 {
      SplitSingle(lines[0]);
      assert Join(lines) == lines[0] + Join(lines[1..]) == lines[0];
    } else if |lines| > 1 {
      var rest := lines[1..];
      assert AllLines(rest);
      assert AllEnded(rest);
      Resplit(rest);
      hide SplitLines, Join;
      JoinCons(lines);
      assert Ended(lines[0]);
      SplitEnded(lines[0], Join(rest));
    }
  }

  lemma {:induction false} LineCountKeptIff(lines: seq<string>)
    ensures LineCount(lines) <= |lines|
    ensures LineCount(lines) == |lines| <==> AllEnded(lines)
  {
    if |lines| > 1 {
      hide Ended;
      var rest := lines[1..];
      LineCountKeptIff(rest);
      assert AllEnded(lines) <==> Ended(lines[0]) && AllEnded(rest) by {
        if Ended(lines[0]) && AllEnded(rest) {
          forall i | 0 <= i < |lines| - 1 ensures Ended(lines[i]) {
            if i > 0 { assert Ended(rest[i - 1]); }
          }
        }
        if AllEnded(lines) {
          forall i | 0 <= i < |rest| - 1 ensures Ended(rest[i]) { assert Ended(lines[i + 1]); }
        }
      }
    }
  }

  // ----- the rewrite on text

  /** Every replaced line that is not the last one ends in a newline. */
  ghost predicate FieldsEndInNewline(lines: seq<string>) {
    forall i :: 0 <= i < |lines| - 1 && Replaced(lines, i) ==> EndsWithNewline(lines[i])
  }

  lemma BreakFreeConcat(a: string, b: string)
    requires BreakFree(a) && BreakFree(b)
    ensures BreakFree(a + b)
  {
  }

  lemma FieldBodiesBreakFree(target: string, days: nat)
    requires BreakFree(target)
    ensures BreakFree(PAD + EndBody(target)) && BreakFree(PAD + DaysBody(days))
  {
    DecimalDigits(days);
    BreakFreeConcat(END_KEY + " \"", target);
    BreakFreeConcat(END_KEY + " \"" + target, "\"");
    BreakFreeConcat(PAD, EndBody(target));
    BreakFreeConcat(DAYS_KEY + " ", Decimal(days));
    BreakFreeConcat(PAD, DaysBody(days));
  }

  lemma BodyWithNewline(body: string, line: string)
    requires BreakFree(body) && body != ""
    ensures IsLine(body + Newline(line)) && (Ended(body + Newline(line)) <==> EndsWithNewline(line))
  {
    if EndsWithNewline(line) {
      assert (body + "\n")[..|body|] == body;
    } else {
      assert body + "" == body;
    }
  }

  /** A rewritten field line is a line, ended exactly when the old one ended in a newline. */
  lemma FieldLineShape(line: string, target: string, days: nat)
    requires BreakFree(target) && (IsEndLine(line) || IsDaysLine(line))
    ensures var next := NewLine(line, target, days);
      IsLine(next) && (Ended(next) <==> EndsWithNewline(line))
  {
    hide IsEndLine, IsDaysLine, IsLine, Ended, BreakFree, EndsWithNewline, Newline;
    FieldBodiesBreakFree(target, days);
    BodyWithNewline(PAD + EndBody(target), line);
    BodyWithNewline(PAD + DaysBody(days), line);
  }

  lemma RewrittenShape(lines: seq<string>, target: string, days: nat)
    requires BreakFree(target) && AllLines(lines) && AllEnded(lines)
    ensures AllLines(Rewritten(lines, target, days))
    ensures AllEnded(Rewritten(lines, target, days)) <==> FieldsEndInNewline(lines)
  {
    hide IsLine, Ended, BreakFree, EndsWithNewline, InsideAt, IsEndLine, IsDaysLine;
    var out := Rewritten(lines, target, days);
    forall i | 0 <= i < |lines|
      ensures IsLine(out[i])
      ensures Replaced(lines, i) ==> (Ended(out[i]) <==> EndsWithNewline(lines[i]))
      ensures !Replaced(lines, i) ==> out[i] == lines[i]
    {
      if Replaced(lines, i) {
        FieldLineShape(lines[i], target, days);
      }
    }
    if AllEnded(out) {
      forall i | 0 <= i < |lines| - 1 && Replaced(lines, i) ensures EndsWithNewline(lines[i]) {
        assert Ended(out[i]);
      }
    }
  }

  /** The rewritten text has as many lines as the original iff no field line ended some other way. */
  lemma LineCountKept(text: string, target: string, days: nat)
    requires BreakFree(target)
    ensures |SplitLines(RewriteText(text, target, days))| == |SplitLines(text)|
       <==> FieldsEndInNewline(SplitLines(text))
    ensures |SplitLines(RewriteText(text, target, days))| <= |SplitLines(text)|
  {
    hide SplitLines, Join, AllLines, AllEnded, FieldsEndInNewline;
    var lines := SplitLines(text);
    SplitIntoLines(text);
    RewrittenShape(lines, target, days);
    ResplitCount(Rewritten(lines, target, days));
    LineCountKeptIff(Rewritten(lines, target, days));
  }

  /** In that case the lines of the result are the rewritten lines ... */
  lemma LinesOfRewrite(text: string, target: string, days: nat)
    requires BreakFree(target) && FieldsEndInNewline(SplitLines(text))
    ensures SplitLines(RewriteText(text, target, days)) == Rewritten(SplitLines(text), target, days)
  {
    hide SplitLines, Join, AllLines, AllEnded, FieldsEndInNewline;
    SplitIntoLines(text);
    RewrittenShape(SplitLines(text), target, days);
    Resplit(Rewritten(SplitLines(text), target, days));
  }

  /** ... and a later rewrite of the file replaces an earlier one completely. */
  lemma TextRewriteAbsorbs(text: string, d1: string, n1: nat, d2: string, n2: nat)
    requires BreakFree(d1) && FieldsEndInNewline(SplitLines(text))
    ensures RewriteText(RewriteText(text, d1, n1), d2, n2) == RewriteText(text, d2, n2)
  {
    hide SplitLines, Join, FieldsEndInNewline, Rewritten;
    LinesOfRewrite(text, d1, n1);
    RewriteAbsorbs(SplitLines(text), d1, n1, d2, n2);
  }

  /** The rewritten file is read back as the rewritten lines, and qualifies for the next rewrite. */
  lemma RewriteRereads(lines: seq<string>, target: string, days: nat)
    requires BreakFree(target) && Rereadable(lines)
    ensures Rereadable(Rewritten(lines, target, days))
  {
    var out := Rewritten(lines, target, days);
    hide Rewritten, Replaced, Newline, EndsWithNewline, BreakFree;
    SplitIntoLines(Join(lines));
    hide SplitLines, Join, AllLines, AllEnded;
    RewrittenShape(lines, target, days);
    Resplit(out);
    forall i | 0 <= i < |out| - 1 && Replaced(out, i) ensures EndsWithNewline(out[i]) {
      SameFields(lines, target, days, i);
      NewlineOf(lines[i]);
      NewlineOf(out[i]);
    }
  }

  /** Lines a file can hold: joined and split again they come back, and no rewrite will merge any. */
  ghost predicate Rereadable(lines: seq<string>) {
    SplitLines(Join(lines)) == lines && FieldsEndInNewline(lines)
  }

  lemma NewlineOf(line: string)
    ensures EndsWithNewline(line) <==> Newline(line) == "\n"
  {
  }

  /** Newline-separated text loads as such lines. */
  lemma LoadedRereads(text: string)
    requires forall i :: 0 <= i < |text| && IsBreak(text[i]) ==> text[i] == '\n'
    ensures Rereadable(SplitLines(text))
  {
    NewlineTextQualifies(text);
    JoinOfSplit(text);
  }

  const FORM_FEED := "\U{000C}"

  /** A block whose end-date line ends in a form feed. */
  const FORM_FEED_LINES := [BLOCK + "\n", PAD + (END_KEY + FORM_FEED), "x"]

  /** Such a line is replaced by one without the form feed, so the next line runs into it. */
  lemma FormFeedMergesLines(target: string, days: nat)
    requires BreakFree(target)
    ensures var text := Join(FORM_FEED_LINES);
      |SplitLines(text)| == 3 && |SplitLines(RewriteText(text, target, days))| < 3
  {
    hide *;
    FormFeedField();
    FormFeedPieces();
    Resplit(FORM_FEED_LINES);
    LineCountKept(Join(FORM_FEED_LINES), target, days);
  }

  lemma FormFeedPieces()
    ensures |FORM_FEED_LINES| == 3 && AllLines(FORM_FEED_LINES) && AllEnded(FORM_FEED_LINES)
  {
    Piece(BLOCK, '\n');
    Piece(PAD + END_KEY, '\U{000C}');
    assert PAD + (END_KEY + FORM_FEED) == PAD + END_KEY + ['\U{000C}'];
    assert BLOCK + "\n" == BLOCK + ['\n'];
    hide Ended;
  }

  lemma FormFeedField()
    ensures !FieldsEndInNewline(FORM_FEED_LINES)
  {
    var field := END_KEY + FORM_FEED;
    var lines := FORM_FEED_LINES;
    PaddedLine(field);
    assert lines[1] == PAD + field;
    hide Indent, Stripped;
    assert lines[1][4] == ' ' && BLOCK[4] == 'f';
    assert IsEndLine(lines[1]) && !Opens(lines[1]) && !Closes(lines[1]);
    assert !EndsWithNewline(lines[1]);
    assert Opens(lines[0]);
    hide IsEndLine, IsDaysLine, Opens, Closes, EndsWithNewline;
    assert InsideAt(lines, 0);
    assert Replaced(lines, 1);
  }

  lemma Piece(body: string, end: char)
    requires BreakFree(body) && IsBreak(end)
    ensures IsLine(body + [end]) && Ended(body + [end])
  {
    assert (body + [end])[..|body|] == body;
  }

  /** Text whose only line boundary is the newline always qualifies. */
  lemma NewlineTextQualifies(text: string)
    requires forall i :: 0 <= i < |text| && IsBreak(text[i]) ==> text[i] == '\n'
    ensures FieldsEndInNewline(SplitLines(text))
  {
    hide Replaced;
    var lines := SplitLines(text);
    JoinOfSplit(text);
    SplitIntoLines(text);
    forall i | 0 <= i < |lines| - 1 ensures EndsWithNewline(lines[i]) {
      assert Ended(lines[i]);
      CharOfText(lines, i, |lines[i]| - 1);
    }
  }

  lemma {:induction false} CharOfText(lines: seq<string>, i: nat, j: nat)
    requires i < |lines| && j < |lines[i]|
    ensures exists k :: 0 <= k < |Join(lines)| && Join(lines)[k] == lines[i][j]
  {
    if i == 0 {
      assert Join(lines)[j] == lines[0][j];
    } else {
      CharOfText(lines[1..], i - 1, j);
      var k :| 0 <= k < |Join(lines[1..])| && Join(lines[1..])[k] == lines[i][j];
      assert Join(lines)[|lines[0]| + k] == lines[i][j];
    }
  }
}
