/**
 The line-by-line rewrite of the final_dataset_gate block of risk_config.yaml
 (post_close_data_update.py). Lines keep their ends, as the source splits them.
 */
module ConfigRewrite {
  import opened Common

  // ----- one line

  /** Number of leading blanks. */
  function Indent(line: string): (n: nat)
    ensures n <= |line|
  {
    if line != "" && line[0] == ' ' then 1 + Indent(line[1..]) else 0
  }

  function Stripped(line: string): string { line[Indent(line)..] }

  const BLOCK := "    final_dataset_gate:"
  const END_KEY := "expected_end_date:"
  const DAYS_KEY := "min_business_days:"

  predicate Opens(line: string) { BLOCK <= line }

  /** A non-blank, non-comment line indented no deeper than the block's own key. */
  predicate Closes(line: string) {
    Stripped(line) != "" && !("#" <= Stripped(line)) && Indent(line) <= 4
  }

  predicate IsEndLine(line: string) { END_KEY <= Stripped(line) }

  predicate IsDaysLine(line: string) { DAYS_KEY <= Stripped(line) }

  function NextInside(inside: bool, line: string): bool {
    if Opens(line) then true else if inside && Closes(line) then false else inside
  }

  predicate EndsWithNewline(line: string) { |line| > 0 && line[|line| - 1] == '\n' }

  function Newline(line: string): string { if EndsWithNewline(line) then "\n" else "" }

  function Decimal(n: nat): string {
    if n < 10 then [('0' as int + n) as char] else Decimal(n / 10) + [('0' as int + n % 10) as char]
  }

  const PAD := "      "

  function EndBody(target: string): string { END_KEY + " \"" + target + "\"" }

  function DaysBody(days: nat): string { DAYS_KEY + " " + Decimal(days) }

  function EndLine(line: string, target: string): string { PAD + EndBody(target) + Newline(line) }

  function DaysLine(line: string, days: nat): string { PAD + DaysBody(days) + Newline(line) }

  /** What a field line becomes. */
  function NewLine(line: string, target: string, days: nat): string {
    if IsEndLine(line) then EndLine(line, target)
    else if IsDaysLine(line) then DaysLine(line, days)
    else line
  }

  /** A line closes the block iff its first non-blank character is early enough and starts no comment. */
  lemma ClosesIff(line: string)
    ensures Closes(line) <==> exists k :: 0 <= k < Min(5, |line|) && line[k] !in {' ', '#'} && Blank(line[..k])
  {
    BlankIndent(line);
    hide Indent, Blank;
    var n := Indent(line);
    forall k | 0 <= k < |line| && line[k] != ' ' && Blank(line[..k]) ensures k == n { FirstNonBlank(line, k); }
    if n < |line| { assert Stripped(line)[0] == line[n]; }
  }

  /** A line carries a key iff the key follows blanks only. */
  lemma CarriesIff(line: string, key: string)
    requires key != "" && key[0] != ' '
    ensures key <= Stripped(line) <==> exists k :: 0 <= k <= |line| && Blank(line[..k]) && key <= line[k..]
  {
    BlankIndent(line);
    hide Indent, Blank;
    forall k | 0 <= k <= |line| && Blank(line[..k]) && key <= line[k..] ensures k == Indent(line) {
      assert line[k] == line[k..][0] == key[0];
      FirstNonBlank(line, k);
    }
  }

  /** The block key opens at exactly four blanks; the two field keys may follow any number of blanks. */
  lemma KeyLinesIff(line: string)
    ensures Opens(line) <==> exists rest :: line == "    final_dataset_gate:" + rest
    ensures IsEndLine(line) <==> exists k :: 0 <= k <= |line| && Blank(line[..k]) && "expected_end_date:" <= line[k..]
    ensures IsDaysLine(line) <==> exists k :: 0 <= k <= |line| && Blank(line[..k]) && "min_business_days:" <= line[k..]
  {
    CarriesIff(line, END_KEY);
    CarriesIff(line, DAYS_KEY);
    hide Blank, Stripped;
    if Opens(line) { assert line == BLOCK + line[|BLOCK|..]; }
  }

  lemma FirstNonBlank(line: string, k: nat)
    requires k < |line| && line[k] != ' ' && Blank(line[..k])
    ensures k == Indent(line)
  {
    BlankIndent(line);
    var n := Indent(line);
    assert forall i :: 0 <= i < k ==> line[..k][i] == line[i];
    assert forall i :: 0 <= i < n ==> line[..n][i] == line[i];
  }

  predicate Blank(s: string) { forall i :: 0 <= i < |s| ==> s[i] == ' ' }

  lemma {:induction false} BlankIndent(line: string)
    ensures Blank(line[..Indent(line)]) && (Indent(line) < |line| ==> line[Indent(line)] != ' ')
  {
    if line != "" && line[0] == ' ' {
      BlankIndent(line[1..]);
      assert line[..Indent(line)] == [' '] + line[1..][..Indent(line[1..])];
    }
  }

  // ----- all lines

  /** The `inside` flag when line i has been looked at. */
  predicate InsideAt(lines: seq<string>, i: nat)
    requires i < |lines|
  {
    NextInside(i > 0 && InsideAt(lines, i - 1), lines[i])
  }

  /** Inside means: after some opening line, with no closing line since. */
  lemma {:induction false} InsideIff(lines: seq<string>, i: nat)
    requires i < |lines|
    ensures InsideAt(lines, i) <==>
      exists j :: 0 <= j <= i && Opens(lines[j]) && forall k :: j < k <= i ==> !Closes(lines[k])
  {
    hide Opens, Closes;
    if i > 0 { InsideIff(lines, i - 1); }
  }

  predicate Replaced(lines: seq<string>, i: nat)
    requires i < |lines|
  {
    InsideAt(lines, i) && (IsEndLine(lines[i]) || IsDaysLine(lines[i]))
  }

  function Rewritten(lines: seq<string>, target: string, days: nat): (out: seq<string>)
    ensures |out| == |lines|
    ensures forall i :: 0 <= i < |lines| && !Replaced(lines, i) ==> out[i] == lines[i]
  {
    seq(|lines|, i requires 0 <= i < |lines| =>
      if InsideAt(lines, i) then NewLine(lines[i], target, days) else lines[i])
  }

  ghost predicate EndFoundBefore(lines: seq<string>, n: nat) {
    exists i :: 0 <= i < n && i < |lines| && InsideAt(lines, i) && IsEndLine(lines[i])
  }

  ghost predicate DaysFoundBefore(lines: seq<string>, n: nat) {
    exists i :: 0 <= i < n && i < |lines| && InsideAt(lines, i) && IsDaysLine(lines[i])
  }

  ghost predicate EndFound(lines: seq<string>) { EndFoundBefore(lines, |lines|) }

  ghost predicate DaysFound(lines: seq<string>) { DaysFoundBefore(lines, |lines|) }

  lemma FoundStep(lines: seq<string>, i: nat)
    requires i < |lines|
    ensures EndFoundBefore(lines, i + 1) <==> EndFoundBefore(lines, i) || (InsideAt(lines, i) && IsEndLine(lines[i]))
    ensures DaysFoundBefore(lines, i + 1) <==> DaysFoundBefore(lines, i) || (InsideAt(lines, i) && IsDaysLine(lines[i]))
  {
    hide InsideAt, IsEndLine, IsDaysLine;
  }

  lemma RewrittenStep(lines: seq<string>, target: string, days: nat, i: nat)
    requires i < |lines|
    ensures Rewritten(lines, target, days)[..i + 1] == Rewritten(lines, target, days)[..i]
         + [if InsideAt(lines, i) then NewLine(lines[i], target, days) else lines[i]]
  {
    hide InsideAt, NewLine, Replaced;
  }

  method RewriteLines(lines: seq<string>, target: string, days: nat)
    returns (out: seq<string>, endFound: bool, daysFound: bool)
    ensures out == Rewritten(lines, target, days)
    ensures endFound <==> EndFound(lines)
    ensures daysFound <==> DaysFound(lines)
  {
    hide EndFoundBefore, DaysFoundBefore, EndLine, DaysLine, IsEndLine, IsDaysLine, Opens, Closes, Rewritten;
    out, endFound, daysFound := [], false, false;
    NothingFoundYet(lines);
    var inside := false;
    for i := 0 to |lines|
      invariant inside == (i > 0 && InsideAt(lines, i - 1))
      invariant out == Rewritten(lines, target, days)[..i]
      invariant endFound == EndFoundBefore(lines, i) && daysFound == DaysFoundBefore(lines, i)
    {
      var line := lines[i];
      if Opens(line) {
        inside := true;
      } else if inside && Closes(line) {
        inside := false;
      }
      OneKey(line);
      FoundStep(lines, i);
      RewrittenStep(lines, target, days, i);
      if inside && IsEndLine(line) {
        out, endFound := out + [EndLine(line, target)], true;
        continue;
      }
      if inside && IsDaysLine(line) {
        out, daysFound := out + [DaysLine(line, days)], true;
        continue;
      }
      out := out + [line];
    }
  }

  lemma NothingFoundYet(lines: seq<string>)
    ensures !EndFoundBefore(lines, 0) && !DaysFoundBefore(lines, 0)
  {
  }

  lemma OneKey(line: string)
    ensures !(IsEndLine(line) && IsDaysLine(line))
  {
    if IsEndLine(line) { assert Stripped(line)[0] == 'e'; }
    if IsDaysLine(line) { assert Stripped(line)[0] == 'm'; }
  }

  // ----- facts about the replaced lines

  lemma IndentStep(line: string)
    requires line != "" && line[0] == ' '
    ensures Indent(line) == 1 + Indent(line[1..]) && Stripped(line) == Stripped(line[1..])
  {
    var rest, n := line[1..], Indent(line[1..]);
    assert Indent(line) == 1 + n;
    assert line[n + 1..] == rest[n..];
  }

  lemma PaddedLine(body: string)
    requires body != "" && body[0] != ' '
    ensures Indent(PAD + body) == 6 && Stripped(PAD + body) == body
  {
    assert Indent(body) == 0 && Stripped(body) == body;
    hide Indent, Stripped;
    Blanks(6, body);
    assert "      " == Spaces(6);
  }

  function Spaces(n: nat): string {
    if n == 0 then "" else " " + Spaces(n - 1)
  }

  lemma {:induction false} Blanks(n: nat, body: string)
    ensures Indent(Spaces(n) + body) == n + Indent(body) && Stripped(Spaces(n) + body) == Stripped(body)
  {
    hide Indent, Stripped;
    var line := Spaces(n) + body;
    if n == 0 {
      assert line == body;
    } else {
      Blanks(n - 1, body);
      assert line[0] == ' ' && line[1..] == Spaces(n - 1) + body;
      IndentStep(line);
    }
  }

  lemma {:induction false} DecimalDigits(n: nat)
    ensures Decimal(n) != "" && forall i :: 0 <= i < |Decimal(n)| ==> '0' <= Decimal(n)[i] <= '9'
  {
    if n >= 10 { DecimalDigits(n / 10); }
  }

  /** Rewriting a line again: same key, same line end, and the block stays open. */
  lemma ReplacedLine(line: string, target: string, days: nat)
    requires IsEndLine(line) || IsDaysLine(line)
    ensures var again := NewLine(line, target, days);
      && (IsEndLine(again) <==> IsEndLine(line)) && (IsDaysLine(again) <==> IsDaysLine(line))
      && Newline(again) == Newline(line)
      && !Opens(again) && !Closes(again)
  {
    hide Indent, Stripped;
    var again := NewLine(line, target, days);
    var body := if IsEndLine(line) then EndBody(target) else DaysBody(days);
    assert again == PAD + body + Newline(line) == PAD + (body + Newline(line));
    DecimalDigits(days);
    PaddedLine(body + Newline(line));
    assert body[0] == if IsEndLine(line) then 'e' else 'm';
    assert body[|body| - 1] != '\n';
    assert again[4] == ' ' && BLOCK[4] == 'f';
    OneKey(line);
    OneKey(again);
  }

  lemma FieldLineKeepsState(inside: bool, line: string, target: string, days: nat)
    requires NextInside(inside, line)
    ensures NextInside(inside, NewLine(line, target, days))
  {
    if IsEndLine(line) || IsDaysLine(line) {
      ReplacedLine(line, target, days);
      if Opens(line) { BlockKeyIsNoField(line); }
    }
  }

  lemma BlockKeyIsNoField(line: string)
    requires Opens(line)
    ensures !IsEndLine(line) && !IsDaysLine(line)
  {
    var rest := line[4..];
    assert rest[0] == BLOCK[4] == 'f';
    assert Indent(rest) == 0 && Stripped(rest) == rest;
    assert Spaces(4) == "    " == BLOCK[..4];
    hide Spaces, Indent, Stripped, Opens;
    assert line == Spaces(4) + rest;
    Blanks(4, rest);
    assert Stripped(line)[0] == 'f';
  }

  lemma {:induction false} StateUnchanged(lines: seq<string>, target: string, days: nat, i: nat)
    requires i < |lines|
    ensures InsideAt(Rewritten(lines, target, days), i) == InsideAt(lines, i)
  {
    hide NewLine, NextInside, Replaced;
    if i > 0 { StateUnchanged(lines, target, days, i - 1); }
    if InsideAt(lines, i) {
      FieldLineKeepsState(i > 0 && InsideAt(lines, i - 1), lines[i], target, days);
    }
  }

  /** The last rewrite wins, and finds the same fields. */
  lemma RewriteAbsorbs(lines: seq<string>, d1: string, n1: nat, d2: string, n2: nat)
    ensures Rewritten(Rewritten(lines, d1, n1), d2, n2) == Rewritten(lines, d2, n2)
    ensures EndFound(Rewritten(lines, d1, n1)) <==> EndFound(lines)
    ensures DaysFound(Rewritten(lines, d1, n1)) <==> DaysFound(lines)
  {
    var once := Rewritten(lines, d1, n1);
    forall i | 0 <= i < |lines|
      ensures InsideAt(once, i) == InsideAt(lines, i)
      ensures InsideAt(lines, i) ==> (IsEndLine(once[i]) <==> IsEndLine(lines[i]))
      ensures InsideAt(lines, i) ==> (IsDaysLine(once[i]) <==> IsDaysLine(lines[i]))
      ensures Rewritten(once, d2, n2)[i] == Rewritten(lines, d2, n2)[i]
    {
      StateUnchanged(lines, d1, n1, i);
      hide InsideAt, IsEndLine, IsDaysLine, Newline;
      if InsideAt(lines, i) { LineAbsorbs(lines[i], d1, n1, d2, n2); }
    }
  }

  lemma LineAbsorbs(line: string, d1: string, n1: nat, d2: string, n2: nat)
    ensures var again := NewLine(line, d1, n1);
      && NewLine(again, d2, n2) == NewLine(line, d2, n2)
      && (IsEndLine(again) <==> IsEndLine(line)) && (IsDaysLine(again) <==> IsDaysLine(line))
  {
    if IsEndLine(line) || IsDaysLine(line) {
      ReplacedLine(line, d1, n1);
      hide IsEndLine, IsDaysLine, Newline, Opens, Closes;
    }
  }

  /** The same lines are fields after a rewrite, with the same line ends. */
  lemma SameFields(lines: seq<string>, target: string, days: nat, i: nat)
    requires i < |lines|
    ensures var out := Rewritten(lines, target, days);
      && (Replaced(out, i) <==> Replaced(lines, i))
      && (Replaced(lines, i) ==> Newline(out[i]) == Newline(lines[i]))
  {
    StateUnchanged(lines, target, days, i);
    hide InsideAt, IsEndLine, IsDaysLine, Newline;
    if InsideAt(lines, i) && (IsEndLine(lines[i]) || IsDaysLine(lines[i])) { ReplacedLine(lines[i], target, days); }
  }

  lemma RewriteIsIdempotent(lines: seq<string>, target: string, days: nat)
    ensures Rewritten(Rewritten(lines, target, days), target, days) == Rewritten(lines, target, days)
  {
    RewriteAbsorbs(lines, target, days, target, days);
  }

  /** After a rewrite every field line of the block is the new one. */
  lemma FieldsAre(lines: seq<string>, target: string, days: nat, i: nat)
    requires i < |lines| && InsideAt(Rewritten(lines, target, days), i)
    ensures var line := Rewritten(lines, target, days)[i];
      && (IsEndLine(line) ==> line == EndLine(line, target))
      && (IsDaysLine(line) ==> line == DaysLine(line, days))
  {
    StateUnchanged(lines, target, days, i);
    RewriteIsIdempotent(lines, target, days);
    var once := Rewritten(lines, target, days);
    assert once[i] == Rewritten(once, target, days)[i] == NewLine(once[i], target, days);
    OneKey(once[i]);
  }

  // ----- reading a field back

  /** Position of the first such character, or the length. */
  function Find(s: string, c: char): (k: nat)
    ensures k <= |s|
  {
    if s == "" || s[0] == c then 0 else 1 + Find(s[1..], c)
  }

  /** A line cut at its first two quotes. */
  datatype Quoted = Quoted(before: string, text: string, after: string)

  function ReadQuoted(line: string): Option<Quoted> {
    var a := Find(line, '"');
    if a == |line| then None
    else
      var rest := line[a + 1..];
      var b := Find(rest, '"');
      if b == |rest| then None else Some(Quoted(line[..a], rest[..b], rest[b + 1..]))
  }

  predicate IsDigit(c: char) { '0' <= c <= '9' }

  /** Length of the longest prefix whose characters all are, or all are not, digits. */
  function Span(s: string, digits: bool): (k: nat)
    ensures k <= |s|
  {
    if s == "" || IsDigit(s[0]) != digits then 0 else 1 + Span(s[1..], digits)
  }

  /** A line cut around its first number. */
  datatype Numbered = Numbered(before: string, value: int, after: string)

  function ReadNumber(line: string): Option<Numbered> {
    var a := Span(line, false);
    if a == |line| then None
    else
      var b := Span(line[a..], true);
      Some(Numbered(line[..a], Number(line[a..][..b]), line[a..][b..]))
  }

  /** The base-ten value of a digit string. */
  function Number(s: string): int {
    if s == "" then 0 else 10 * Number(s[..|s| - 1]) + (s[|s| - 1] as int - '0' as int)
  }

  lemma {:induction false} NumberOfDecimal(n: nat)
    ensures Number(Decimal(n)) == n
  {
    var s := Decimal(n);
    if n >= 10 {
      NumberOfDecimal(n / 10);
      assert s[..|s| - 1] == Decimal(n / 10);
    } else {
      assert s[..0] == "";
    }
  }

  lemma {:induction false} FindAfter(a: string, c: char, b: string)
    requires c !in a
    ensures Find(a + [c] + b, c) == |a|
  {
    if a == "" {
      assert a + [c] + b == [c] + b;
    } else {
      FindAfter(a[1..], c, b);
      assert (a + [c] + b)[1..] == a[1..] + [c] + b;
    }
  }

  lemma {:induction false} SpanOf(a: string, b: string, digits: bool)
    requires forall i :: 0 <= i < |a| ==> IsDigit(a[i]) == digits
    requires b != "" ==> IsDigit(b[0]) != digits
    ensures Span(a + b, digits) == |a|
  {
    if a == "" {
      assert a + b == b;
    } else {
      SpanOf(a[1..], b, digits);
      assert (a + b)[1..] == a[1..] + b;
    }
  }

  /** An end-date line reads back its target, after the key and with nothing but the line end behind it. */
  lemma EndLineReads(line: string, target: string)
    requires '"' !in target
    ensures ReadQuoted(EndLine(line, target)) == Some(Quoted(PAD + END_KEY + " ", target, Newline(line)))
  {
    var head, end := PAD + END_KEY + " ", Newline(line);
    assert EndLine(line, target) == head + ['"'] + (target + ['"'] + end);
    hide Newline;
    QuotesRead(head, target, end);
  }

  lemma QuotesRead(head: string, text: string, end: string)
    requires '"' !in head && '"' !in text
    ensures ReadQuoted(head + ['"'] + (text + ['"'] + end)) == Some(Quoted(head, text, end))
  {
    hide Find;
    var rest := text + ['"'] + end;
    var line := head + ['"'] + rest;
    FindAfter(head, '"', rest);
    FindAfter(text, '"', end);
    assert line[..|head|] == head && line[|head| + 1..] == rest;
    assert rest[..|text|] == text && rest[|text| + 1..] == end;
  }

  /** A days line reads back its number, after the key and with nothing but the line end behind it. */
  lemma DaysLineReads(line: string, days: nat)
    ensures ReadNumber(DaysLine(line, days)) == Some(Numbered(PAD + DAYS_KEY + " ", days, Newline(line)))
  {
    DecimalDigits(days);
    NumberOfDecimal(days);
    hide Span, Decimal, Number;
    var head, digits, tail := PAD + DAYS_KEY + " ", Decimal(days), Newline(line);
    assert DaysLine(line, days) == head + (digits + tail);
    SpanOf(head, digits + tail, false);
    SpanOf(digits, tail, true);
    assert (head + (digits + tail))[|head|..] == digits + tail;
  }

  /** After a rewrite every field of the block reads back the new value, on a line that ends as before. */
  lemma FieldsReadBack(lines: seq<string>, target: string, days: nat, i: nat)
    requires i < |lines| && InsideAt(Rewritten(lines, target, days), i)
    ensures var line, end := Rewritten(lines, target, days)[i], if EndsWithNewline(lines[i]) then "\n" else "";
      && (IsEndLine(line) && '"' !in target ==>
            ReadQuoted(line) == Some(Quoted("      expected_end_date: ", target, end)))
      && (IsDaysLine(line) ==> ReadNumber(line) == Some(Numbered("      min_business_days: ", days, end)))
  {
    var line := Rewritten(lines, target, days)[i];
    FieldsAre(lines, target, days, i);
    FieldEnds(lines, target, days, i);
    hide *;
    if IsEndLine(line) && '"' !in target { EndLineReads(line, target); }
    if IsDaysLine(line) { DaysLineReads(line, days); }
    EndKey();
    DaysKey();
  }

  lemma EndKey()
    ensures PAD + END_KEY + " " == "      expected_end_date: "
  {
  }

  lemma DaysKey()
    ensures PAD + DAYS_KEY + " " == "      min_business_days: "
  {
  }

  lemma FieldEnds(lines: seq<string>, target: string, days: nat, i: nat)
    requires i < |lines|
    ensures var line := Rewritten(lines, target, days)[i];
      Newline(line) == if EndsWithNewline(lines[i]) then "\n" else ""
  {
    SameFields(lines, target, days, i);
    hide Replaced, EndsWithNewline;
  }
}
