// Generated Markdown (internal/mcpserver/markdown.go, view_doc.go): fenced bodies, escaped table cells,
// and index rows that give the place of each section.

// Fenced code blocks, read by the rules of section 4.5 of the CommonMark Spec.
module Fences {
  import opened Outcomes
  import opened Text

  // How many backticks s begins with.
  function RunAt(s: string): nat {
    if s == "" || s[0] != '`' then 0 else 1 + RunAt(s[1..])
  }

  // No run of backticks in s is longer than n.
  predicate RunsWithin(s: string, n: nat) {
    s == "" || (RunAt(s) <= n && RunsWithin(s[1..], n))
  }

  function LongestRun(s: string): (n: nat)
    ensures RunsWithin(s, n)
  {
    if s == "" then 0
    else
      var rest := LongestRun(s[1..]);
      if RunAt(s) > rest then assert RunsWithin(s[1..], RunAt(s)) by { Widen(s[1..], rest, RunAt(s)); } RunAt(s) else rest
  }

  lemma {:induction false} Widen(s: string, n: nat, m: nat)
    requires RunsWithin(s, n) && n <= m
    ensures RunsWithin(s, m)
  {
    if s != "" {
      Widen(s[1..], n, m);
    }
  }

  lemma {:induction false} LongestIsLeast(s: string, n: nat)
    requires RunsWithin(s, n)
    ensures LongestRun(s) <= n
  {
    if s != "" {
      LongestIsLeast(s[1..], n);
    }
  }

  lemma {:induction false} RunWithinRun(s: string, k: nat)
    requires k <= RunAt(s)
    ensures RunAt(s) <= |s| && RunAt(s[k..]) == RunAt(s) - k && forall i :: 0 <= i < RunAt(s) ==> s[i] == '`'
  {
    if RunAt(s) > 0 {
      RunWithinRun(s[1..], if k > 0 then k - 1 else 0);
      assert forall i :: 0 < i < RunAt(s) ==> s[i] == s[1..][i - 1];
      if k > 0 {
        assert s[k..] == s[1..][k - 1..];
      }
    }
  }

  lemma {:induction false} RunsFrom(s: string, k: nat)
    requires k <= |s|
    ensures LongestRun(s[k..]) <= LongestRun(s)
  {
    if k > 0 {
      RunsFrom(s[1..], k - 1);
      assert s[k..] == s[1..][k - 1..];
    }
  }

  lemma {:induction false} SkipRun(s: string, k: nat)
    requires k <= RunAt(s) <= |s|
    ensures k > 0 ==> LongestRun(s) == if RunAt(s) > LongestRun(s[k..]) then RunAt(s) else LongestRun(s[k..])
  {
    RunWithinRun(s, 0);
    if k > 0 {
      RunWithinRun(s, 1);
      SkipRun(s[1..], k - 1);
      assert s[k..] == s[1..][k - 1..];
    }
  }

  function Backticks(n: nat): (s: string)
    ensures |s| == n && forall k :: 0 <= k < n ==> s[k] == '`'
  {
    seq(n, k => '`')
  }

  function FenceLength(content: string): nat {
    (if LongestRun(content) > 2 then LongestRun(content) else 2) + 1
  }

  // strings.ReplaceAll(s, "\r\n", "\n").
  function ReplaceCRLF(s: string): string {
    if s == "" then ""
    else if s[0] == '\r' && |s| > 1 && s[1] == '\n' then ['\n'] + ReplaceCRLF(s[2..])
    else [s[0]] + ReplaceCRLF(s[1..])
  }

  // strings.ReplaceAll(s, "\r", "\n").
  function ReplaceCR(s: string): (r: string)
    ensures '\r' !in r
  {
    if s == "" then "" else [if s[0] == '\r' then '\n' else s[0]] + ReplaceCR(s[1..])
  }

  function TrimNewline(s: string): string {
    if s != "" && s[|s| - 1] == '\n' then s[..|s| - 1] else s
  }

  function Body(content: string): string {
    ReplaceCR(ReplaceCRLF(content))
  }

  function BodyLines(content: string): seq<string> {
    if Body(content) == "" then [] else Split(TrimNewline(Body(content)), '\n')
  }

  function Fenced(content: string, language: string): seq<string> {
    var fence := Backticks(FenceLength(content));
    [fence + language] + BodyLines(content) + [fence]
  }

  // The length of the fence once the text before i has runs up to largest.
  ghost predicate ScannedTo(content: string, i: nat, largest: nat) {
    && i <= |content| && largest >= 2
    && FenceLength(content) == (if LongestRun(content[i..]) > largest then LongestRun(content[i..]) else largest) + 1
  }

  lemma ScanPlain(content: string, i: nat, largest: nat)
    requires ScannedTo(content, i, largest) && i < |content| && content[i] != '`'
    ensures ScannedTo(content, i + 1, largest)
  {
    assert content[i..][1..] == content[i + 1..];
  }

  lemma ScanRun(content: string, i: nat, j: nat, largest: nat)
    requires ScannedTo(content, i, largest) && i < j <= |content| && RunAt(content[i..]) == j - i
    ensures ScannedTo(content, j, if j - i > largest then j - i else largest)
  {
    SkipRun(content[i..], j - i);
    assert content[i..][j - i..] == content[j..];
  }

  lemma RunGrows(content: string, i: nat, j: nat)
    requires i <= j < |content| && RunAt(content[i..]) == j - i + RunAt(content[j..])
    ensures content[j] == '`' ==> RunAt(content[i..]) == j + 1 - i + RunAt(content[j + 1..])
    ensures content[j] != '`' ==> RunAt(content[i..]) == j - i
  {
    assert content[j..][1..] == content[j + 1..];
  }

  // The scan of appendFence for the longest run of backticks.
  method FenceWidth(content: string) returns (largest: nat)
    ensures largest + 1 == FenceLength(content)
  {
    largest := 2;
    var i := 0;
    assert content[0..] == content;
    while i < |content|
      invariant ScannedTo(content, i, largest)
    {
      if content[i] != '`' {
        ScanPlain(content, i, largest);
        i := i + 1;
        continue;
      }
      RunGrows(content, i, i);
      var j := i + 1;
      while j < |content| && content[j] == '`'
        invariant i < j <= |content| && RunAt(content[i..]) == j - i + RunAt(content[j..])
      {
        RunGrows(content, i, j);
        j := j + 1;
      }
      if j < |content| {
        RunGrows(content, i, j);
      }
      ScanRun(content, i, j, largest);
      if j - i > largest {
        largest := j - i;
      }
      i := j;
    }
    assert content[i..] == "";
  }

  // appendFence.
  method AppendFence(lines: seq<string>, content: string, language: string) returns (after: seq<string>)
    ensures after == lines + Fenced(content, language)
  {
    var largest := FenceWidth(content);
    var fence := Backticks(largest + 1);
    after := lines + [fence + language];
    var body := ReplaceCR(ReplaceCRLF(content));
    if body != "" {
      after := after + Split(TrimNewline(body), '\n');
    }
    after := after + [fence];
    assert after == lines + ([fence + language] + BodyLines(content) + [fence]);
  }

  // ----- a reader of fenced blocks

  function Indent(line: string): (n: nat)
    ensures n <= |line|
  {
    if line != "" && line[0] == ' ' then 1 + Indent(line[1..]) else 0
  }

  predicate OnlyBlanks(s: string) {
    forall k :: 0 <= k < |s| ==> s[k] == ' ' || s[k] == '\t'
  }

  // A closing fence of at least n backticks.
  predicate Closes(line: string, n: nat) {
    var rest := line[Indent(line)..];
    RunWithinRun(rest, 0);
    Indent(line) <= 3 && RunAt(rest) >= n && OnlyBlanks(rest[RunAt(rest)..])
  }

  // An opening fence of backticks, and how many; its info string has none.
  function Opens(line: string): Option<nat> {
    var rest := line[Indent(line)..];
    RunWithinRun(rest, 0);
    if Indent(line) <= 3 && RunAt(rest) >= 3 && '`' !in rest[RunAt(rest)..] then Some(RunAt(rest)) else None
  }

  // The lines before the first closing fence, and what follows it.
  function ReadBody(lines: seq<string>, n: nat): Option<(seq<string>, seq<string>)> {
    if lines == [] then None
    else if Closes(lines[0], n) then Some(([], lines[1..]))
    else
      match ReadBody(lines[1..], n)
      case None => None
      case Some(p) => Some(([lines[0]] + p.0, p.1))
  }

  function ReadFence(lines: seq<string>): Option<(seq<string>, seq<string>)> {
    if lines == [] || Opens(lines[0]).None? then None else ReadBody(lines[1..], Opens(lines[0]).value)
  }

  lemma {:induction false} RunsWithinFrom(s: string, n: nat, k: nat)
    requires RunsWithin(s, n) && k <= |s|
    ensures RunsWithin(s[k..], n) && RunAt(s[k..]) <= n
  {
    if k > 0 {
      RunsWithinFrom(s[1..], n, k - 1);
      assert s[k..] == s[1..][k - 1..];
    }
  }

  lemma NeverCloses(line: string, n: nat)
    requires RunsWithin(line, n)
    ensures !Closes(line, n + 1)
  {
    RunsWithinFrom(line, n, Indent(line));
  }

  lemma {:induction false} RunsAfterCRLF(s: string, n: nat)
    requires RunsWithin(s, n)
    ensures RunsWithin(ReplaceCRLF(s), n) && RunAt(ReplaceCRLF(s)) == RunAt(s)
    decreases |s|
  {
    if s != "" {
      if s[0] == '\r' && |s| > 1 && s[1] == '\n' {
        RunsWithinFrom(s, n, 2);
        RunsAfterCRLF(s[2..], n);
        assert ReplaceCRLF(s)[1..] == ReplaceCRLF(s[2..]);
      } else {
        RunsAfterCRLF(s[1..], n);
        assert ReplaceCRLF(s)[1..] == ReplaceCRLF(s[1..]);
      }
    }
  }

  lemma {:induction false} RunsAfterCR(s: string, n: nat)
    requires RunsWithin(s, n)
    ensures RunsWithin(ReplaceCR(s), n) && RunAt(ReplaceCR(s)) == RunAt(s)
  {
    if s != "" {
      RunsAfterCR(s[1..], n);
      assert ReplaceCR(s)[1..] == ReplaceCR(s[1..]);
    }
  }

  lemma {:induction false} RunsOfPrefix(s: string, n: nat, k: nat)
    requires RunsWithin(s, n) && k <= |s|
    ensures RunsWithin(s[..k], n) && RunAt(s[..k]) <= RunAt(s)
  {
    if k > 0 {
      RunsOfPrefix(s[1..], n, k - 1);
      assert s[..k][1..] == s[1..][..k - 1];
    }
  }

  lemma {:induction false} RunsOfPieces(s: string, n: nat)
    requires RunsWithin(s, n)
    ensures RunAt(Split(s, '\n')[0]) == RunAt(s)
    ensures forall k :: 0 <= k < |Split(s, '\n')| ==> RunsWithin(Split(s, '\n')[k], n)
  {
    if s != "" {
      RunsOfPieces(s[1..], n);
      var rest := Split(s[1..], '\n');
      if s[0] != '\n' {
        var head := [s[0]] + rest[0];
        assert head[1..] == rest[0];
      }
    }
  }

  lemma BodyRuns(content: string, k: nat)
    requires k < |BodyLines(content)|
    ensures RunsWithin(BodyLines(content)[k], LongestRun(content))
  {
    var n := LongestRun(content);
    RunsAfterCRLF(content, n);
    RunsAfterCR(ReplaceCRLF(content), n);
    var body := Body(content);
    if body[|body| - 1] == '\n' {
      RunsOfPrefix(body, n, |body| - 1);
    }
    RunsOfPieces(TrimNewline(body), n);
  }

  lemma {:induction false} RunOfBackticks(n: nat, rest: string)
    requires rest == "" || rest[0] != '`'
    ensures RunAt(Backticks(n) + rest) == n
  {
    if n > 0 {
      RunOfBackticks(n - 1, rest);
      assert (Backticks(n) + rest)[1..] == Backticks(n - 1) + rest;
    } else {
      assert Backticks(0) + rest == rest;
    }
  }

  lemma {:induction false} ReadsUpTo(body: seq<string>, fence: string, rest: seq<string>, n: nat)
    requires Closes(fence, n) && forall k :: 0 <= k < |body| ==> !Closes(body[k], n)
    ensures ReadBody(body + [fence] + rest, n) == Some((body, rest))
  {
    var lines := body + [fence] + rest;
    if body == [] {
      assert lines[1..] == rest;
    } else {
      ReadsUpTo(body[1..], fence, rest, n);
      assert lines[1..] == body[1..] + [fence] + rest;
      assert body == [body[0]] + body[1..];
    }
  }

  lemma FenceOpens(n: nat, language: string)
    requires n >= 3 && '`' !in language
    ensures Opens(Backticks(n) + language) == Some(n)
  {
    var line := Backticks(n) + language;
    RunOfBackticks(n, language);
    assert Indent(line) == 0 && line[0..] == line && line[n..] == language;
  }

  lemma FenceCloses(n: nat)
    requires n >= 3
    ensures Closes(Backticks(n), n)
  {
    var line := Backticks(n);
    RunOfBackticks(n, "");
    assert line + "" == line && Indent(line) == 0 && line[0..] == line && line[n..] == "";
  }

  // Whatever is fenced, the block that is read is the fenced body, and what follows stays outside.
  lemma FenceReads(content: string, language: string, rest: seq<string>)
    requires '`' !in language
    ensures ReadFence(Fenced(content, language) + rest) == Some((BodyLines(content), rest))
  {
    var n := FenceLength(content);
    var fence, body := Backticks(n), BodyLines(content);
    FenceOpens(n, language);
    FenceCloses(n);
    forall k | 0 <= k < |body| ensures !Closes(body[k], n) {
      BodyRuns(content, k);
      Widen(body[k], LongestRun(content), n - 1);
      NeverCloses(body[k], n - 1);
    }
    ReadsUpTo(body, fence, rest, n);
    assert Fenced(content, language) + rest == [fence + language] + (body + [fence] + rest);
  }

  lemma {:induction false} PiecesFrom(s: string, c: char)
    ensures forall k :: 0 <= k < |Split(s, '\n')| ==> c in Split(s, '\n')[k] ==> c in s
  {
    if s != "" {
      PiecesFrom(s[1..], c);
    }
  }

  // The body is the content line by line, up to its line ends; no line has a line break in it.
  lemma BodyIsContent(content: string)
    ensures BodyLines(content) != [] ==> Join(BodyLines(content), '\n') == TrimNewline(Body(content))
    ensures BodyLines(content) == [] <==> content == ""
    ensures forall k :: 0 <= k < |BodyLines(content)| ==> '\n' !in BodyLines(content)[k] && '\r' !in BodyLines(content)[k]
  {
    var body := Body(content);
    JoinSplit(TrimNewline(body), '\n');
    PiecesFrom(TrimNewline(body), '\r');
    assert '\r' !in TrimNewline(body);
  }
}

// Table cells.
module Cells {
  import opened Outcomes
  import opened Text

  // The characters that are written as entities, and the entity's name.
  function Entity(c: char): string {
    match c
    case '&' => "amp"
    case '<' => "lt"
    case '>' => "gt"
    case '|' => "#124"
    case '`' => "#96"
    case '\\' => "#92"
    case '\r' => "#13"
    case '\n' => "#10"
    case _ => ""
  }

  predicate Backslashed(c: char) {
    c == '*' || c == '_' || c == '[' || c == ']' || c == '#' || c == '!'
  }

  function Escaped(c: char): string {
    if Entity(c) != "" then "&" + Entity(c) + ";"
    else if Backslashed(c) then ['\\', c]
    else [c]
  }

  // navigation.
  function Navigation(text: string): string {
    if text == "" then "" else Escaped(text[0]) + Navigation(text[1..])
  }

  function EntityChar(name: string): char {
    if name == "amp" then '&' else if name == "lt" then '<' else if name == "gt" then '>'
    else if name == "#124" then '|' else if name == "#96" then '`' else if name == "#92" then '\\'
    else if name == "#13" then '\r' else '\n'
  }

  function Upto(s: string): (n: nat)
    ensures n <= |s|
  {
    if s == "" || s[0] == ';' then 0 else 1 + Upto(s[1..])
  }

  // What a reader of the escaped text sees.
  function Shown(s: string): string
    decreases |s|
  {
    if s == "" then ""
    else if s[0] == '&' then
      var n := Upto(s[1..]);
      [EntityChar(s[1..1 + n])] + Shown(if 2 + n <= |s| then s[2 + n..] else "")
    else if s[0] == '\\' && |s| > 1 then [s[1]] + Shown(s[2..])
    else [s[0]] + Shown(s[1..])
  }

  lemma EntityNames(c: char)
    requires Entity(c) != ""
    ensures EntityChar(Entity(c)) == c && ';' !in Entity(c)
  {
    assert "amp"[0] == 'a' && "lt"[0] == 'l' && "gt"[0] == 'g';
    assert |"#124"| == 4 && "#96"[2] == '6' && "#92"[2] == '2' && "#13"[2] == '3' && "#10"[2] == '0' && "#96"[1] == '9' && "#92"[1] == '9';
  }

  lemma {:induction false} UptoEnd(name: string, rest: string)
    requires ';' !in name
    ensures Upto(name + ";" + rest) == |name|
  {
    if name == "" {
      assert name + ";" + rest == ";" + rest;
    } else {
      UptoEnd(name[1..], rest);
      assert (name + ";" + rest)[1..] == name[1..] + ";" + rest;
    }
  }

  lemma EntityShown(name: string, rest: string)
    requires ';' !in name
    ensures Shown("&" + name + ";" + rest) == [EntityChar(name)] + Shown(rest)
  {
    UptoEnd(name, rest);
    var s, tail := "&" + name + ";" + rest, name + ";" + rest;
    assert s[0] == '&' && s[1..] == tail;
    assert s[1..1 + |name|] == name && s[2 + |name|..] == rest;
  }

  lemma PlainShown(s: string)
    requires s != "" && s[0] != '&'
    ensures s[0] != '\\' ==> Shown(s) == [s[0]] + Shown(s[1..])
    ensures s[0] == '\\' && |s| > 1 ==> Shown(s) == [s[1]] + Shown(s[2..])
  {
  }

  lemma EscapedShown(c: char, rest: string)
    ensures Shown(Escaped(c) + rest) == [c] + Shown(rest)
  {
    if Entity(c) != "" {
      EntityNames(c);
      EntityShown(Entity(c), rest);
    } else if Backslashed(c) {
      PlainShown(['\\', c] + rest);
      assert (['\\', c] + rest)[2..] == rest;
    } else {
      PlainShown([c] + rest);
      assert ([c] + rest)[1..] == rest;
    }
  }

  // Every text is shown as it was.
  lemma {:induction false} NavigationShown(text: string)
    ensures Shown(Navigation(text)) == text
  {
    if text != "" {
      NavigationShown(text[1..]);
      EscapedShown(text[0], Navigation(text[1..]));
      assert text == [text[0]] + text[1..];
    }
  }

  predicate OneLine(s: string) {
    '\n' !in s && '\r' !in s
  }

  predicate CellText(s: string) {
    OneLine(s) && '|' !in s
  }

  predicate Unsafe(c: char) {
    c == '\n' || c == '\r' || c == '|' || c == '<' || c == '>' || c == '`'
  }

  predicate Safe(s: string) {
    forall k :: 0 <= k < |s| ==> !Unsafe(s[k])
  }

  lemma EscapedIsSafe(c: char)
    ensures Safe(Escaped(c))
  {
    assert Unsafe(c) ==> Entity(c) != "";
    assert Safe("amp") && Safe("lt") && Safe("gt") && Safe("#124") && Safe("#96") && Safe("#92") && Safe("#13") && Safe("#10");
  }

  // And it is one cell on one line, with no markup of its own.
  lemma {:induction false} NavigationIsCell(text: string)
    ensures Safe(Navigation(text)) && CellText(Navigation(text))
  {
    if text != "" {
      NavigationIsCell(text[1..]);
      EscapedIsSafe(text[0]);
    }
  }

  // ----- rows

  function RowTail(cells: seq<string>): string {
    if cells == [] then "" else " " + cells[0] + " |" + RowTail(cells[1..])
  }

  // "| %s | %s | ... |".
  function RowText(cells: seq<string>): string {
    "|" + RowTail(cells)
  }

  function Padded(cells: seq<string>): (r: seq<string>)
    ensures |r| == |cells| && forall k {:trigger r[k]} :: 0 <= k < |r| ==> r[k] == " " + cells[k] + " "
  {
    seq(|cells|, k requires 0 <= k < |cells| => " " + cells[k] + " ")
  }

  lemma {:induction false} TailCells(cells: seq<string>)
    requires forall k :: 0 <= k < |cells| ==> CellText(cells[k])
    ensures Split(RowTail(cells), '|') == Padded(cells) + [""] && OneLine(RowTail(cells))
  {
    if cells != [] {
      TailCells(cells[1..]);
      var cell, rest := " " + cells[0] + " ", RowTail(cells[1..]);
      assert RowTail(cells) == cell + (['|'] + rest);
      SplitSeparator(rest, '|');
      assert CellText(cells[0]);
      SplitPrepend(cell, ['|'] + rest, '|');
      assert ([""] + Split(rest, '|'))[1..] == Split(rest, '|');
      assert cell + "" == cell;
      assert Padded(cells) == [cell] + Padded(cells[1..]);
      assert [cell] + (Padded(cells[1..]) + [""]) == Padded(cells) + [""];
    }
  }

  // A row is one line, and its cells are found between its bars.
  lemma RowReads(cells: seq<string>)
    requires forall k :: 0 <= k < |cells| ==> CellText(cells[k])
    ensures OneLine(RowText(cells)) && Split(RowText(cells), '|') == [""] + Padded(cells) + [""]
  {
    TailCells(cells);
    SplitSeparator(RowTail(cells), '|');
    assert "|" + RowTail(cells) == ['|'] + RowTail(cells);
    assert [""] + (Padded(cells) + [""]) == [""] + Padded(cells) + [""];
  }
}

module Views {
  import opened Outcomes
  import opened Text
  import opened Decimals
  import opened Fences
  import opened Cells

  const MaxMarkdownBytes := 33554432

  // viewAnchor; a section that is finished was started.
  datatype Anchor = Reserved | Started(start: nat) | Finished(start: nat, end: nat)

  // An index row: escaped texts, then the offset and length of a section.
  datatype Row = Row(texts: seq<string>, section: nat)

  datatype IndexedLine = IndexedLine(index: nat, row: Row)

  predicate GoodRow(row: Row) {
    forall k :: 0 <= k < |row.texts| ==> CellText(row.texts[k])
  }

  function Min(a: int, b: int): int {
    if a < b then a else b
  }

  // The length a row gives: up to the section's end or the document's, whichever comes first.
  function LengthOf(a: Anchor, lastLine: nat): int
    requires a.Finished?
  {
    Min(a.end, lastLine) - a.start
  }

  function RowCells(row: Row, a: Anchor, lastLine: nat): seq<string>
    requires a.Finished?
  {
    row.texts + [FormatInt(a.start), FormatInt(LengthOf(a, lastLine))]
  }

  lemma DecimalIsCell(n: int)
    ensures CellText(FormatInt(n))
  {
    var s := FormatInt(n);
    forall k | 0 <= k < |s| ensures s[k] == '-' || IsDigit(s[k]) {
      if n < 0 && k > 0 {
        assert s[k] == s[1..][k - 1];
      }
    }
  }

  // From the row alone a reader finds the section's offset and length.
  lemma RowLocates(row: Row, a: Anchor, lastLine: nat)
    requires GoodRow(row) && a.Finished? && a.start <= MaxInt && MinInt <= LengthOf(a, lastLine) <= MaxInt
    ensures var text := RowText(RowCells(row, a, lastLine));
            && OneLine(text) && |Split(text, '|')| == |row.texts| + 4
            && Split(text, '|')[|row.texts| + 1] == " " + FormatInt(a.start) + " " && ParseInt(FormatInt(a.start)) == Some(a.start)
            && Split(text, '|')[|row.texts| + 2] == " " + FormatInt(LengthOf(a, lastLine)) + " "
            && ParseInt(FormatInt(LengthOf(a, lastLine))) == Some(LengthOf(a, lastLine))
  {
    var cells := RowCells(row, a, lastLine);
    DecimalIsCell(a.start);
    DecimalIsCell(LengthOf(a, lastLine));
    RowReads(cells);
    ParseFormatted(a.start);
    ParseFormatted(LengthOf(a, lastLine));
  }

  // Where the last line that is not blank ends.
  function ContentEnd(lines: seq<string>): (n: nat)
    ensures n <= |lines| && (n > 0 ==> lines[n - 1] != "") && forall k :: n <= k < |lines| ==> lines[k] == ""
  {
    if lines == [] then 0
    else if lines[|lines| - 1] != "" then |lines|
    else ContentEnd(lines[..|lines| - 1])
  }

  // len(strings.Join(lines, "\n")) + 1.
  function Size(lines: seq<string>): nat {
    if lines == [] then 1 else |Join(lines, '\n')| + 1
  }

  function RowAt(indexLines: seq<IndexedLine>, k: nat): Option<Row> {
    if indexLines == [] then None
    else
      var last := indexLines[|indexLines| - 1];
      if last.index == k then Some(last.row) else RowAt(indexLines[..|indexLines| - 1], k)
  }

  ghost predicate AllFinished(anchors: map<nat, Anchor>) {
    forall id {:trigger anchors[id]} :: id in anchors ==> anchors[id].Finished?
  }

  // The rows stand where they were written and name sections that were reserved.
  ghost predicate Placed(lines: seq<string>, anchors: map<nat, Anchor>, indexLines: seq<IndexedLine>) {
    && (forall i {:trigger indexLines[i]} :: 0 <= i < |indexLines| ==>
          indexLines[i].index < |lines| && lines[indexLines[i].index] == "" && indexLines[i].row.section in anchors && GoodRow(indexLines[i].row))
    && (forall i, j :: 0 <= i < j < |indexLines| ==> indexLines[i].index < indexLines[j].index)
  }

  ghost predicate Bounded(anchors: map<nat, Anchor>, n: nat) {
    forall id {:trigger anchors[id]} :: id in anchors ==>
      match anchors[id]
      case Reserved => true
      case Started(start) => start <= n
      case Finished(start, end) => start <= end <= n
  }

  // The document as it is read: index rows filled in, trailing blanks gone.
  ghost predicate Filled(lines: seq<string>, anchors: map<nat, Anchor>, indexLines: seq<IndexedLine>, lastLine: nat, result: seq<string>)
    requires AllFinished(anchors) && Placed(lines, anchors, indexLines)
  {
    && |result| == lastLine <= |lines|
    && (forall i {:trigger indexLines[i]} :: 0 <= i < |indexLines| ==>
          && indexLines[i].index < lastLine
          && result[indexLines[i].index] == RowText(RowCells(indexLines[i].row, anchors[indexLines[i].row.section], lastLine)))
    && (forall k {:trigger result[k]} :: 0 <= k < lastLine && RowAt(indexLines, k).None? ==> result[k] == lines[k])
  }

  lemma {:induction false} RowAtFinds(indexLines: seq<IndexedLine>, k: nat)
    ensures RowAt(indexLines, k).Some? <==> exists i :: 0 <= i < |indexLines| && indexLines[i].index == k
  {
    if indexLines != [] {
      var n := |indexLines| - 1;
      RowAtFinds(indexLines[..n], k);
      if RowAt(indexLines[..n], k).Some? {
        var i :| 0 <= i < n && indexLines[..n][i].index == k;
        assert indexLines[i].index == k;
      }
      if exists i :: 0 <= i < n && indexLines[i].index == k {
        var i :| 0 <= i < n && indexLines[i].index == k;
        assert indexLines[..n][i].index == k;
      }
    }
  }

  class ViewDoc {
    var lines: seq<string>
    var anchors: map<nat, Anchor>
    var next: nat
    var indexLines: seq<IndexedLine>
    var lastLine: nat
    // What each finished section wrote.
    ghost var written: map<nat, seq<string>>

    ghost predicate Valid()
      reads this
    {
      && (forall id :: id in anchors ==> 1 <= id <= next)
      && Bounded(anchors, |lines|) && Placed(lines, anchors, indexLines)
      && (forall id {:trigger anchors[id]} :: id in anchors && anchors[id].Finished? ==>
            id in written && written[id] == lines[anchors[id].start..anchors[id].end])
    }

    constructor ()
      ensures Valid() && lines == [] && anchors == map[] && indexLines == []
    {
      lines, anchors, next, indexLines, lastLine, written := [], map[], 0, [], 0, map[];
    }

    method Reserve() returns (id: nat)
      requires Valid()
      modifies this`next, this`anchors
      ensures Valid() && id !in old(anchors) && anchors == old(anchors)[id := Reserved]
    {
      next := next + 1;
      anchors := anchors[next := Reserved];
      return next;
    }

    method Begin(id: nat) returns (ok: bool)
      requires Valid()
      modifies this`anchors
      ensures Valid() && ok == (id in old(anchors) && old(anchors)[id].Reserved?)
      ensures anchors == if ok then old(anchors)[id := Started(|lines|)] else old(anchors)
    {
      if id !in anchors || !anchors[id].Reserved? {
        return false;
      }
      anchors := anchors[id := Started(|lines|)];
      return true;
    }

    method End(id: nat) returns (ok: bool)
      requires Valid()
      modifies this`anchors, this`written
      ensures Valid() && ok == (id in old(anchors) && old(anchors)[id].Started?)
      ensures anchors == if ok then old(anchors)[id := Finished(old(anchors)[id].start, |lines|)] else old(anchors)
      ensures written == if ok then old(written)[id := lines[old(anchors)[id].start..]] else old(written)
    {
      if id !in anchors || !anchors[id].Started? {
        return false;
      }
      var start := anchors[id].start;
      anchors := anchors[id := Finished(start, |lines|)];
      written := written[id := lines[start..]];
      return true;
    }

    // Text and fenced bodies are only ever added at the end.
    method Append(more: seq<string>)
      requires Valid()
      modifies this`lines
      ensures Valid() && lines == old(lines) + more
    {
      lines := lines + more;
    }

    method AddIndexLine(row: Row)
      requires Valid() && row.section in anchors && GoodRow(row)
      modifies this`lines, this`indexLines
      ensures Valid() && lines == old(lines) + [""] && indexLines == old(indexLines) + [IndexedLine(|old(lines)|, row)]
    {
      indexLines := indexLines + [IndexedLine(|lines|, row)];
      lines := lines + [""];
    }

    method AllClosed() returns (ok: bool)
      ensures ok <==> AllFinished(anchors)
    {
      var ids := anchors.Keys;
      while ids != {}
        invariant ids <= anchors.Keys && forall id {:trigger anchors[id]} :: id in anchors && id !in ids ==> anchors[id].Finished?
        decreases |ids|
      {
        var id :| id in ids;
        if !anchors[id].Finished? {
          return false;
        }
        ids := ids - {id};
      }
      return true;
    }

    method FillRows(end: nat) returns (r: Option<seq<string>>)
      requires AllFinished(anchors) && Placed(lines, anchors, indexLines) && end <= |lines|
      ensures r.Some? ==> Filled(lines, anchors, indexLines, end, r.value)
      ensures r.None? ==> exists i :: 0 <= i < |indexLines| && indexLines[i].index >= end
    {
      var result := lines[..end];
      var k := 0;
      while k < |indexLines|
        invariant 0 <= k <= |indexLines| && FilledTo(lines, anchors, indexLines, end, result, k)
      {
        var item := indexLines[k];
        if item.index >= end {
          return None;
        }
        FillsOneMore(lines, anchors, indexLines, end, result, k);
        result := result[item.index := RowText(RowCells(item.row, anchors[item.row.section], end))];
        k := k + 1;
      }
      return Some(result);
    }

    // finish: it accepts exactly the documents whose sections are closed, whose rows are not in the trimmed
    // tail and whose text fits.
    method Finish() returns (r: Option<seq<string>>)
      requires Valid()
      modifies this`lastLine
      ensures Valid() && lastLine == ContentEnd(lines)
      ensures r.Some? ==> AllFinished(anchors) && Filled(lines, anchors, indexLines, lastLine, r.value) && Size(r.value) <= MaxMarkdownBytes
      ensures r.None? ==>
                || !AllFinished(anchors)
                || (exists i :: 0 <= i < |indexLines| && indexLines[i].index >= lastLine)
                || exists full :: Filled(lines, anchors, indexLines, lastLine, full) && Size(full) > MaxMarkdownBytes
    {
      var end := TrimmedEnd(lines);
      lastLine := end;
      var closed := AllClosed();
      if !closed {
        return None;
      }
      var result := FillRows(end);
      if result.None? || Size(result.value) > MaxMarkdownBytes {
        return None;
      }
      return result;
    }
  }

  method TrimmedEnd(lines: seq<string>) returns (end: nat)
    ensures end == ContentEnd(lines)
  {
    end := |lines|;
    assert lines[..end] == lines;
    while end > 0 && lines[end - 1] == ""
      invariant end <= |lines| && ContentEnd(lines) == ContentEnd(lines[..end])
    {
      assert lines[..end][..end - 1] == lines[..end - 1];
      end := end - 1;
    }
  }

  ghost predicate FilledTo(lines: seq<string>, anchors: map<nat, Anchor>, indexLines: seq<IndexedLine>, end: nat, result: seq<string>, k: nat)
    requires AllFinished(anchors) && Placed(lines, anchors, indexLines)
  {
    && k <= |indexLines| && |result| == end <= |lines|
    && (forall i {:trigger indexLines[i]} :: 0 <= i < k ==>
          && indexLines[i].index < end
          && result[indexLines[i].index] == RowText(RowCells(indexLines[i].row, anchors[indexLines[i].row.section], end)))
    && (forall p {:trigger result[p]} :: 0 <= p < end && RowAt(indexLines, p).None? ==> result[p] == lines[p])
  }

  lemma FillsOneMore(lines: seq<string>, anchors: map<nat, Anchor>, indexLines: seq<IndexedLine>, end: nat, result: seq<string>, k: nat)
    requires AllFinished(anchors) && Placed(lines, anchors, indexLines)
    requires FilledTo(lines, anchors, indexLines, end, result, k) && k < |indexLines| && indexLines[k].index < end
    ensures var item := indexLines[k];
            FilledTo(lines, anchors, indexLines, end, result[item.index := RowText(RowCells(item.row, anchors[item.row.section], end))], k + 1)
  {
    var item := indexLines[k];
    var next := result[item.index := RowText(RowCells(item.row, anchors[item.row.section], end))];
    RowAtFinds(indexLines, item.index);
    forall i | 0 <= i < k ensures next[indexLines[i].index] == result[indexLines[i].index] {
      assert indexLines[i].index < indexLines[k].index;
    }
  }

  // ----- what the rows select

  // The slice an index row gives is what its section wrote, with the rows in it filled in and without the
  // document's trailing blanks; exactly when the section did not begin in those.
  ghost predicate Selects(written: seq<string>, indexLines: seq<IndexedLine>, a: Anchor, lastLine: nat, result: seq<string>)
    requires a.Finished?
  {
    && 0 <= LengthOf(a, lastLine) && a.start + LengthOf(a, lastLine) <= |result|
    && forall k {:trigger result[a.start..a.start + LengthOf(a, lastLine)][k]} :: 0 <= k < LengthOf(a, lastLine) ==>
         && k < |written|
         && (RowAt(indexLines, a.start + k).None? ==> result[a.start..a.start + LengthOf(a, lastLine)][k] == written[k])
  }

  lemma RowsSelect(doc: ViewDoc, result: seq<string>, id: nat)
    requires doc.Valid() && doc.lastLine == ContentEnd(doc.lines) && AllFinished(doc.anchors)
    requires Filled(doc.lines, doc.anchors, doc.indexLines, doc.lastLine, result) && id in doc.anchors
    ensures Selects(doc.written[id], doc.indexLines, doc.anchors[id], doc.lastLine, result) <==> doc.anchors[id].start <= doc.lastLine
    ensures forall k {:trigger doc.written[id][k]} :: 0 <= k < |doc.written[id]| && k >= LengthOf(doc.anchors[id], doc.lastLine) ==> doc.written[id][k] == ""
  {
    var a := doc.anchors[id];
    var n := LengthOf(a, doc.lastLine);
    forall k | 0 <= k < |doc.written[id]| && k >= n ensures doc.written[id][k] == "" {
      assert doc.written[id][k] == doc.lines[a.start + k];
    }
    if a.start <= doc.lastLine {
      forall k | 0 <= k < n ensures RowAt(doc.indexLines, a.start + k).None? ==> result[a.start..a.start + n][k] == doc.written[id][k] {
        assert result[a.start..a.start + n][k] == result[a.start + k];
        assert doc.written[id][k] == doc.lines[a.start + k];
      }
    }
  }

  // A section that wrote something that is not blank is selected.
  lemma HeadedSectionSelected(doc: ViewDoc, result: seq<string>, id: nat, k: nat)
    requires doc.Valid() && doc.lastLine == ContentEnd(doc.lines) && AllFinished(doc.anchors)
    requires Filled(doc.lines, doc.anchors, doc.indexLines, doc.lastLine, result) && id in doc.anchors
    requires k < |doc.written[id]| && doc.written[id][k] != ""
    ensures Selects(doc.written[id], doc.indexLines, doc.anchors[id], doc.lastLine, result)
  {
    var a := doc.anchors[id];
    assert doc.written[id][k] == doc.lines[a.start + k];
    RowsSelect(doc, result, id);
  }

  // If every line that was written is one line, so is every element of the document: index rows are.
  lemma NoElementBreaks(doc: ViewDoc, result: seq<string>)
    requires doc.Valid() && AllFinished(doc.anchors) && Filled(doc.lines, doc.anchors, doc.indexLines, doc.lastLine, result)
    requires forall k :: 0 <= k < |doc.lines| ==> OneLine(doc.lines[k])
    ensures forall k :: 0 <= k < |result| ==> OneLine(result[k])
  {
    forall k | 0 <= k < |result| ensures OneLine(result[k]) {
      RowAtFinds(doc.indexLines, k);
      if RowAt(doc.indexLines, k).Some? {
        var i :| 0 <= i < |doc.indexLines| && doc.indexLines[i].index == k;
        var item := doc.indexLines[i];
        var a := doc.anchors[item.row.section];
        DecimalIsCell(a.start);
        DecimalIsCell(LengthOf(a, doc.lastLine));
        RowReads(RowCells(item.row, a, doc.lastLine));
      } else {
        assert OneLine(doc.lines[k]);
      }
    }
  }

  // ----- a section that begins in the trailing blanks

  lemma EndOfHeading()
    ensures ContentEnd(["", "heading", "", ""]) == 2
  {
    var lines := ["", "heading", "", ""];
    assert lines[1] != "" && lines[2] == "" && lines[3] == "";
  }

  // Two lines of which the first is an index row are read back as that row and the second.
  lemma RowThenLine(lines: seq<string>, anchors: map<nat, Anchor>, row: Row, line: string, result: seq<string>)
    requires AllFinished(anchors) && Placed(lines, anchors, [IndexedLine(0, row)]) && row.section in anchors && |lines| >= 2 && lines[1] == line
    requires Filled(lines, anchors, [IndexedLine(0, row)], 2, result)
    ensures result == [RowText(RowCells(row, anchors[row.section], 2)), line]
  {
    var indexLines := [IndexedLine(0, row)];
    assert indexLines[0].index == 0;
    RowAtFinds(indexLines, 1);
    assert RowAt(indexLines, 1).None? && result[1] == lines[1];
  }

  lemma TwoLinesSize(a: string, b: string)
    ensures Size([a, b]) == |a| + |b| + 2
  {
    assert [a, b][1..] == [b];
    assert Join([a, b], '\n') == a + ['\n'] + b;
  }

  lemma {:induction false} RowTailSize(cells: seq<string>, width: nat)
    requires forall k :: 0 <= k < |cells| ==> |cells[k]| <= width
    ensures |RowTail(cells)| <= |cells| * (width + 3)
  {
    if cells != [] {
      RowTailSize(cells[1..], width);
    }
  }

  lemma OneDigit(n: int)
    requires 0 <= n < 10
    ensures |FormatInt(n)| == 1 && |FormatInt(-n)| <= 2
  {
  }

  lemma CellsFit(texts: seq<string>, offset: string, length: string)
    requires |texts| <= 8 && (forall k :: 0 <= k < |texts| ==> |texts[k]| <= 80) && |offset| <= 80 && |length| <= 80
    ensures |RowText(texts + [offset, length])| <= 831
  {
    var cells := texts + [offset, length];
    RowTailSize(cells, 80);
    assert |cells| * 83 <= 830;
  }

  lemma RowFits(row: Row, line: string)
    requires |row.texts| <= 8 && |line| <= 80 && forall k :: 0 <= k < |row.texts| ==> |row.texts[k]| <= 80
    ensures Size([RowText(RowCells(row, Finished(3, 4), 2)), line]) <= MaxMarkdownBytes
  {
    OneDigit(3);
    OneDigit(1);
    var offset, length := FormatInt(3), FormatInt(-1);
    CellsFit(row.texts, offset, length);
    assert RowCells(row, Finished(3, 4), 2) == row.texts + [offset, length];
    TwoLinesSize(RowText(row.texts + [offset, length]), line);
  }

  ghost predicate BlankAtEnd(doc: ViewDoc, row: Row)
    reads doc
  {
    && doc.Valid() && doc.lines == ["", "heading", "", ""] && doc.indexLines == [IndexedLine(0, row)]
    && doc.anchors == map[row.section := Finished(3, 4)]
  }

  method WriteBlank(texts: seq<string>) returns (doc: ViewDoc, row: Row)
    requires forall k :: 0 <= k < |texts| ==> CellText(texts[k])
    ensures fresh(doc) && BlankAtEnd(doc, row) && row.texts == texts
  {
    doc := new ViewDoc();
    var id := doc.Reserve();
    row := Row(texts, id);
    doc.AddIndexLine(row);
    doc.Append(["heading", ""]);
    var begun := doc.Begin(id);
    doc.Append([""]);
    assert doc.lines == ["", "heading", "", ""];
    var ended := doc.End(id);
  }

  // The section written last holds one blank line, after another: its row comes out with the length -1.
  method BlankSection(texts: seq<string>) returns (doc: ViewDoc, row: Row, r: Option<seq<string>>)
    requires |texts| <= 8 && forall k :: 0 <= k < |texts| ==> CellText(texts[k]) && |texts[k]| <= 80
    ensures BlankAtEnd(doc, row) && row.texts == texts && LengthOf(doc.anchors[row.section], doc.lastLine) == -1
    ensures r == Some([RowText(texts + [FormatInt(3), FormatInt(-1)]), "heading"])
  {
    doc, row := WriteBlank(texts);
    EndOfHeading();
    RowFits(row, "heading");
    r := doc.Finish();
    assert doc.indexLines[0].index == 0;
    BlankFilled(doc, row);
  }

  lemma BlankFilled(doc: ViewDoc, row: Row)
    requires BlankAtEnd(doc, row)
    ensures forall full :: Filled(doc.lines, doc.anchors, doc.indexLines, 2, full) ==> full == [RowText(RowCells(row, Finished(3, 4), 2)), "heading"]
  {
    forall full | Filled(doc.lines, doc.anchors, doc.indexLines, 2, full)
      ensures full == [RowText(RowCells(row, Finished(3, 4), 2)), "heading"]
    {
      RowThenLine(doc.lines, doc.anchors, row, "heading", full);
    }
  }
}
