// parsePatchHunk (internal/kernel/patch_parser.go). The spec functions read from the front of what is
// left; the methods keep an index as the source does.

module PatchHunks {
  import opened Outcomes
  import opened Text
  import opened Decimals
  import opened Hunks

  const CR := '\r'

  // strconv.Atoi on a run of digits.
  function Atoi(s: string): Result<nat>
    requires AllDigits(s)
  {
    if s == "" || NumberOf(s) > MaxInt then Failure(ParseError) else Success(NumberOf(s))
  }

  // ----- hunk headers

  // The optional ",count" of a range: its digits, and what follows.
  function CountField(s: string): (string, string) {
    if s != "" && s[0] == ',' && Digits(s[1..]) != "" then (Digits(s[1..]), s[1 + |Digits(s[1..])|..]) else ("", s)
  }

  datatype HeaderText = HeaderText(oldStart: string, oldCount: string, newStart: string, newCount: string)

  // One range of the header: start, count, and what follows.
  function RangeField(s: string): (r: Option<(string, string, string)>)
    ensures r.Some? ==> AllDigits(r.value.0) && AllDigits(r.value.1)
  {
    var start := Digits(s);
    var (count, rest) := CountField(s[|start|..]);
    if start == "" then None else Some((start, count, rest))
  }

  const Opening := "@@ -"
  const Between := " +"
  const Closing := " @@"

  // hunkHeaderPattern.
  function MatchHeader(line: string): (r: Option<HeaderText>)
    ensures r.Some? ==> AllDigits(r.value.oldStart) && AllDigits(r.value.oldCount) && AllDigits(r.value.newStart) && AllDigits(r.value.newCount)
  {
    if !(Opening <= line) then None
    else
      match RangeField(line[|Opening|..])
      case None => None
      case Some((oldStart, oldCount, rest)) =>
        if !(Between <= rest) then None
        else
          match RangeField(rest[|Between|..])
          case None => None
          case Some((newStart, newCount, end)) =>
            if !(Closing <= end) || (|end| > |Closing| && end[|Closing|] != ' ') then None
            else Some(HeaderText(oldStart, oldCount, newStart, newCount))
  }

  // parseCount: a missing count is 1.
  function ParseRange(start: string, count: string): Result<(nat, nat)>
    requires AllDigits(start) && AllDigits(count)
  {
    if Atoi(start).Failure? then Failure(ParseError)
    else if count == "" then Success((Atoi(start).value, 1))
    else if Atoi(count).Failure? then Failure(ParseError)
    else Success((Atoi(start).value, Atoi(count).value))
  }

  // The hunk a header line announces, still without lines.
  function HeaderOf(line: string): (r: Result<Hunk>)
    ensures r.Failure? ==> r.code == ParseError
  {
    match MatchHeader(line)
    case None => Failure(ParseError)
    case Some(m) =>
      match ParseRange(m.oldStart, m.oldCount)
      case Failure(_) => Failure(ParseError)
      case Success(o) =>
        match ParseRange(m.newStart, m.newCount)
        case Failure(_) => Failure(ParseError)
        case Success(n) => Success(Hunk(o.0, o.1, n.0, n.1, []))
  }

  function PrintRange(start: nat, count: nat): string {
    Decimal(start) + ("," + Decimal(count))
  }

  function PrintHeader(h: Hunk): string {
    Opening + (PrintRange(h.oldStart, h.oldCount) + (Between + (PrintRange(h.newStart, h.newCount) + Closing)))
  }

  lemma CountFieldOf(count: string, rest: string)
    requires count != "" && AllDigits(count) && rest != "" && !IsDigit(rest[0])
    ensures CountField("," + count + rest) == (count, rest)
  {
    var s := "," + count + rest;
    assert s[1..] == count + rest;
    DigitsOf(count, rest);
    assert s[1 + |count|..] == rest;
  }

  lemma RangeFieldOf(start: string, count: string, rest: string)
    requires start != "" && AllDigits(start) && count != "" && AllDigits(count) && rest != "" && !IsDigit(rest[0])
    ensures RangeField(start + ("," + count) + rest) == Some((start, count, rest))
  {
    Associate(start, "," + count, rest);
    DigitsOf(start, "," + count + rest);
    CountFieldOf(count, rest);
  }

  lemma RangePrinted(start: nat, count: nat, rest: string)
    requires rest != "" && !IsDigit(rest[0])
    ensures RangeField(PrintRange(start, count) + rest) == Some((Decimal(start), Decimal(count), rest))
  {
    RangeFieldOf(Decimal(start), Decimal(count), rest);
  }

  lemma MatchPrinted(h: Hunk)
    ensures MatchHeader(PrintHeader(h))
         == Some(HeaderText(Decimal(h.oldStart), Decimal(h.oldCount), Decimal(h.newStart), Decimal(h.newCount)))
  {
    var second := PrintRange(h.newStart, h.newCount) + Closing;
    var first := PrintRange(h.oldStart, h.oldCount) + (Between + second);
    DropPrefix(Opening, first);
    RangePrinted(h.oldStart, h.oldCount, Between + second);
    DropPrefix(Between, second);
    RangePrinted(h.newStart, h.newCount, Closing);
  }

  lemma RangeParsed(start: nat, count: nat)
    requires start <= MaxInt && count <= MaxInt
    ensures ParseRange(Decimal(start), Decimal(count)) == Success((start, count))
  {
    NumberOfDecimal(start);
    NumberOfDecimal(count);
  }

  lemma HeaderPrinted(h: Hunk)
    requires h.oldStart <= MaxInt && h.oldCount <= MaxInt && h.newStart <= MaxInt && h.newCount <= MaxInt
    ensures HeaderOf(PrintHeader(h)) == Success(h.(lines := []))
  {
    MatchPrinted(h);
    RangeParsed(h.oldStart, h.oldCount);
    RangeParsed(h.newStart, h.newCount);
  }

  // ----- hunks

  const EntryMark := "diff --git "
  const HunkMark := "@@ "

  predicate Boundary(line: string) {
    EntryMark <= line || HunkMark <= line
  }

  predicate BodyLine(line: string) {
    line != "" && line[0] in {' ', '-', '+'}
  }

  function OldSeen(h: Hunk): nat {
    |OldSide(h.lines)|
  }

  function NewSeen(h: Hunk): nat {
    |NewSide(h.lines)|
  }

  predicate Full(h: Hunk) {
    OldSeen(h) == h.oldCount && NewSeen(h) == h.newCount
  }

  function HunkBody(rest: seq<string>, h: Hunk, oldSeen: nat, newSeen: nat): (r: Result<(Hunk, seq<string>)>)
    ensures r.Success? ==> |r.value.1| <= |rest|
  {
    if rest == [] || Boundary(rest[0]) then
      if oldSeen == h.oldCount && newSeen == h.newCount then Success((h, rest)) else Failure(ParseError)
    else if rest[0] != "" && rest[0][0] == '\\' then Failure(UnsupportedOperation)
    else if !BodyLine(rest[0]) then Failure(ParseError)
    else
      var g := h.(lines := h.lines + [rest[0]]);
      var m := oldSeen + if OnOldSide(rest[0]) then 1 else 0;
      var n := newSeen + if OnNewSide(rest[0]) then 1 else 0;
      if m == h.oldCount && n == h.newCount then Success((g, rest[1..]))
      else if m > h.oldCount || n > h.newCount then Failure(ParseError)
      else HunkBody(rest[1..], g, m, n)
  }

  function HunkFrom(rest: seq<string>): (r: Result<(Hunk, seq<string>)>)
    requires rest != []
    ensures r.Success? ==> |r.value.1| < |rest|
  {
    match HeaderOf(rest[0])
    case Failure(_) => Failure(ParseError)
    case Success(h) => HunkBody(rest[1..], h, 0, 0)
  }

  method CountLine(line: string, oldSeen: nat, newSeen: nat) returns (r: Result<(nat, nat)>)
    ensures r.Success? <==> BodyLine(line)
    ensures r.Failure? ==> r.code == if line != "" && line[0] == '\\' then UnsupportedOperation else ParseError
    ensures r.Success? ==> r.value.0 == oldSeen + (if OnOldSide(line) then 1 else 0) && r.value.1 == newSeen + (if OnNewSide(line) then 1 else 0)
  {
    if line == "" {
      return Failure(ParseError);
    }
    if line[0] == ' ' {
      return Success((oldSeen + 1, newSeen + 1));
    } else if line[0] == '-' {
      return Success((oldSeen + 1, newSeen));
    } else if line[0] == '+' {
      return Success((oldSeen, newSeen + 1));
    } else if line[0] == '\\' {
      return Failure(UnsupportedOperation);
    }
    return Failure(ParseError);
  }

  lemma HunkBodyAt(lines: seq<string>, index: nat, h: Hunk, oldSeen: nat, newSeen: nat)
    requires index < |lines| && !Boundary(lines[index])
    ensures !BodyLine(lines[index]) ==>
              HunkBody(lines[index..], h, oldSeen, newSeen)
              == Failure(if lines[index] != "" && lines[index][0] == '\\' then UnsupportedOperation else ParseError)
    ensures BodyLine(lines[index]) ==>
              var g := h.(lines := h.lines + [lines[index]]);
              var m := oldSeen + if OnOldSide(lines[index]) then 1 else 0;
              var n := newSeen + if OnNewSide(lines[index]) then 1 else 0;
              HunkBody(lines[index..], h, oldSeen, newSeen)
              == if m == h.oldCount && n == h.newCount then Success((g, lines[index + 1..]))
                 else if m > h.oldCount || n > h.newCount then Failure(ParseError)
                 else HunkBody(lines[index + 1..], g, m, n)
  {
    assert lines[index..][1..] == lines[index + 1..];
  }

  // The loop of parsePatchHunk.
  method ReadHunkBody(lines: seq<string>, start: nat, header: Hunk) returns (r: Result<(Hunk, nat)>)
    requires start <= |lines|
    ensures r.Success? ==> start <= r.value.1 <= |lines| && HunkBody(lines[start..], header, 0, 0) == Success((r.value.0, lines[r.value.1..]))
    ensures r.Failure? ==> HunkBody(lines[start..], header, 0, 0) == Failure(r.code)
  {
    var hunk := header;
    var oldSeen: nat, newSeen: nat := 0, 0;
    var index := start;
    while index < |lines| && !Boundary(lines[index])
      invariant start <= index <= |lines| && hunk.oldCount == header.oldCount && hunk.newCount == header.newCount
      invariant HunkBody(lines[start..], header, 0, 0) == HunkBody(lines[index..], hunk, oldSeen, newSeen)
    {
      HunkBodyAt(lines, index, hunk, oldSeen, newSeen);
      var counted := CountLine(lines[index], oldSeen, newSeen);
      if counted.Failure? {
        return Failure(counted.code);
      }
      oldSeen, newSeen := counted.value.0, counted.value.1;
      hunk := hunk.(lines := hunk.lines + [lines[index]]);
      index := index + 1;
      if oldSeen == hunk.oldCount && newSeen == hunk.newCount {
        return Success((hunk, index));
      }
      if oldSeen > hunk.oldCount || newSeen > hunk.newCount {
        return Failure(ParseError);
      }
    }
    if oldSeen != hunk.oldCount || newSeen != hunk.newCount {
      return Failure(ParseError);
    }
    return Success((hunk, index));
  }

  method ParsePatchHunk(lines: seq<string>, start: nat) returns (r: Result<(Hunk, nat)>)
    requires start < |lines|
    ensures r.Success? ==> start < r.value.1 <= |lines| && HunkFrom(lines[start..]) == Success((r.value.0, lines[r.value.1..]))
    ensures r.Failure? ==> HunkFrom(lines[start..]) == Failure(r.code)
  {
    var header := HeaderOf(lines[start]);
    if header.Failure? {
      return Failure(ParseError);
    }
    assert lines[start..][1..] == lines[start + 1..];
    r := ReadHunkBody(lines, start + 1, header.value);
  }

  function HunksFrom(rest: seq<string>): (r: Result<(seq<Hunk>, seq<string>)>)
    ensures r.Success? ==> |r.value.1| <= |rest|
    decreases |rest|
  {
    if rest == [] || !(HunkMark <= rest[0]) then Success(([], rest))
    else
      match HunkFrom(rest)
      case Failure(code) => Failure(code)
      case Success(one) =>
        match HunksFrom(one.1)
        case Failure(code) => Failure(code)
        case Success(more) => Success(([one.0] + more.0, more.1))
  }

  // ----- what a parsed hunk is

  predicate CleanLine(line: string) {
    LF !in line && CR !in line
  }

  ghost predicate Clean(lines: seq<string>) {
    forall i {:trigger lines[i]} :: 0 <= i < |lines| ==> CleanLine(lines[i])
  }

  ghost predicate WellFormedHunk(h: Hunk) {
    && h.oldStart <= MaxInt && h.oldCount <= MaxInt && h.newStart <= MaxInt && h.newCount <= MaxInt
    && Clean(h.lines) && (forall i {:trigger h.lines[i]} :: 0 <= i < |h.lines| ==> BodyLine(h.lines[i]))
    && Full(h)
  }

  ghost predicate WellFormedHunks(hunks: seq<Hunk>) {
    forall i {:trigger hunks[i]} :: 0 <= i < |hunks| ==> WellFormedHunk(hunks[i])
  }

  lemma {:induction false} HunkBodyWellFormed(rest: seq<string>, h: Hunk)
    requires HunkBody(rest, h, OldSeen(h), NewSeen(h)).Success? && Clean(rest)
    requires WellFormedHunk(h.(oldCount := OldSeen(h), newCount := NewSeen(h))) && h.oldCount <= MaxInt && h.newCount <= MaxInt
    ensures var r := HunkBody(rest, h, OldSeen(h), NewSeen(h)).value; WellFormedHunk(r.0) && Clean(r.1)
  {
    if rest != [] && !Boundary(rest[0]) {
      var g := h.(lines := h.lines + [rest[0]]);
      SidesMore(h.lines, rest[0]);
      assert CleanLine(rest[0]);
      if !Full(g) {
        HunkBodyWellFormed(rest[1..], g);
      }
    }
  }

  lemma HunkFromWellFormed(rest: seq<string>)
    requires rest != [] && HunkFrom(rest).Success? && Clean(rest)
    ensures WellFormedHunk(HunkFrom(rest).value.0) && Clean(HunkFrom(rest).value.1)
  {
    HunkBodyWellFormed(rest[1..], HeaderOf(rest[0]).value);
  }

  lemma {:induction false} HunksFromWellFormed(rest: seq<string>)
    requires HunksFrom(rest).Success? && Clean(rest)
    ensures WellFormedHunks(HunksFrom(rest).value.0) && Clean(HunksFrom(rest).value.1)
    decreases |rest|
  {
    if rest != [] && HunkMark <= rest[0] {
      HunkFromWellFormed(rest);
      HunksFromWellFormed(HunkFrom(rest).value.1);
    }
  }

  // ----- printing hunks

  function PrintHunk(h: Hunk): seq<string> {
    [PrintHeader(h)] + h.lines
  }

  function PrintHunks(hunks: seq<Hunk>): seq<string> {
    if hunks == [] then [] else PrintHunk(hunks[0]) + PrintHunks(hunks[1..])
  }

  lemma {:induction false} SidesConcat(a: seq<string>, b: seq<string>)
    ensures OldSide(a + b) == OldSide(a) + OldSide(b) && NewSide(a + b) == NewSide(a) + NewSide(b)
  {
    if b == [] {
      assert a + b == a;
    } else {
      var c, last := b[..|b| - 1], b[|b| - 1];
      assert b == c + [last] && a + b == a + c + [last];
      SidesConcat(a, c);
      SidesMore(c, last);
      SidesMore(a + c, last);
    }
  }

  // As long as lines of a well-formed hunk are missing, its counts are not reached nor exceeded.
  lemma CountsOnTheWay(h: Hunk, done: seq<string>, todo: seq<string>)
    requires WellFormedHunk(h) && h.lines == done + todo
    ensures |OldSide(done)| <= h.oldCount && |NewSide(done)| <= h.newCount
    ensures todo != [] ==> !(|OldSide(done)| == h.oldCount && |NewSide(done)| == h.newCount)
    ensures todo == [] ==> |OldSide(done)| == h.oldCount && |NewSide(done)| == h.newCount
  {
    SidesConcat(done, todo);
    if todo != [] {
      assert todo[0] == h.lines[|done|] && BodyLine(todo[0]);
      assert OldSide(todo) != [] || NewSide(todo) != [];
    } else {
      assert done + [] == done;
    }
  }

  lemma HunkBodyNext(line: string, rest: seq<string>, h: Hunk, oldSeen: nat, newSeen: nat)
    requires BodyLine(line) && !Boundary(line)
    ensures var g := h.(lines := h.lines + [line]);
            var m := oldSeen + if OnOldSide(line) then 1 else 0;
            var n := newSeen + if OnNewSide(line) then 1 else 0;
            m <= h.oldCount && n <= h.newCount ==>
              HunkBody([line] + rest, h, oldSeen, newSeen)
              == if m == h.oldCount && n == h.newCount then Success((g, rest)) else HunkBody(rest, g, m, n)
  {
    DropConcat([line], rest);
  }

  // Reading on through the printed lines of a hunk; done are those already read.
  lemma {:induction false} HunkBodyPrinted(h: Hunk, done: seq<string>, todo: seq<string>, rest: seq<string>)
    requires WellFormedHunk(h) && h.lines == done + todo && todo != []
    ensures HunkBody(todo + rest, h.(lines := done), |OldSide(done)|, |NewSide(done)|) == Success((h, rest))
    decreases |todo|
  {
    var so, more := done + [todo[0]], todo[1..];
    assert h.lines == so + more;
    assert todo[0] == h.lines[|done|] && BodyLine(todo[0]);
    SidesMore(done, todo[0]);
    CountsOnTheWay(h, so, more);
    DropConcat(todo, rest);
    assert todo + rest == [todo[0]] + (more + rest);
    HunkBodyNext(todo[0], more + rest, h.(lines := done), |OldSide(done)|, |NewSide(done)|);
    if more == [] {
      assert so + [] == so && [] + rest == rest;
    } else {
      HunkBodyPrinted(h, so, more, rest);
    }
  }

  lemma HunkPrinted(h: Hunk, rest: seq<string>)
    requires WellFormedHunk(h) && (rest == [] || Boundary(rest[0]))
    ensures HunkFrom(PrintHunk(h) + rest) == Success((h, rest))
  {
    HeaderPrinted(h);
    DropConcat(PrintHunk(h), rest);
    assert PrintHunk(h)[1..] == h.lines;
    if h.lines == [] {
      assert h.lines + rest == rest;
    } else {
      HunkBodyPrinted(h, [], h.lines, rest);
    }
  }

  lemma NoHunks(rest: seq<string>)
    requires rest == [] || EntryMark <= rest[0]
    ensures HunksFrom(rest) == Success(([], rest)) && (rest == [] || Boundary(rest[0]))
  {
    assert rest != [] ==> rest[0][0] == EntryMark[0];
  }

  lemma HeaderIsBoundary(h: Hunk, more: seq<string>)
    ensures PrintHunk(h) + more != [] && (PrintHunk(h) + more)[0] == PrintHeader(h)
    ensures HunkMark <= PrintHeader(h) && Boundary(PrintHeader(h))
  {
    DropPrefix(Opening, PrintHeader(h)[|Opening|..]);
  }

  // Reading lines gives these hunks and stops at rest.
  ghost predicate ReadAs(lines: seq<string>, hunks: seq<Hunk>, rest: seq<string>) {
    HunksFrom(lines) == Success((hunks, rest)) && (lines == [] || Boundary(lines[0]))
  }

  lemma HunkThenHunks(h: Hunk, more: seq<string>, hunks: seq<Hunk>, rest: seq<string>)
    requires WellFormedHunk(h) && ReadAs(more, hunks, rest)
    ensures ReadAs(PrintHunk(h) + more, [h] + hunks, rest)
  {
    HunkPrinted(h, more);
    HeaderIsBoundary(h, more);
  }

  lemma PrintHunksFirst(hunks: seq<Hunk>, rest: seq<string>)
    requires hunks != []
    ensures PrintHunks(hunks) + rest == PrintHunk(hunks[0]) + (PrintHunks(hunks[1..]) + rest)
  {
    Associate(PrintHunk(hunks[0]), PrintHunks(hunks[1..]), rest);
  }

  lemma {:induction false} HunksPrinted(hunks: seq<Hunk>, rest: seq<string>)
    requires WellFormedHunks(hunks) && (rest == [] || EntryMark <= rest[0])
    ensures ReadAs(PrintHunks(hunks) + rest, hunks, rest)
  {
    if hunks == [] {
      assert PrintHunks(hunks) + rest == rest;
      NoHunks(rest);
    } else {
      var h, tail := hunks[0], hunks[1..];
      assert hunks == [h] + tail;
      HunksPrinted(tail, rest);
      PrintHunksFirst(hunks, rest);
      HunkThenHunks(h, PrintHunks(tail) + rest, tail, rest);
    }
  }
}
