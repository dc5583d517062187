// The patches Git itself writes (internal/kernel/patch_parser.go): with mode lines, index and similarity
// lines, short hunk ranges and hunk contexts. The texts are spelled out here, not taken from the parser.

module GitForms {
  import opened Outcomes
  import opened Text
  import opened Decimals
  import opened Hunks
  import opened PatchHunks
  import opened PatchPaths
  import opened GitPatch

  // ----- how Git may write an entry

  // A header line besides the names: the mode of a new or deleted file, blob hashes, how similar the sides are.
  datatype Note = ModeLine | IndexLine(text: string) | SimilarityLine(text: string) | DissimilarityLine(text: string)

  // A count of one may be left out, and the header may end with a line of context.
  datatype HunkStyle = HunkStyle(shortOld: bool, shortNew: bool, context: Option<string>)

  // Notes before and after the rename lines, and a style for each hunk.
  datatype Style = Style(before: seq<Note>, after: seq<Note>, hunks: seq<HunkStyle>)

  function NoteText(e: Entry, note: Note): string {
    match note
    case ModeLine => if e.operation == Add then "new file mode 100644" else "deleted file mode 100644"
    case IndexLine(text) => "index " + text
    case SimilarityLine(text) => "similarity index " + text
    case DissimilarityLine(text) => "dissimilarity index " + text
  }

  predicate NoteFits(e: Entry, note: Note) {
    match note
    case ModeLine => e.operation == Add || e.operation == Delete
    case IndexLine(text) => CleanLine(text)
    case SimilarityLine(text) => CleanLine(text)
    case DissimilarityLine(text) => CleanLine(text)
  }

  function NoteTexts(e: Entry, notes: seq<Note>): seq<string> {
    if notes == [] then [] else [NoteText(e, notes[0])] + NoteTexts(e, notes[1..])
  }

  function RangeText(start: nat, count: nat, short: bool): string {
    if short && count == 1 then Decimal(start) else Decimal(start) + ("," + Decimal(count))
  }

  function ContextText(context: Option<string>): string {
    match context
    case None => ""
    case Some(text) => " " + text
  }

  function HeaderLine(h: Hunk, style: HunkStyle): string {
    "@@ -" + (RangeText(h.oldStart, h.oldCount, style.shortOld)
              + (" +" + (RangeText(h.newStart, h.newCount, style.shortNew) + (" @@" + ContextText(style.context)))))
  }

  function HunkTexts(hunks: seq<Hunk>, styles: seq<HunkStyle>): seq<string>
    requires |styles| == |hunks|
  {
    if hunks == [] then [] else [HeaderLine(hunks[0], styles[0])] + hunks[0].lines + HunkTexts(hunks[1..], styles[1..])
  }

  function NameLines(e: Entry, quote: string -> string): seq<string> {
    (if e.renameFrom == "" then [] else ["rename from " + Spell(e.renameFrom, quote)])
    + (if e.renameTo == "" then [] else ["rename to " + Spell(e.renameTo, quote)])
  }

  function FileLines(e: Entry, styles: seq<HunkStyle>, quote: string -> string): seq<string>
    requires |styles| == |e.hunks|
  {
    if e.operation == Rename && e.hunks == [] then []
    else
      ["--- " + Spell(if e.operation == Add then "/dev/null" else "a/" + e.oldTarget, quote),
       "+++ " + Spell(if e.operation == Delete then "/dev/null" else "b/" + e.newTarget, quote)] + HunkTexts(e.hunks, styles)
  }

  function EntryTexts(e: Entry, style: Style, quote: string -> string): seq<string>
    requires |style.hunks| == |e.hunks|
  {
    ["diff --git " + (Spell("a/" + e.oldTarget, quote) + (" " + Spell("b/" + e.newTarget, quote)))]
    + (NoteTexts(e, style.before) + (NameLines(e, quote) + (NoteTexts(e, style.after) + FileLines(e, style.hunks, quote))))
  }

  predicate StyleFits(e: Entry, style: Style) {
    && |style.hunks| == |e.hunks|
    && (forall k :: 0 <= k < |style.before| ==> NoteFits(e, style.before[k]))
    && (forall k :: 0 <= k < |style.after| ==> NoteFits(e, style.after[k]))
    && forall k :: 0 <= k < |style.hunks| && style.hunks[k].context.Some? ==> CleanLine(style.hunks[k].context.value)
  }

  predicate StylesFit(entries: seq<Entry>, styles: seq<Style>) {
    |styles| == |entries| && forall i :: 0 <= i < |entries| ==> StyleFits(entries[i], styles[i])
  }

  function PatchTexts(entries: seq<Entry>, styles: seq<Style>, quote: string -> string): seq<string>
    requires StylesFit(entries, styles)
  {
    if entries == [] then [] else EntryTexts(entries[0], styles[0], quote) + PatchTexts(entries[1..], styles[1..], quote)
  }

  // ----- hunk headers are read back

  lemma ShortRange(start: string, rest: string)
    requires start != "" && AllDigits(start) && rest != "" && rest[0] == ' '
    ensures RangeField(start + rest) == Some((start, "", rest))
  {
    DigitsOf(start, rest);
    assert (start + rest)[|start|..] == rest;
  }

  // A range as written: its start, its count if that is there, and what follows.
  lemma RangeRead(start: nat, count: nat, short: bool, rest: string)
    requires rest != "" && rest[0] == ' '
    ensures RangeField(RangeText(start, count, short) + rest) ==
            Some((Decimal(start), if short && count == 1 then "" else Decimal(count), rest))
  {
    if short && count == 1 {
      ShortRange(Decimal(start), rest);
    } else {
      RangeFieldOf(Decimal(start), Decimal(count), rest);
    }
  }

  lemma MatchStyled(h: Hunk, style: HunkStyle)
    ensures MatchHeader(HeaderLine(h, style)) ==
            Some(HeaderText(Decimal(h.oldStart), if style.shortOld && h.oldCount == 1 then "" else Decimal(h.oldCount),
                            Decimal(h.newStart), if style.shortNew && h.newCount == 1 then "" else Decimal(h.newCount)))
  {
    var end := " @@" + ContextText(style.context);
    var second := RangeText(h.newStart, h.newCount, style.shortNew) + end;
    var first := RangeText(h.oldStart, h.oldCount, style.shortOld) + (" +" + second);
    assert Opening == "@@ -" && Between == " +" && Closing == " @@";
    DropPrefix("@@ -", first);
    RangeRead(h.oldStart, h.oldCount, style.shortOld, " +" + second);
    DropPrefix(" +", second);
    RangeRead(h.newStart, h.newCount, style.shortNew, end);
    EndsHeader(style.context);
  }

  lemma EndsHeader(context: Option<string>)
    ensures var end := " @@" + ContextText(context); " @@" <= end && (|end| > 3 ==> end[3] == ' ')
  {
  }

  lemma RangeNumbers(start: nat, count: nat, short: bool)
    requires start <= MaxInt && count <= MaxInt
    ensures ParseRange(Decimal(start), if short && count == 1 then "" else Decimal(count)) == Success((start, count))
  {
    NumberOfDecimal(start);
    NumberOfDecimal(count);
  }

  lemma HeaderRead(h: Hunk, style: HunkStyle)
    requires h.oldStart <= MaxInt && h.oldCount <= MaxInt && h.newStart <= MaxInt && h.newCount <= MaxInt
    ensures HeaderOf(HeaderLine(h, style)) == Success(h.(lines := []))
  {
    MatchStyled(h, style);
    RangeNumbers(h.oldStart, h.oldCount, style.shortOld);
    RangeNumbers(h.newStart, h.newCount, style.shortNew);
  }

  lemma HunkAfterHeader(header: string, h: Hunk, rest: seq<string>)
    requires HeaderOf(header) == Success(h.(lines := [])) && WellFormedHunk(h) && (rest == [] || Boundary(rest[0]))
    ensures HunkFrom([header] + (h.lines + rest)) == Success((h, rest))
  {
    DropConcat([header], h.lines + rest);
    if h.lines == [] {
      assert h.lines + rest == rest;
    } else {
      HunkBodyPrinted(h, [], h.lines, rest);
    }
  }

  lemma HunkRead(h: Hunk, style: HunkStyle, rest: seq<string>)
    requires WellFormedHunk(h) && (rest == [] || Boundary(rest[0]))
    ensures HunkFrom([HeaderLine(h, style)] + h.lines + rest) == Success((h, rest))
  {
    HeaderRead(h, style);
    HunkAfterHeader(HeaderLine(h, style), h, rest);
    Associate([HeaderLine(h, style)], h.lines, rest);
  }

  lemma HeaderIsMarked(h: Hunk, style: HunkStyle)
    ensures HunkMark <= HeaderLine(h, style) && Boundary(HeaderLine(h, style))
  {
    assert HunkMark == "@@ ";
    assert HeaderLine(h, style)[..3] == "@@ ";
  }

  lemma OneMoreHunk(h: Hunk, style: HunkStyle, more: seq<string>, hunks: seq<Hunk>, rest: seq<string>)
    requires WellFormedHunk(h) && ReadAs(more, hunks, rest)
    ensures ReadAs([HeaderLine(h, style)] + h.lines + more, [h] + hunks, rest)
  {
    HunkRead(h, style, more);
    HeaderIsMarked(h, style);
    assert ([HeaderLine(h, style)] + h.lines + more)[0] == HeaderLine(h, style);
  }

  lemma {:induction false} HunksRead(hunks: seq<Hunk>, styles: seq<HunkStyle>, rest: seq<string>)
    requires WellFormedHunks(hunks) && |styles| == |hunks| && (rest == [] || EntryMark <= rest[0])
    ensures ReadAs(HunkTexts(hunks, styles) + rest, hunks, rest)
  {
    if hunks == [] {
      assert HunkTexts(hunks, styles) + rest == rest;
      NoHunks(rest);
    } else {
      var h, tail := hunks[0], hunks[1..];
      assert hunks == [h] + tail;
      HunksRead(tail, styles[1..], rest);
      HunkTextsFirst(hunks, styles, rest);
      OneMoreHunk(h, styles[0], HunkTexts(tail, styles[1..]) + rest, tail, rest);
    }
  }

  lemma HunkTextsFirst(hunks: seq<Hunk>, styles: seq<HunkStyle>, rest: seq<string>)
    requires |styles| == |hunks| && hunks != []
    ensures HunkTexts(hunks, styles) + rest == [HeaderLine(hunks[0], styles[0])] + hunks[0].lines + (HunkTexts(hunks[1..], styles[1..]) + rest)
  {
    Associate([HeaderLine(hunks[0], styles[0])] + hunks[0].lines, HunkTexts(hunks[1..], styles[1..]), rest);
  }

  // ----- header lines are read back

  // What is known of the draft before its file section.
  predicate Noted(e: Entry, d: Draft) {
    && d.entry.oldTarget == e.oldTarget && d.entry.newTarget == e.newTarget && d.entry.hunks == []
    && (d.newFile ==> e.operation == Add) && (d.deletedFile ==> e.operation == Delete)
    && !d.fileHeaders && !d.oldDevNull && !d.newDevNull
  }

  lemma NoteAlone(e: Entry, note: Note)
    requires NoteFits(e, note)
    ensures !(EntryMark <= NoteText(e, note)) && !(OldFileMark <= NoteText(e, note)) && NoteText(e, note) != ""
  {
    var line := NoteText(e, note);
    assert EntryMark == "diff --git " && OldFileMark == "--- ";
    match note
    case ModeLine => assert line[1] == 'e';
    case IndexLine(text) => assert line[0] == 'i';
    case SimilarityLine(text) => assert line[0] == 's';
    case DissimilarityLine(text) => assert line[2] == 's';
  }

  // The mode line of a new file makes it new, that of a deleted one deleted; the others change nothing.
  lemma NoteRead(e: Entry, note: Note, d: Draft, unquote: Unquote)
    requires NoteFits(e, note)
    ensures SimpleLine(NoteText(e, note), d, unquote) ==
            Success(if note == ModeLine then if e.operation == Add then d.(newFile := true) else d.(deletedFile := true) else d)
  {
    var line := NoteText(e, note);
    match note
    case ModeLine => assert line[0] == if e.operation == Add then 'n' else 'd';
    case IndexLine(text) =>
      assert line[0] == 'i';
      assert "index " <= line;
    case SimilarityLine(text) =>
      assert line[0] == 's';
      assert "similarity index " <= line;
    case DissimilarityLine(text) =>
      assert line[1] == 'i';
      assert "dissimilarity index " <= line;
  }

  lemma {:induction false} NotesRead(e: Entry, notes: seq<Note>, more: seq<string>, d: Draft, unquote: Unquote) returns (next: Draft)
    requires Noted(e, d) && forall k :: 0 <= k < |notes| ==> NoteFits(e, notes[k])
    ensures Noted(e, next) && next.entry == d.entry && BodyFrom(NoteTexts(e, notes) + more, d, unquote) == BodyFrom(more, next, unquote)
  {
    if notes == [] {
      next := d;
      assert NoteTexts(e, notes) + more == more;
    } else {
      var line, rest := NoteText(e, notes[0]), NoteTexts(e, notes[1..]) + more;
      NoteAlone(e, notes[0]);
      NoteRead(e, notes[0], d, unquote);
      var read := SimpleLine(line, d, unquote).value;
      next := NotesRead(e, notes[1..], more, read, unquote);
      Associate([line], NoteTexts(e, notes[1..]), more);
      LineRead(line, rest, d, read, unquote);
    }
  }

  lemma LineRead(line: string, more: seq<string>, d: Draft, next: Draft, unquote: Unquote)
    requires !(EntryMark <= line) && !(OldFileMark <= line) && SimpleLine(line, d, unquote) == Success(next)
    ensures BodyFrom([line] + more, d, unquote) == BodyFrom(more, next, unquote)
  {
    DropConcat([line], more);
  }

  lemma NamesRead(e: Entry, more: seq<string>, d: Draft, quote: string -> string, unquote: Unquote)
    requires Quoting(quote, unquote) && d.entry.renameFrom == "" && d.entry.renameTo == ""
    ensures BodyFrom(NameLines(e, quote) + more, d, unquote) ==
            BodyFrom(more, d.(entry := d.entry.(renameFrom := e.renameFrom, renameTo := e.renameTo)), unquote)
  {
    assert RenameFromMark == "rename from " && RenameToMark == "rename to ";
    var to: seq<string> := if e.renameTo == "" then [] else ["rename to " + Spell(e.renameTo, quote)];
    var one := d.(entry := d.entry.(renameFrom := e.renameFrom));
    if e.renameFrom == "" {
      assert NameLines(e, quote) + more == to + more && one == d;
    } else {
      Associate(["rename from " + Spell(e.renameFrom, quote)], to, more);
      RenameFromRead(e.renameFrom, to + more, d, quote, unquote);
    }
    if e.renameTo == "" {
      assert to + more == more;
    } else {
      RenameToRead(e.renameTo, more, one, quote, unquote);
    }
  }

  lemma FileRead(e: Entry, styles: seq<HunkStyle>, rest: seq<string>, d: Draft, quote: string -> string, unquote: Unquote)
    requires Quoting(quote, unquote) && WellFormedEntry(e) && |styles| == |e.hunks| && Noted(e, d)
    requires !(e.operation == Rename && e.hunks == []) && (rest == [] || EntryMark <= rest[0])
    ensures BodyFrom(FileLines(e, styles, quote) + rest, d, unquote) == Success((Headed(e, d), rest))
  {
    assert OldFileMark == "--- " && NewFileMark == "+++ " && NoFile == "/dev/null";
    var a, b := OldFileMark + Spell(OldHeader(e), quote), NewFileMark + Spell(NewHeader(e), quote);
    var more := HunkTexts(e.hunks, styles) + rest;
    assert FileLines(e, styles, quote) == [a, b] + HunkTexts(e.hunks, styles);
    Associate([a, b], HunkTexts(e.hunks, styles), rest);
    DropPrefix(OldFileMark, Spell(OldHeader(e), quote));
    HeadersRead(e, d, quote, unquote);
    HunksRead(e.hunks, styles, rest);
    assert [] + e.hunks == e.hunks;
    SectionParsed(a, b, more, d, Headed(e, d).(entry := d.entry), e.hunks, rest, unquote);
    assert ([a, b] + more)[0] == a;
    SectionInBody([a, b] + more, d, Headed(e, d), rest, unquote);
  }

  // All lines after the first.
  lemma HeaderLinesRead(e: Entry, style: Style, section: seq<string>, quote: string -> string, unquote: Unquote) returns (d: Draft)
    requires Quoting(quote, unquote) && StyleFits(e, style)
    ensures Noted(e, d) && d.entry == Empty(e).entry.(renameFrom := e.renameFrom, renameTo := e.renameTo)
    ensures BodyFrom(NoteTexts(e, style.before) + (NameLines(e, quote) + (NoteTexts(e, style.after) + section)), Empty(e), unquote)
         == BodyFrom(section, d, unquote)
  {
    var one := NotesRead(e, style.before, NameLines(e, quote) + (NoteTexts(e, style.after) + section), Empty(e), unquote);
    NamesRead(e, NoteTexts(e, style.after) + section, one, quote, unquote);
    var two := one.(entry := one.entry.(renameFrom := e.renameFrom, renameTo := e.renameTo));
    d := NotesRead(e, style.after, section, two, unquote);
  }

  lemma EntryParts(e: Entry, style: Style, rest: seq<string>, quote: string -> string)
    requires StyleFits(e, style)
    ensures var section := FileLines(e, style.hunks, quote) + rest;
            EntryTexts(e, style, quote) + rest ==
            [FirstLine(e, quote)] + (NoteTexts(e, style.before) + (NameLines(e, quote) + (NoteTexts(e, style.after) + section)))
  {
    assert EntryMark == "diff --git ";
    var file := FileLines(e, style.hunks, quote);
    var after := NoteTexts(e, style.after);
    var names := NameLines(e, quote);
    var before := NoteTexts(e, style.before);
    Associate([FirstLine(e, quote)], before + (names + (after + file)), rest);
    Associate(before, names + (after + file), rest);
    Associate(names, after + file, rest);
    Associate(after, file, rest);
  }

  lemma EntryRead(e: Entry, style: Style, rest: seq<string>, quote: string -> string, unquote: Unquote)
    requires Quoting(quote, unquote) && WellFormedEntry(e) && StyleFits(e, style) && (rest == [] || EntryMark <= rest[0])
    ensures EntryFrom(EntryTexts(e, style, quote) + rest, unquote) == Success((e, rest))
    ensures EntryTexts(e, style, quote) != [] && EntryMark <= EntryTexts(e, style, quote)[0]
  {
    var section := FileLines(e, style.hunks, quote) + rest;
    var body := NoteTexts(e, style.before) + (NameLines(e, quote) + (NoteTexts(e, style.after) + section));
    EntryParts(e, style, rest, quote);
    DropConcat([FirstLine(e, quote)], body);
    StartPrinted(e, quote, unquote);
    var d := HeaderLinesRead(e, style, section, quote, unquote);
    DropPrefix(EntryMark, FirstLine(e, quote)[|EntryMark|..]);
    if e.operation == Rename && e.hunks == [] {
      assert section == rest;
      BodyEnds(rest, d, unquote);
    } else {
      FileRead(e, style.hunks, rest, d, quote, unquote);
    }
    EntryFinishes(e, d);
  }

  lemma EntryFinishes(e: Entry, d: Draft)
    requires WellFormedEntry(e) && Noted(e, d) && d.entry == Empty(e).entry.(renameFrom := e.renameFrom, renameTo := e.renameTo)
    ensures Finish(if e.operation == Rename && e.hunks == [] then d else Headed(e, d)) == Success(e)
  {
  }

  lemma {:induction false} EntriesRead(entries: seq<Entry>, styles: seq<Style>, quote: string -> string, unquote: Unquote)
    requires Quoting(quote, unquote) && StylesFit(entries, styles) && forall i {:trigger entries[i]} :: 0 <= i < |entries| ==> WellFormedEntry(entries[i])
    ensures EntriesFrom(PatchTexts(entries, styles, quote), unquote) == Success(entries)
    ensures PatchTexts(entries, styles, quote) == [] || EntryMark <= PatchTexts(entries, styles, quote)[0]
  {
    if entries != [] {
      EntriesRead(entries[1..], styles[1..], quote, unquote);
      EntryRead(entries[0], styles[0], PatchTexts(entries[1..], styles[1..], quote), quote, unquote);
      assert entries == [entries[0]] + entries[1..];
    }
  }

  // ----- text

  lemma NoteClean(e: Entry, note: Note)
    requires NoteFits(e, note)
    ensures CleanLine(NoteText(e, note))
  {
    match note
    case ModeLine =>
    case IndexLine(text) => CleanMark("index ", text);
    case SimilarityLine(text) => CleanMark("similarity index ", text);
    case DissimilarityLine(text) => CleanMark("dissimilarity index ", text);
  }

  lemma {:induction false} NotesClean(e: Entry, notes: seq<Note>)
    requires forall k :: 0 <= k < |notes| ==> NoteFits(e, notes[k])
    ensures Clean(NoteTexts(e, notes))
  {
    if notes != [] {
      NoteClean(e, notes[0]);
      NotesClean(e, notes[1..]);
    }
  }

  lemma RangeClean(start: nat, count: nat, short: bool)
    ensures CleanLine(RangeText(start, count, short))
  {
    DecimalClean(start);
    DecimalClean(count);
  }

  lemma HeaderLineClean(h: Hunk, style: HunkStyle)
    requires style.context.Some? ==> CleanLine(style.context.value)
    ensures CleanLine(HeaderLine(h, style))
  {
    RangeClean(h.oldStart, h.oldCount, style.shortOld);
    RangeClean(h.newStart, h.newCount, style.shortNew);
  }

  lemma {:induction false} HunkTextsClean(hunks: seq<Hunk>, styles: seq<HunkStyle>)
    requires WellFormedHunks(hunks) && |styles| == |hunks|
    requires forall k :: 0 <= k < |styles| && styles[k].context.Some? ==> CleanLine(styles[k].context.value)
    ensures Clean(HunkTexts(hunks, styles))
  {
    if hunks != [] {
      HunkTextsClean(hunks[1..], styles[1..]);
      HeaderLineClean(hunks[0], styles[0]);
      assert WellFormedHunk(hunks[0]);
    }
  }

  lemma CleanConcat(a: seq<string>, b: seq<string>)
    requires Clean(a) && Clean(b)
    ensures Clean(a + b)
  {
  }

  lemma NamesClean(e: Entry, quote: string -> string)
    requires CleanLine(Spell(e.renameFrom, quote)) && CleanLine(Spell(e.renameTo, quote))
    ensures Clean(NameLines(e, quote))
  {
    CleanMark("rename from ", Spell(e.renameFrom, quote));
    CleanMark("rename to ", Spell(e.renameTo, quote));
  }

  lemma FirstClean(e: Entry, quote: string -> string)
    requires CleanLine(Spell("a/" + e.oldTarget, quote)) && CleanLine(Spell("b/" + e.newTarget, quote))
    ensures CleanLine(FirstLine(e, quote))
  {
    CleanMark(" ", Spell("b/" + e.newTarget, quote));
    CleanMark(Spell("a/" + e.oldTarget, quote), " " + Spell("b/" + e.newTarget, quote));
    CleanMark(EntryMark, Spell("a/" + e.oldTarget, quote) + (" " + Spell("b/" + e.newTarget, quote)));
  }

  lemma EntryTextsClean(e: Entry, style: Style, quote: string -> string, unquote: Unquote)
    requires Quoting(quote, unquote) && WellFormedEntry(e) && StyleFits(e, style)
    ensures Clean(EntryTexts(e, style, quote))
  {
    forall path ensures CleanLine(Spell(path, quote)) {
      SpelledClean(path, quote, unquote);
    }
    NotesClean(e, style.before);
    NotesClean(e, style.after);
    NamesClean(e, quote);
    HunkTextsClean(e.hunks, style.hunks);
    FilesClean(e, style.hunks, quote);
    FirstClean(e, quote);
    var file, after := FileLines(e, style.hunks, quote), NoteTexts(e, style.after);
    CleanConcat(after, file);
    CleanConcat(NameLines(e, quote), after + file);
    CleanConcat(NoteTexts(e, style.before), NameLines(e, quote) + (after + file));
    EntryParts(e, style, [], quote);
    assert EntryTexts(e, style, quote) + [] == EntryTexts(e, style, quote) && file + [] == file;
  }

  lemma FilesClean(e: Entry, styles: seq<HunkStyle>, quote: string -> string)
    requires |styles| == |e.hunks| && Clean(HunkTexts(e.hunks, styles)) && forall path :: CleanLine(Spell(path, quote))
    ensures Clean(FileLines(e, styles, quote))
  {
    CleanMark("--- ", Spell(if e.operation == Add then "/dev/null" else "a/" + e.oldTarget, quote));
    CleanMark("+++ ", Spell(if e.operation == Delete then "/dev/null" else "b/" + e.newTarget, quote));
  }

  lemma {:induction false} PatchTextsClean(entries: seq<Entry>, styles: seq<Style>, quote: string -> string, unquote: Unquote)
    requires Quoting(quote, unquote) && StylesFit(entries, styles) && forall i {:trigger entries[i]} :: 0 <= i < |entries| ==> WellFormedEntry(entries[i])
    ensures Clean(PatchTexts(entries, styles, quote))
  {
    if entries != [] {
      EntryTextsClean(entries[0], styles[0], quote, unquote);
      PatchTextsClean(entries[1..], styles[1..], quote, unquote);
    }
  }

  // Every well-formed entry list is read back from every text Git may write for it.
  lemma GitTextParses(entries: seq<Entry>, styles: seq<Style>, quote: string -> string, unquote: Unquote)
    requires Quoting(quote, unquote) && WellFormedPatch(entries) && StylesFit(entries, styles)
    ensures PatchFrom(Join(PatchTexts(entries, styles, quote), LF) + [LF], unquote) == Success(entries)
  {
    var lines := PatchTexts(entries, styles, quote);
    EntriesRead(entries, styles, quote, unquote);
    EntryRead(entries[0], styles[0], [], quote, unquote);
    PatchTextsClean(entries, styles, quote, unquote);
    PrintedLines(lines);
    PrintedNotBlank(lines);
  }

  // ----- lines outside the profile

  // Copies, mode changes and binary content.
  predicate OutsideProfile(line: string) {
    || "copy from " <= line || "copy to " <= line || "old mode " <= line || "new mode " <= line
    || line == "GIT binary patch" || "Binary files " <= line
  }

  // What a line among the headers may be.
  predicate InProfile(line: string) {
    || line == "new file mode 100644" || line == "deleted file mode 100644"
    || "index " <= line || "similarity index " <= line || "dissimilarity index " <= line
    || "rename from " <= line || "rename to " <= line || "--- " <= line || "diff --git " <= line
  }

  lemma OutsideIsNotIn(line: string)
    requires OutsideProfile(line)
    ensures !InProfile(line) && line != ""
  {
    assert line[0] in {'c', 'o', 'n', 'G', 'B'};
    if "new mode " <= line {
      assert line[4] == 'm';
    }
  }

  // Such a line is UnsupportedOperation, any other line that does not belong there ParseError.
  lemma HeaderLineRefused(line: string, d: Draft, unquote: Unquote)
    requires !InProfile(line)
    ensures SimpleLine(line, d, unquote) == Failure(if OutsideProfile(line) then UnsupportedOperation else ParseError)
  {
  }

  // Met in any entry after any notes, it decides the whole patch.
  lemma EntryRefused(e: Entry, notes: seq<Note>, line: string, rest: seq<string>, quote: string -> string, unquote: Unquote)
    requires Quoting(quote, unquote) && !InProfile(line) && forall k :: 0 <= k < |notes| ==> NoteFits(e, notes[k])
    ensures EntriesFrom([FirstLine(e, quote)] + (NoteTexts(e, notes) + ([line] + rest)), unquote)
         == Failure(if OutsideProfile(line) then UnsupportedOperation else ParseError)
  {
    StartPrinted(e, quote, unquote);
    DropConcat([FirstLine(e, quote)], NoteTexts(e, notes) + ([line] + rest));
    var d := NotesRead(e, notes, [line] + rest, Empty(e), unquote);
    HeaderLineRefused(line, d, unquote);
    assert EntryMark == "diff --git " && OldFileMark == "--- ";
    DropConcat([line], rest);
  }
}
