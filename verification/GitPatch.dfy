// parseGitPatch and its path tokens (internal/kernel/patch_parser.go).

module PatchPaths {
  import opened Outcomes
  import opened Text
  import opened Hunks
  import opened PatchHunks

  // strconv.Unquote on one quoted literal, or None where it reports an error.
  type Unquote = string -> Option<string>

  function TrimPrefix(s: string, prefix: string): string {
    if prefix <= s then s[|prefix|..] else s
  }

  // ----- splitGitTokens

  function DropSpaces(s: string): (r: string)
    ensures |r| <= |s| && (r == "" || r[0] != ' ')
  {
    if s != "" && s[0] == ' ' then DropSpaces(s[1..]) else s
  }

  // How long the literal is whose first i characters are read.
  function QuoteEnd(s: string, i: nat, escaped: bool): (e: nat)
    requires i <= |s|
    ensures i <= e <= |s|
    decreases |s| - i
  {
    if i == |s| then i
    else if escaped then QuoteEnd(s, i + 1, false)
    else if s[i] == '\\' then QuoteEnd(s, i + 1, true)
    else if s[i] == '"' then i + 1
    else QuoteEnd(s, i + 1, false)
  }

  predicate Blank(c: char) {
    c == ' ' || c == '\t'
  }

  // The longest prefix without blanks.
  function Word(s: string): (w: string)
    ensures w <= s
  {
    if s == "" || Blank(s[0]) then "" else [s[0]] + Word(s[1..])
  }

  // The token at the front of a text that does not start with a space, and what follows.
  function Token(s: string, unquote: Unquote): (r: Result<(string, string)>)
    requires s != ""
    ensures r.Success? ==> |r.value.1| < |s|
    ensures r.Failure? ==> r.code == ParseError
  {
    if s[0] == '"' then
      var e := QuoteEnd(s, 1, false);
      if s[e - 1] != '"' then Failure(ParseError)
      else
        match unquote(s[..e])
        case None => Failure(ParseError)
        case Some(token) => Success((token, s[e..]))
    else if Word(s) == "" then Failure(ParseError)
    else Success((Word(s), s[|Word(s)|..]))
  }

  function Tokens(s: string, unquote: Unquote): (r: Result<seq<string>>)
    ensures r.Failure? ==> r.code == ParseError
    decreases |s|
  {
    var t := DropSpaces(s);
    if t == "" then Success([])
    else
      match Token(t, unquote)
      case Failure(_) => Failure(ParseError)
      case Success(one) =>
        match Tokens(one.1, unquote)
        case Failure(_) => Failure(ParseError)
        case Success(more) => Success([one.0] + more)
  }

  function Prepend(tokens: seq<string>, r: Result<seq<string>>): Result<seq<string>> {
    if r.Success? then Success(tokens + r.value) else r
  }

  method SkipSpaces(raw: string, start: nat) returns (index: nat)
    requires start <= |raw|
    ensures start <= index <= |raw| && raw[index..] == DropSpaces(raw[start..])
  {
    index := start;
    while index < |raw| && raw[index] == ' '
      invariant start <= index <= |raw| && DropSpaces(raw[index..]) == DropSpaces(raw[start..])
    {
      assert raw[index..][1..] == raw[index + 1..];
      index := index + 1;
    }
  }

  lemma {:induction false} QuoteEndFrom(raw: string, start: nat, i: nat, escaped: bool)
    requires start + i <= |raw|
    ensures QuoteEnd(raw, start + i, escaped) == start + QuoteEnd(raw[start..], i, escaped)
    decreases |raw| - i
  {
    if start + i < |raw| {
      assert raw[start..][i] == raw[start + i];
      QuoteEndFrom(raw, start, i + 1, true);
      QuoteEndFrom(raw, start, i + 1, false);
    }
  }

  method ScanQuoted(raw: string, start: nat) returns (index: nat)
    requires start < |raw|
    ensures start < index <= |raw| && index == start + QuoteEnd(raw[start..], 1, false)
  {
    index := start + 1;
    var escaped := false;
    QuoteEndFrom(raw, start, 1, false);
    while index < |raw|
      invariant start < index <= |raw|
      invariant QuoteEnd(raw, index, escaped) == QuoteEnd(raw, start + 1, false)
    {
      if escaped {
        escaped := false;
        index := index + 1;
      } else if raw[index] == '\\' {
        escaped := true;
        index := index + 1;
      } else if raw[index] == '"' {
        index := index + 1;
        return;
      } else {
        index := index + 1;
      }
    }
  }

  // Read from start, the word goes on at index.
  ghost predicate Within(raw: string, start: nat, index: nat) {
    start <= index <= |raw| && raw[start..index] + Word(raw[index..]) == Word(raw[start..])
  }

  lemma WithinStart(raw: string, start: nat)
    requires start <= |raw|
    ensures Within(raw, start, start)
  {
    assert raw[start..start] == [];
  }

  lemma WithinMore(raw: string, start: nat, index: nat)
    requires Within(raw, start, index) && index < |raw| && !Blank(raw[index])
    ensures Within(raw, start, index + 1)
  {
    assert raw[index..][1..] == raw[index + 1..];
    assert raw[start..index + 1] == raw[start..index] + [raw[index]];
    Associate(raw[start..index], [raw[index]], Word(raw[index + 1..]));
  }

  lemma WithinEnd(raw: string, start: nat, index: nat)
    requires Within(raw, start, index) && (index == |raw| || Blank(raw[index]))
    ensures raw[start..index] == Word(raw[start..])
  {
    assert Word(raw[index..]) == "";
    assert raw[start..index] + "" == raw[start..index];
  }

  method ScanWord(raw: string, start: nat) returns (index: nat)
    requires start <= |raw|
    ensures start <= index <= |raw| && raw[start..index] == Word(raw[start..])
  {
    index := start;
    WithinStart(raw, start);
    while index < |raw| && !Blank(raw[index])
      invariant start <= index <= |raw| && Within(raw, start, index)
    {
      WithinMore(raw, start, index);
      index := index + 1;
    }
    WithinEnd(raw, start, index);
  }

  method ReadToken(raw: string, start: nat, unquote: Unquote) returns (r: Result<(string, nat)>)
    requires start < |raw|
    ensures r.Success? ==> start < r.value.1 <= |raw| && Token(raw[start..], unquote) == Success((r.value.0, raw[r.value.1..]))
    ensures r.Failure? ==> Token(raw[start..], unquote) == Failure(r.code)
  {
    if raw[start] == '"' {
      var index := ScanQuoted(raw, start);
      assert raw[start..][..index - start] == raw[start..index] && raw[start..][index - start..] == raw[index..];
      assert raw[start..][index - start - 1] == raw[index - 1];
      if raw[index - 1] != '"' {
        return Failure(ParseError);
      }
      var decoded := unquote(raw[start..index]);
      if decoded.None? {
        return Failure(ParseError);
      }
      return Success((decoded.value, index));
    }
    var index := ScanWord(raw, start);
    assert raw[start..][index - start..] == raw[index..];
    if index == start {
      return Failure(ParseError);
    }
    return Success((raw[start..index], index));
  }

  method SplitGitTokens(raw: string, unquote: Unquote) returns (r: Result<seq<string>>)
    ensures r == Tokens(raw, unquote)
  {
    var tokens: seq<string> := [];
    var index := 0;
    assert raw[0..] == raw;
    PrependNothing(Tokens(raw, unquote));
    while true
      invariant 0 <= index <= |raw|
      invariant Prepend(tokens, Tokens(raw[index..], unquote)) == Tokens(raw, unquote)
      decreases |raw| - index
    {
      var from := SkipSpaces(raw, index);
      if from == |raw| {
        assert tokens + [] == tokens;
        return Success(tokens);
      }
      var token := ReadToken(raw, from, unquote);
      if token.Failure? {
        return Failure(ParseError);
      }
      PrependMore(tokens, token.value.0, Tokens(raw[token.value.1..], unquote));
      tokens := tokens + [token.value.0];
      index := token.value.1;
    }
  }

  lemma PrependNothing(r: Result<seq<string>>)
    ensures Prepend([], r) == r
  {
    if r.Success? {
      assert [] + r.value == r.value;
    }
  }

  lemma PrependMore(tokens: seq<string>, token: string, r: Result<seq<string>>)
    ensures Prepend(tokens + [token], r) == Prepend(tokens, Prepend([token], r))
  {
    if r.Success? {
      Associate(tokens, [token], r.value);
    }
  }

  // parseSingleGitPath.
  function SinglePath(raw: string, unquote: Unquote): Result<string> {
    match Tokens(raw, unquote)
    case Failure(_) => Failure(ParseError)
    case Success(tokens) => if |tokens| == 1 then Success(tokens[0]) else Failure(ParseError)
  }

  // parseDiffGitPaths.
  function DiffPaths(raw: string, unquote: Unquote): Result<(string, string)> {
    match Tokens(raw, unquote)
    case Failure(_) => Failure(ParseError)
    case Success(tokens) =>
      if |tokens| != 2 || !("a/" <= tokens[0]) || !("b/" <= tokens[1]) then Failure(ParseError)
      else Success((tokens[0], tokens[1]))
  }

  method ParseSingleGitPath(raw: string, unquote: Unquote) returns (r: Result<string>)
    ensures r == SinglePath(raw, unquote)
  {
    var tokens := SplitGitTokens(raw, unquote);
    if tokens.Failure? || |tokens.value| != 1 {
      return Failure(ParseError);
    }
    return Success(tokens.value[0]);
  }

  method ParseDiffGitPaths(raw: string, unquote: Unquote) returns (r: Result<(string, string)>)
    ensures r == DiffPaths(raw, unquote)
  {
    var tokens := SplitGitTokens(raw, unquote);
    if tokens.Failure? || |tokens.value| != 2 {
      return Failure(ParseError);
    }
    if !("a/" <= tokens.value[0]) || !("b/" <= tokens.value[1]) {
      return Failure(ParseError);
    }
    return Success((tokens.value[0], tokens.value[1]));
  }

  // ----- spelling a path so that it is read back

  // A path written as it is.
  predicate Plain(path: string) {
    && path != "" && path[0] != '"'
    && forall i {:trigger path[i]} :: 0 <= i < |path| ==> !Blank(path[i]) && path[i] != LF && path[i] != CR
  }

  // The literal ends with its own closing quote.
  predicate Closes(s: string, i: nat, escaped: bool)
    requires i <= |s|
    decreases |s| - i
  {
    if i == |s| then false
    else if escaped then Closes(s, i + 1, false)
    else if s[i] == '\\' then Closes(s, i + 1, true)
    else if s[i] == '"' then i + 1 == |s|
    else Closes(s, i + 1, false)
  }

  predicate Literal(s: string) {
    |s| >= 2 && s[0] == '"' && Closes(s, 1, false) && CleanLine(s)
  }

  // A quoting that the reader's unquoting undoes, as strconv.Quote and strconv.Unquote.
  ghost predicate Quoting(quote: string -> string, unquote: Unquote) {
    forall path {:trigger quote(path)} :: Literal(quote(path)) && unquote(quote(path)) == Some(path)
  }

  function Spell(path: string, quote: string -> string): string {
    if Plain(path) then path else quote(path)
  }

  lemma {:induction false} QuoteEndOf(s: string, rest: string, i: nat, escaped: bool)
    requires i <= |s| && Closes(s, i, escaped)
    ensures QuoteEnd(s + rest, i, escaped) == |s| && s[|s| - 1] == '"'
    decreases |s| - i
  {
    assert (s + rest)[i] == s[i];
    if escaped {
      QuoteEndOf(s, rest, i + 1, false);
    } else if s[i] == '\\' {
      QuoteEndOf(s, rest, i + 1, true);
    } else if s[i] != '"' {
      QuoteEndOf(s, rest, i + 1, false);
    }
  }

  lemma {:induction false} WordOf(path: string, rest: string)
    requires forall i {:trigger path[i]} :: 0 <= i < |path| ==> !Blank(path[i])
    requires rest == "" || Blank(rest[0])
    ensures Word(path + rest) == path
  {
    if path == "" {
      assert path + rest == rest;
    } else {
      DropConcat(path, rest);
      WordOf(path[1..], rest);
    }
  }

  lemma TokenSpelled(path: string, rest: string, quote: string -> string, unquote: Unquote)
    requires Quoting(quote, unquote) && (rest == "" || rest[0] == ' ')
    ensures Spell(path, quote) != "" && Spell(path, quote)[0] != ' '
    ensures Token(Spell(path, quote) + rest, unquote) == Success((path, rest))
  {
    var s := Spell(path, quote);
    DropPrefix(s, rest);
    if Plain(path) {
      WordOf(path, rest);
    } else {
      assert Literal(s);
      QuoteEndOf(s, rest, 1, false);
      assert (s + rest)[..|s|] == s;
    }
  }

  lemma SpelledClean(path: string, quote: string -> string, unquote: Unquote)
    requires Quoting(quote, unquote)
    ensures CleanLine(Spell(path, quote))
  {
    assert Literal(quote(path));
  }

  lemma TokensStep(s: string, t: string, token: string, rest: string, more: seq<string>, unquote: Unquote)
    requires DropSpaces(s) == t && t != "" && Token(t, unquote) == Success((token, rest)) && Tokens(rest, unquote) == Success(more)
    ensures Tokens(s, unquote) == Success([token] + more)
  {
  }

  lemma OneToken(path: string, quote: string -> string, unquote: Unquote)
    requires Quoting(quote, unquote)
    ensures SinglePath(Spell(path, quote), unquote) == Success(path)
  {
    var s := Spell(path, quote);
    TokenSpelled(path, "", quote, unquote);
    assert s + "" == s;
    assert DropSpaces(s) == s;
    assert Tokens("", unquote) == Success([]);
    TokensStep(s, s, path, "", [], unquote);
  }

  lemma TwoTokens(a: string, b: string, quote: string -> string, unquote: Unquote)
    requires Quoting(quote, unquote)
    ensures Tokens(Spell(a, quote) + (" " + Spell(b, quote)), unquote) == Success([a, b])
  {
    var s, t := Spell(a, quote), Spell(b, quote);
    TokenSpelled(a, " " + t, quote, unquote);
    TokenSpelled(b, "", quote, unquote);
    assert t + "" == t;
    assert DropSpaces(s + (" " + t)) == s + (" " + t);
    assert (" " + t)[1..] == t;
    assert DropSpaces(" " + t) == DropSpaces(t) == t;
    assert Tokens("", unquote) == Success([]);
    TokensStep(" " + t, t, b, "", [], unquote);
    assert [b] + [] == [b] && [a] + [b] == [a, b];
    TokensStep(s + (" " + t), s + (" " + t), a, " " + t, [b], unquote);
  }
}

module GitPatch {
  import opened Outcomes
  import opened Text
  import opened Decimals
  import opened Hunks
  import opened PatchHunks
  import opened PatchPaths

  datatype Operation = Update | Add | Delete | Rename

  datatype Entry = Entry(operation: Operation, oldTarget: string, newTarget: string,
                         renameFrom: string, renameTo: string, hunks: seq<Hunk>)

  const NoFile := "/dev/null"
  const NewFileMode := "new file mode 100644"
  const DeletedFileMode := "deleted file mode 100644"
  const RenameFromMark := "rename from "
  const RenameToMark := "rename to "
  const OldFileMark := "--- "
  const NewFileMark := "+++ "

  // Header lines that are read over.
  predicate Ignored(line: string) {
    "similarity index " <= line || "dissimilarity index " <= line || "index " <= line
  }

  // Forms outside the supported Git profile.
  predicate Unsupported(line: string) {
    || "copy from " <= line || "copy to " <= line || "old mode " <= line || "new mode " <= line
    || line == "GIT binary patch" || "Binary files " <= line
  }

  // The entry while it is read, with the flags of the source's loop.
  datatype Draft = Draft(entry: Entry, newFile: bool, deletedFile: bool, fileHeaders: bool,
                         oldDevNull: bool, newDevNull: bool)

  // ----- the parts of one entry

  // A "--- " line with its "+++ " line.
  function FileHeaders(oldLine: string, newLine: string, d: Draft, unquote: Unquote): Result<Draft>
    requires OldFileMark <= oldLine
  {
    match SinglePath(oldLine[|OldFileMark|..], unquote)
    case Failure(_) => Failure(ParseError)
    case Success(oldHeader) =>
      if !(NewFileMark <= newLine) then Failure(ParseError)
      else
        match SinglePath(newLine[|NewFileMark|..], unquote)
        case Failure(_) => Failure(ParseError)
        case Success(newHeader) =>
          if oldHeader != NoFile && TrimPrefix(oldHeader, "a/") != d.entry.oldTarget then Failure(ParseError)
          else if newHeader != NoFile && TrimPrefix(newHeader, "b/") != d.entry.newTarget then Failure(ParseError)
          else Success(Draft(d.entry, d.newFile || oldHeader == NoFile, d.deletedFile || newHeader == NoFile, true,
                             d.oldDevNull || oldHeader == NoFile, d.newDevNull || newHeader == NoFile))
  }

  // A file section: its two header lines and its hunks.
  function SectionFrom(rest: seq<string>, d: Draft, unquote: Unquote): (r: Result<(Draft, seq<string>)>)
    requires rest != [] && OldFileMark <= rest[0]
    ensures r.Success? ==> |r.value.1| < |rest|
  {
    match FileHeaders(rest[0], if |rest| > 1 then rest[1] else "", d, unquote)
    case Failure(code) => Failure(code)
    case Success(headed) =>
      match HunksFrom(if |rest| > 1 then rest[2..] else [])
      case Failure(code) => Failure(code)
      case Success(hunks) => Success((headed.(entry := headed.entry.(hunks := headed.entry.hunks + hunks.0)), hunks.1))
  }

  // A line that is not a file section.
  function SimpleLine(line: string, d: Draft, unquote: Unquote): Result<Draft> {
    if line == NewFileMode then Success(d.(newFile := true))
    else if line == DeletedFileMode then Success(d.(deletedFile := true))
    else if Ignored(line) then Success(d)
    else if RenameFromMark <= line then
      match SinglePath(line[|RenameFromMark|..], unquote)
      case Failure(code) => Failure(code)
      case Success(path) => Success(d.(entry := d.entry.(renameFrom := path)))
    else if RenameToMark <= line then
      match SinglePath(line[|RenameToMark|..], unquote)
      case Failure(code) => Failure(code)
      case Success(path) => Success(d.(entry := d.entry.(renameTo := path)))
    else if Unsupported(line) then Failure(UnsupportedOperation)
    else Failure(ParseError)
  }

  function BodyFrom(rest: seq<string>, d: Draft, unquote: Unquote): (r: Result<(Draft, seq<string>)>)
    ensures r.Success? ==> |r.value.1| <= |rest|
    decreases |rest|
  {
    if rest == [] || EntryMark <= rest[0] then Success((d, rest))
    else if OldFileMark <= rest[0] then
      match SectionFrom(rest, d, unquote)
      case Failure(code) => Failure(code)
      case Success(section) => BodyFrom(section.1, section.0, unquote)
    else
      match SimpleLine(rest[0], d, unquote)
      case Failure(code) => Failure(code)
      case Success(next) => BodyFrom(rest[1..], next, unquote)
  }

  // Which operation the draft is, if its headers agree.
  function Finish(d: Draft): Result<Entry> {
    var e := d.entry;
    if d.newFile && d.deletedFile then Failure(ParseError)
    else if d.newFile then
      if !d.fileHeaders || !d.oldDevNull || d.newDevNull || e.hunks == [] then Failure(ParseError)
      else Success(e.(operation := Add))
    else if d.deletedFile then
      if !d.fileHeaders || d.oldDevNull || !d.newDevNull || e.hunks == [] then Failure(ParseError)
      else Success(e.(operation := Delete))
    else if e.renameFrom != "" || e.renameTo != "" then
      if e.renameFrom == "" || e.renameTo == "" || e.renameFrom != e.oldTarget || e.renameTo != e.newTarget then Failure(ParseError)
      else Success(e.(operation := Rename))
    else if e.hunks != [] then
      if e.oldTarget != e.newTarget || !d.fileHeaders then Failure(ParseError)
      else Success(e.(operation := Update))
    else Failure(UnsupportedOperation)
  }

  // The draft a "diff --git" line starts.
  function Start(line: string, unquote: Unquote): Result<Draft> {
    if !(EntryMark <= line) then Failure(ParseError)
    else
      match DiffPaths(line[|EntryMark|..], unquote)
      case Failure(_) => Failure(ParseError)
      case Success(paths) =>
        Success(Draft(Entry(Update, TrimPrefix(paths.0, "a/"), TrimPrefix(paths.1, "b/"), "", "", []), false, false, false, false, false))
  }

  function EntryFrom(rest: seq<string>, unquote: Unquote): (r: Result<(Entry, seq<string>)>)
    requires rest != []
    ensures r.Success? ==> |r.value.1| < |rest|
  {
    match Start(rest[0], unquote)
    case Failure(code) => Failure(code)
    case Success(d) =>
      match BodyFrom(rest[1..], d, unquote)
      case Failure(code) => Failure(code)
      case Success(body) =>
        match Finish(body.0)
        case Failure(code) => Failure(code)
        case Success(entry) => Success((entry, body.1))
  }

  function EntriesFrom(rest: seq<string>, unquote: Unquote): Result<seq<Entry>>
    decreases |rest|
  {
    if rest == [] then Success([])
    else
      match EntryFrom(rest, unquote)
      case Failure(code) => Failure(code)
      case Success(one) =>
        match EntriesFrom(one.1, unquote)
        case Failure(code) => Failure(code)
        case Success(more) => Success([one.0] + more)
  }

  // strings.TrimSpace leaves nothing; other white space fails later with the same code.
  predicate OnlySpace(text: string) {
    forall i {:trigger text[i]} :: 0 <= i < |text| ==> text[i] in {' ', '\t', '\n', '\r'}
  }

  function TextLines(text: string): seq<string> {
    var lines := Split(text, LF);
    if lines[|lines| - 1] == "" then lines[..|lines| - 1] else lines
  }

  function PatchFrom(text: string, unquote: Unquote): Result<seq<Entry>> {
    if OnlySpace(text) || CR in text then Failure(ParseError)
    else
      match EntriesFrom(TextLines(text), unquote)
      case Failure(code) => Failure(code)
      case Success(entries) => if entries == [] then Failure(ParseError) else Success(entries)
  }

  // ----- the source's loops

  method ReadFileHeaders(oldLine: string, newLine: string, d: Draft, unquote: Unquote) returns (r: Result<Draft>)
    requires OldFileMark <= oldLine
    ensures r == FileHeaders(oldLine, newLine, d, unquote)
  {
    var oldHeader := ParseSingleGitPath(oldLine[|OldFileMark|..], unquote);
    if oldHeader.Failure? || !(NewFileMark <= newLine) {
      return Failure(ParseError);
    }
    var newHeader := ParseSingleGitPath(newLine[|NewFileMark|..], unquote);
    if newHeader.Failure? {
      return Failure(ParseError);
    }
    var headed := d.(fileHeaders := true);
    if oldHeader.value == NoFile {
      headed := headed.(oldDevNull := true, newFile := true);
    } else if TrimPrefix(oldHeader.value, "a/") != d.entry.oldTarget {
      return Failure(ParseError);
    }
    if newHeader.value == NoFile {
      headed := headed.(newDevNull := true, deletedFile := true);
    } else if TrimPrefix(newHeader.value, "b/") != d.entry.newTarget {
      return Failure(ParseError);
    }
    return Success(headed);
  }

  method ReadSimpleLine(line: string, d: Draft, unquote: Unquote) returns (r: Result<Draft>)
    ensures r == SimpleLine(line, d, unquote)
  {
    if line == NewFileMode {
      return Success(d.(newFile := true));
    } else if line == DeletedFileMode {
      return Success(d.(deletedFile := true));
    } else if Ignored(line) {
      return Success(d);
    } else if RenameFromMark <= line {
      var path := ParseSingleGitPath(line[|RenameFromMark|..], unquote);
      if path.Failure? {
        return Failure(path.code);
      }
      return Success(d.(entry := d.entry.(renameFrom := path.value)));
    } else if RenameToMark <= line {
      var path := ParseSingleGitPath(line[|RenameToMark|..], unquote);
      if path.Failure? {
        return Failure(path.code);
      }
      return Success(d.(entry := d.entry.(renameTo := path.value)));
    } else if Unsupported(line) {
      return Failure(UnsupportedOperation);
    }
    return Failure(ParseError);
  }

  method ReadStart(line: string, unquote: Unquote) returns (r: Result<Draft>)
    ensures r == Start(line, unquote)
  {
    if !(EntryMark <= line) {
      return Failure(ParseError);
    }
    var paths := ParseDiffGitPaths(line[|EntryMark|..], unquote);
    if paths.Failure? {
      return Failure(ParseError);
    }
    var entry := Entry(Update, TrimPrefix(paths.value.0, "a/"), TrimPrefix(paths.value.1, "b/"), "", "", []);
    return Success(Draft(entry, false, false, false, false, false));
  }

  method ReadSection(lines: seq<string>, start: nat, d: Draft, unquote: Unquote) returns (r: Result<(Draft, nat)>)
    requires start < |lines| && OldFileMark <= lines[start]
    ensures r.Success? ==> start < r.value.1 <= |lines| && SectionFrom(lines[start..], d, unquote) == Success((r.value.0, lines[r.value.1..]))
    ensures r.Failure? ==> SectionFrom(lines[start..], d, unquote) == Failure(r.code)
  {
    ghost var rest := lines[start..];
    var headers := ReadFileHeaders(lines[start], if start + 1 < |lines| then lines[start + 1] else "", d, unquote);
    if headers.Failure? {
      return Failure(headers.code);
    }
    var index := if start + 1 < |lines| then start + 2 else start + 1;
    assert (if |rest| > 1 then rest[2..] else []) == lines[index..];
    var hunks, next := ReadHunks(lines, index);
    if hunks.Failure? {
      return Failure(hunks.code);
    }
    return Success((headers.value.(entry := headers.value.entry.(hunks := headers.value.entry.hunks + hunks.value)), next));
  }

  function PrependHunks(hunks: seq<Hunk>, r: Result<(seq<Hunk>, seq<string>)>): Result<(seq<Hunk>, seq<string>)> {
    if r.Success? then Success((hunks + r.value.0, r.value.1)) else r
  }

  lemma PrependHunk(hunks: seq<Hunk>, h: Hunk, r: Result<(seq<Hunk>, seq<string>)>)
    ensures PrependHunks(hunks + [h], r) == PrependHunks(hunks, PrependHunks([h], r))
  {
    if r.Success? {
      Associate(hunks, [h], r.value.0);
    }
  }

  lemma PrependNoHunks(r: Result<(seq<Hunk>, seq<string>)>)
    ensures PrependHunks([], r) == r
  {
    if r.Success? {
      assert [] + r.value.0 == r.value.0;
    }
  }

  method ReadHunks(lines: seq<string>, start: nat) returns (r: Result<seq<Hunk>>, next: nat)
    requires start <= |lines|
    ensures r.Success? ==> start <= next <= |lines| && HunksFrom(lines[start..]) == Success((r.value, lines[next..]))
    ensures r.Failure? ==> HunksFrom(lines[start..]) == Failure(r.code)
  {
    var hunks: seq<Hunk> := [];
    next := start;
    PrependNoHunks(HunksFrom(lines[start..]));
    while next < |lines| && HunkMark <= lines[next]
      invariant start <= next <= |lines|
      invariant PrependHunks(hunks, HunksFrom(lines[next..])) == HunksFrom(lines[start..])
    {
      var hunk := ParsePatchHunk(lines, next);
      if hunk.Failure? {
        return Failure(hunk.code), next;
      }
      PrependHunk(hunks, hunk.value.0, HunksFrom(lines[hunk.value.1..]));
      hunks := hunks + [hunk.value.0];
      next := hunk.value.1;
    }
    assert hunks + [] == hunks;
    return Success(hunks), next;
  }

  // One round of the inner loop.
  method ReadPart(lines: seq<string>, index: nat, d: Draft, unquote: Unquote) returns (r: Result<(Draft, nat)>)
    requires index < |lines| && !(EntryMark <= lines[index])
    ensures r.Success? ==> index < r.value.1 <= |lines|
                           && BodyFrom(lines[index..], d, unquote) == BodyFrom(lines[r.value.1..], r.value.0, unquote)
    ensures r.Failure? ==> BodyFrom(lines[index..], d, unquote) == Failure(r.code)
  {
    if OldFileMark <= lines[index] {
      r := ReadSection(lines, index, d, unquote);
    } else {
      var next := ReadSimpleLine(lines[index], d, unquote);
      if next.Failure? {
        return Failure(next.code);
      }
      assert lines[index..][1..] == lines[index + 1..];
      return Success((next.value, index + 1));
    }
  }

  method ReadBody(lines: seq<string>, start: nat, draft: Draft, unquote: Unquote) returns (r: Result<(Draft, nat)>)
    requires start <= |lines|
    ensures r.Success? ==> start <= r.value.1 <= |lines| && BodyFrom(lines[start..], draft, unquote) == Success((r.value.0, lines[r.value.1..]))
    ensures r.Failure? ==> BodyFrom(lines[start..], draft, unquote) == Failure(r.code)
  {
    var d, index := draft, start;
    while index < |lines| && !(EntryMark <= lines[index])
      invariant start <= index <= |lines|
      invariant BodyFrom(lines[index..], d, unquote) == BodyFrom(lines[start..], draft, unquote)
    {
      var part := ReadPart(lines, index, d, unquote);
      if part.Failure? {
        return Failure(part.code);
      }
      d, index := part.value.0, part.value.1;
    }
    BodyEnds(lines[index..], d, unquote);
    return Success((d, index));
  }

  method ReadEntry(lines: seq<string>, start: nat, unquote: Unquote) returns (r: Result<(Entry, nat)>)
    requires start < |lines|
    ensures r.Success? ==> start < r.value.1 <= |lines| && EntryFrom(lines[start..], unquote) == Success((r.value.0, lines[r.value.1..]))
    ensures r.Failure? ==> EntryFrom(lines[start..], unquote) == Failure(r.code)
  {
    var draft := ReadStart(lines[start], unquote);
    if draft.Failure? {
      return Failure(draft.code);
    }
    assert lines[start..][1..] == lines[start + 1..];
    var body := ReadBody(lines, start + 1, draft.value, unquote);
    if body.Failure? {
      return Failure(body.code);
    }
    var entry := Finish(body.value.0);
    if entry.Failure? {
      return Failure(entry.code);
    }
    return Success((entry.value, body.value.1));
  }

  function PrependEntries(entries: seq<Entry>, r: Result<seq<Entry>>): Result<seq<Entry>> {
    if r.Success? then Success(entries + r.value) else r
  }

  lemma PrependEntry(entries: seq<Entry>, e: Entry, r: Result<seq<Entry>>)
    ensures PrependEntries(entries + [e], r) == PrependEntries(entries, PrependEntries([e], r))
  {
    if r.Success? {
      Associate(entries, [e], r.value);
    }
  }

  lemma PrependNoEntries(r: Result<seq<Entry>>)
    ensures PrependEntries([], r) == r
  {
    if r.Success? {
      assert [] + r.value == r.value;
    }
  }

  method ReadEntries(lines: seq<string>, unquote: Unquote) returns (r: Result<seq<Entry>>)
    ensures r == EntriesFrom(lines, unquote)
  {
    var entries: seq<Entry> := [];
    var index := 0;
    assert lines[0..] == lines;
    PrependNoEntries(EntriesFrom(lines, unquote));
    while index < |lines|
      invariant 0 <= index <= |lines|
      invariant PrependEntries(entries, EntriesFrom(lines[index..], unquote)) == EntriesFrom(lines, unquote)
    {
      var entry := ReadEntry(lines, index, unquote);
      if entry.Failure? {
        return Failure(entry.code);
      }
      PrependEntry(entries, entry.value.0, EntriesFrom(lines[entry.value.1..], unquote));
      entries := entries + [entry.value.0];
      index := entry.value.1;
    }
    assert entries + [] == entries;
    return Success(entries);
  }

  method ParseGitPatch(text: string, unquote: Unquote) returns (r: Result<seq<Entry>>)
    ensures r == PatchFrom(text, unquote)
  {
    if OnlySpace(text) || CR in text {
      return Failure(ParseError);
    }
    var entries := ReadEntries(TextLines(text), unquote);
    if entries.Failure? {
      return Failure(entries.code);
    }
    if |entries.value| == 0 {
      return Failure(ParseError);
    }
    return entries;
  }

  // ----- what the parser accepts

  // The entries the parser can return.
  ghost predicate WellFormedEntry(e: Entry) {
    && WellFormedHunks(e.hunks)
    && match e.operation
       case Add => e.hunks != []
       case Delete => e.hunks != []
       case Rename => e.renameFrom == e.oldTarget != "" && e.renameTo == e.newTarget != ""
       case Update => e.hunks != [] && e.oldTarget == e.newTarget && e.renameFrom == "" && e.renameTo == ""
  }

  ghost predicate WellFormedPatch(entries: seq<Entry>) {
    entries != [] && forall i {:trigger entries[i]} :: 0 <= i < |entries| ==> WellFormedEntry(entries[i])
  }

  lemma SectionWellFormed(rest: seq<string>, d: Draft, unquote: Unquote)
    requires rest != [] && OldFileMark <= rest[0] && SectionFrom(rest, d, unquote).Success?
    requires Clean(rest) && WellFormedHunks(d.entry.hunks)
    ensures var r := SectionFrom(rest, d, unquote).value; WellFormedHunks(r.0.entry.hunks) && Clean(r.1)
  {
    HunksFromWellFormed(if |rest| > 1 then rest[2..] else []);
  }

  lemma {:induction false} BodyWellFormed(rest: seq<string>, d: Draft, unquote: Unquote)
    requires BodyFrom(rest, d, unquote).Success? && Clean(rest) && WellFormedHunks(d.entry.hunks)
    ensures var r := BodyFrom(rest, d, unquote).value; WellFormedHunks(r.0.entry.hunks) && Clean(r.1)
    decreases |rest|
  {
    if rest == [] || EntryMark <= rest[0] {
    } else if OldFileMark <= rest[0] {
      SectionWellFormed(rest, d, unquote);
      var section := SectionFrom(rest, d, unquote).value;
      BodyWellFormed(section.1, section.0, unquote);
    } else {
      BodyWellFormed(rest[1..], SimpleLine(rest[0], d, unquote).value, unquote);
    }
  }

  lemma EntryWellFormed(rest: seq<string>, unquote: Unquote)
    requires rest != [] && EntryFrom(rest, unquote).Success? && Clean(rest)
    ensures var r := EntryFrom(rest, unquote).value; WellFormedEntry(r.0) && Clean(r.1)
  {
    BodyWellFormed(rest[1..], Start(rest[0], unquote).value, unquote);
  }

  lemma {:induction false} EntriesWellFormed(rest: seq<string>, unquote: Unquote)
    requires EntriesFrom(rest, unquote).Success? && Clean(rest)
    ensures var r := EntriesFrom(rest, unquote).value; forall i {:trigger r[i]} :: 0 <= i < |r| ==> WellFormedEntry(r[i])
    decreases |rest|
  {
    if rest != [] {
      EntryWellFormed(rest, unquote);
      EntriesWellFormed(EntryFrom(rest, unquote).value.1, unquote);
    }
  }

  lemma {:induction false} SplitKeepsOut(s: string, sep: char, c: char)
    requires c !in s
    ensures forall i {:trigger Split(s, sep)[i]} :: 0 <= i < |Split(s, sep)| ==> c !in Split(s, sep)[i]
  {
    if s != [] {
      SplitKeepsOut(s[1..], sep, c);
    }
  }

  lemma AcceptedIsWellFormed(text: string, unquote: Unquote)
    requires PatchFrom(text, unquote).Success?
    ensures WellFormedPatch(PatchFrom(text, unquote).value)
  {
    SplitKeepsOut(text, LF, CR);
    var lines := Split(text, LF);
    assert forall i {:trigger lines[i]} :: 0 <= i < |lines| ==> CleanLine(lines[i]);
    EntriesWellFormed(TextLines(text), unquote);
  }

  // ----- printing

  function OldHeader(e: Entry): string {
    if e.operation == Add then NoFile else "a/" + e.oldTarget
  }

  function NewHeader(e: Entry): string {
    if e.operation == Delete then NoFile else "b/" + e.newTarget
  }

  function RenameLines(e: Entry, quote: string -> string): seq<string> {
    (if e.renameFrom == "" then [] else [RenameFromMark + Spell(e.renameFrom, quote)])
    + (if e.renameTo == "" then [] else [RenameToMark + Spell(e.renameTo, quote)])
  }

  predicate HasSection(e: Entry) {
    e.operation != Rename || e.hunks != []
  }

  function SectionLines(e: Entry, quote: string -> string): seq<string> {
    [OldFileMark + Spell(OldHeader(e), quote), NewFileMark + Spell(NewHeader(e), quote)] + PrintHunks(e.hunks)
  }

  function FirstLine(e: Entry, quote: string -> string): string {
    EntryMark + (Spell("a/" + e.oldTarget, quote) + (" " + Spell("b/" + e.newTarget, quote)))
  }

  function PrintEntry(e: Entry, quote: string -> string): seq<string> {
    [FirstLine(e, quote)] + (RenameLines(e, quote) + if HasSection(e) then SectionLines(e, quote) else [])
  }

  function PrintEntries(entries: seq<Entry>, quote: string -> string): seq<string> {
    if entries == [] then [] else PrintEntry(entries[0], quote) + PrintEntries(entries[1..], quote)
  }

  // The patch text of an entry list.
  function PrintPatch(entries: seq<Entry>, quote: string -> string): string {
    Join(PrintEntries(entries, quote), LF) + [LF]
  }

  // ----- printed entries are read back

  // The draft of an entry about which only the first line is known.
  function Empty(e: Entry): Draft {
    Draft(Entry(Update, e.oldTarget, e.newTarget, "", "", []), false, false, false, false, false)
  }

  lemma StartPrinted(e: Entry, quote: string -> string, unquote: Unquote)
    requires Quoting(quote, unquote)
    ensures Start(FirstLine(e, quote), unquote) == Success(Empty(e))
  {
    var a, b := "a/" + e.oldTarget, "b/" + e.newTarget;
    DropPrefix(EntryMark, Spell(a, quote) + (" " + Spell(b, quote)));
    TwoTokens(a, b, quote, unquote);
    DropPrefix("a/", e.oldTarget);
    DropPrefix("b/", e.newTarget);
  }

  lemma SimpleRead(line: string, more: seq<string>, d: Draft, next: Draft, unquote: Unquote)
    requires line != "" && line[0] == 'r' && SimpleLine(line, d, unquote) == Success(next)
    ensures BodyFrom([line] + more, d, unquote) == BodyFrom(more, next, unquote)
  {
    DropConcat([line], more);
  }

  // A rename line is none of the lines tested for before it.
  lemma RenameLineAlone(line: string)
    requires line != "" && line[0] == 'r'
    ensures line != NewFileMode && line != DeletedFileMode && !Ignored(line)
  {
  }

  lemma RenameToIsNotFrom(rest: string)
    ensures !(RenameFromMark <= RenameToMark + rest)
  {
    assert (RenameToMark + rest)[7] == 't' && RenameFromMark[7] == 'f';
  }

  lemma RenameFromLine(path: string, d: Draft, quote: string -> string, unquote: Unquote)
    requires Quoting(quote, unquote)
    ensures var line := RenameFromMark + Spell(path, quote);
            line[0] == 'r' && SimpleLine(line, d, unquote) == Success(d.(entry := d.entry.(renameFrom := path)))
  {
    RenameLineAlone(RenameFromMark + Spell(path, quote));
    DropPrefix(RenameFromMark, Spell(path, quote));
    OneToken(path, quote, unquote);
  }

  lemma RenameToLine(path: string, d: Draft, quote: string -> string, unquote: Unquote)
    requires Quoting(quote, unquote)
    ensures var line := RenameToMark + Spell(path, quote);
            line[0] == 'r' && SimpleLine(line, d, unquote) == Success(d.(entry := d.entry.(renameTo := path)))
  {
    RenameLineAlone(RenameToMark + Spell(path, quote));
    RenameToIsNotFrom(Spell(path, quote));
    DropPrefix(RenameToMark, Spell(path, quote));
    OneToken(path, quote, unquote);
  }

  lemma RenameFromRead(path: string, more: seq<string>, d: Draft, quote: string -> string, unquote: Unquote)
    requires Quoting(quote, unquote)
    ensures BodyFrom([RenameFromMark + Spell(path, quote)] + more, d, unquote) == BodyFrom(more, d.(entry := d.entry.(renameFrom := path)), unquote)
  {
    RenameFromLine(path, d, quote, unquote);
    SimpleRead(RenameFromMark + Spell(path, quote), more, d, d.(entry := d.entry.(renameFrom := path)), unquote);
  }

  lemma RenameToRead(path: string, more: seq<string>, d: Draft, quote: string -> string, unquote: Unquote)
    requires Quoting(quote, unquote)
    ensures BodyFrom([RenameToMark + Spell(path, quote)] + more, d, unquote) == BodyFrom(more, d.(entry := d.entry.(renameTo := path)), unquote)
  {
    RenameToLine(path, d, quote, unquote);
    SimpleRead(RenameToMark + Spell(path, quote), more, d, d.(entry := d.entry.(renameTo := path)), unquote);
  }

  lemma HeadersRead(e: Entry, d: Draft, quote: string -> string, unquote: Unquote)
    requires Quoting(quote, unquote) && d.entry.oldTarget == e.oldTarget && d.entry.newTarget == e.newTarget
    ensures FileHeaders(OldFileMark + Spell(OldHeader(e), quote), NewFileMark + Spell(NewHeader(e), quote), d, unquote)
         == Success(Draft(d.entry, d.newFile || e.operation == Add, d.deletedFile || e.operation == Delete, true,
                          d.oldDevNull || e.operation == Add, d.newDevNull || e.operation == Delete))
  {
    DropPrefix(OldFileMark, Spell(OldHeader(e), quote));
    DropPrefix(NewFileMark, Spell(NewHeader(e), quote));
    OneToken(OldHeader(e), quote, unquote);
    OneToken(NewHeader(e), quote, unquote);
    DropPrefix("a/", e.oldTarget);
    DropPrefix("b/", e.newTarget);
    assert ("a/" + e.oldTarget)[0] == 'a' && ("b/" + e.newTarget)[0] == 'b' && NoFile[0] == '/';
  }

  // The draft once the file section of e is read.
  function Headed(e: Entry, d: Draft): Draft {
    Draft(d.entry.(hunks := e.hunks), e.operation == Add, e.operation == Delete, true, e.operation == Add, e.operation == Delete)
  }

  predicate Bare(e: Entry, d: Draft) {
    && d.entry.oldTarget == e.oldTarget && d.entry.newTarget == e.newTarget && d.entry.hunks == []
    && !d.newFile && !d.deletedFile && !d.fileHeaders && !d.oldDevNull && !d.newDevNull
  }

  lemma SectionParsed(a: string, b: string, more: seq<string>, d: Draft, headed: Draft, hunks: seq<Hunk>, rest: seq<string>, unquote: Unquote)
    requires OldFileMark <= a && FileHeaders(a, b, d, unquote) == Success(headed) && HunksFrom(more) == Success((hunks, rest))
    ensures SectionFrom([a, b] + more, d, unquote) == Success((headed.(entry := headed.entry.(hunks := headed.entry.hunks + hunks)), rest))
  {
    DropPrefix([a, b], more);
  }

  lemma SectionInBody(lines: seq<string>, d: Draft, next: Draft, rest: seq<string>, unquote: Unquote)
    requires lines != [] && OldFileMark <= lines[0] && SectionFrom(lines, d, unquote) == Success((next, rest))
    requires rest == [] || EntryMark <= rest[0]
    ensures BodyFrom(lines, d, unquote) == Success((next, rest))
  {
    assert lines[0][0] == '-';
    BodyEnds(rest, next, unquote);
  }

  lemma SectionRead(e: Entry, rest: seq<string>, d: Draft, quote: string -> string, unquote: Unquote)
    requires Quoting(quote, unquote) && WellFormedHunks(e.hunks) && Bare(e, d)
    requires rest == [] || EntryMark <= rest[0]
    ensures BodyFrom(SectionLines(e, quote) + rest, d, unquote) == Success((Headed(e, d), rest))
  {
    var a, b := OldFileMark + Spell(OldHeader(e), quote), NewFileMark + Spell(NewHeader(e), quote);
    var more := PrintHunks(e.hunks) + rest;
    Associate([a, b], PrintHunks(e.hunks), rest);
    DropPrefix(OldFileMark, Spell(OldHeader(e), quote));
    HeadersRead(e, d, quote, unquote);
    HunksPrinted(e.hunks, rest);
    assert [] + e.hunks == e.hunks;
    SectionParsed(a, b, more, d, Headed(e, d).(entry := d.entry), e.hunks, rest, unquote);
    assert ([a, b] + more)[0] == a;
    SectionInBody([a, b] + more, d, Headed(e, d), rest, unquote);
  }

  lemma BodyEnds(rest: seq<string>, d: Draft, unquote: Unquote)
    requires rest == [] || EntryMark <= rest[0]
    ensures BodyFrom(rest, d, unquote) == Success((d, rest))
  {
  }

  // The draft with the rename lines of e.
  function Renamed(e: Entry): Draft {
    Empty(e).(entry := Empty(e).entry.(renameFrom := e.renameFrom, renameTo := e.renameTo))
  }

  lemma RenamesRead(e: Entry, more: seq<string>, quote: string -> string, unquote: Unquote)
    requires Quoting(quote, unquote)
    ensures BodyFrom(RenameLines(e, quote) + more, Empty(e), unquote) == BodyFrom(more, Renamed(e), unquote)
  {
    var to: seq<string> := if e.renameTo == "" then [] else [RenameToMark + Spell(e.renameTo, quote)];
    var d := Empty(e).(entry := Empty(e).entry.(renameFrom := e.renameFrom));
    if e.renameFrom == "" {
      assert RenameLines(e, quote) + more == to + more && d == Empty(e);
    } else {
      Associate([RenameFromMark + Spell(e.renameFrom, quote)], to, more);
      RenameFromRead(e.renameFrom, to + more, Empty(e), quote, unquote);
    }
    if e.renameTo == "" {
      assert to + more == more && d == Renamed(e);
    } else {
      RenameToRead(e.renameTo, more, d, quote, unquote);
    }
  }

  lemma EntryPrinted(e: Entry, rest: seq<string>, quote: string -> string, unquote: Unquote)
    requires Quoting(quote, unquote) && WellFormedEntry(e) && (rest == [] || EntryMark <= rest[0])
    ensures EntryFrom(PrintEntry(e, quote) + rest, unquote) == Success((e, rest))
  {
    var section: seq<string> := if HasSection(e) then SectionLines(e, quote) else [];
    Associate([FirstLine(e, quote)], RenameLines(e, quote) + section, rest);
    Associate(RenameLines(e, quote), section, rest);
    DropConcat([FirstLine(e, quote)], RenameLines(e, quote) + (section + rest));
    StartPrinted(e, quote, unquote);
    RenamesRead(e, section + rest, quote, unquote);
    if HasSection(e) {
      SectionRead(e, rest, Renamed(e), quote, unquote);
    } else {
      assert section + rest == rest;
      BodyEnds(rest, Renamed(e), unquote);
    }
  }

  lemma {:induction false} EntriesPrinted(entries: seq<Entry>, quote: string -> string, unquote: Unquote)
    requires Quoting(quote, unquote) && forall i {:trigger entries[i]} :: 0 <= i < |entries| ==> WellFormedEntry(entries[i])
    ensures EntriesFrom(PrintEntries(entries, quote), unquote) == Success(entries)
    ensures PrintEntries(entries, quote) == [] || EntryMark <= PrintEntries(entries, quote)[0]
  {
    if entries != [] {
      EntriesPrinted(entries[1..], quote, unquote);
      EntryPrinted(entries[0], PrintEntries(entries[1..], quote), quote, unquote);
      assert entries == [entries[0]] + entries[1..];
      DropPrefix(EntryMark, FirstLine(entries[0], quote)[|EntryMark|..]);
    }
  }

  // ----- text

  lemma CleanMark(mark: string, s: string)
    requires CleanLine(mark) && CleanLine(s)
    ensures CleanLine(mark + s)
  {
  }

  lemma {:induction false} DecimalClean(n: nat)
    ensures CleanLine(Decimal(n))
  {
    assert forall c :: c in Decimal(n) ==> IsDigit(c);
  }

  lemma HeaderClean(h: Hunk)
    ensures CleanLine(PrintHeader(h))
  {
    DecimalClean(h.oldStart);
    DecimalClean(h.oldCount);
    DecimalClean(h.newStart);
    DecimalClean(h.newCount);
  }

  lemma {:induction false} HunksClean(hunks: seq<Hunk>)
    requires WellFormedHunks(hunks)
    ensures Clean(PrintHunks(hunks))
  {
    if hunks != [] {
      HunksClean(hunks[1..]);
      HeaderClean(hunks[0]);
      assert WellFormedHunk(hunks[0]);
    }
  }

  lemma EntryClean(e: Entry, quote: string -> string, unquote: Unquote)
    requires Quoting(quote, unquote) && WellFormedEntry(e)
    ensures Clean(PrintEntry(e, quote))
  {
    forall path ensures CleanLine(Spell(path, quote)) {
      SpelledClean(path, quote, unquote);
    }
    HunksClean(e.hunks);
    CleanMark(RenameFromMark, Spell(e.renameFrom, quote));
    CleanMark(RenameToMark, Spell(e.renameTo, quote));
    CleanMark(OldFileMark, Spell(OldHeader(e), quote));
    CleanMark(NewFileMark, Spell(NewHeader(e), quote));
    CleanMark(" ", Spell("b/" + e.newTarget, quote));
    CleanMark(Spell("a/" + e.oldTarget, quote), " " + Spell("b/" + e.newTarget, quote));
    CleanMark(EntryMark, Spell("a/" + e.oldTarget, quote) + (" " + Spell("b/" + e.newTarget, quote)));
  }

  lemma {:induction false} EntriesClean(entries: seq<Entry>, quote: string -> string, unquote: Unquote)
    requires Quoting(quote, unquote) && forall i {:trigger entries[i]} :: 0 <= i < |entries| ==> WellFormedEntry(entries[i])
    ensures Clean(PrintEntries(entries, quote))
  {
    if entries != [] {
      EntryClean(entries[0], quote, unquote);
      EntriesClean(entries[1..], quote, unquote);
    }
  }

  lemma {:induction false} JoinKeepsOut(lines: seq<string>, sep: char, c: char)
    requires c != sep && forall i {:trigger lines[i]} :: 0 <= i < |lines| ==> c !in lines[i]
    ensures c !in Join(lines, sep)
  {
    if |lines| > 1 {
      JoinKeepsOut(lines[1..], sep, c);
    }
  }

  lemma {:induction false} SplitEnded(s: string, sep: char)
    ensures Split(s + [sep], sep) == Split(s, sep) + [""]
  {
    if s == "" {
      assert s + [sep] == [sep] && [sep][1..] == "";
    } else {
      DropConcat(s, [sep]);
      SplitEnded(s[1..], sep);
    }
  }

  lemma PrintedLines(lines: seq<string>)
    requires lines != [] && Clean(lines)
    ensures TextLines(Join(lines, LF) + [LF]) == lines && CR !in Join(lines, LF) + [LF]
  {
    SplitEnded(Join(lines, LF), LF);
    SplitJoin(lines, LF);
    JoinKeepsOut(lines, LF, CR);
  }

  lemma PrintedNotBlank(lines: seq<string>)
    requires lines != [] && EntryMark <= lines[0]
    ensures !OnlySpace(Join(lines, LF) + [LF])
  {
    var text := Join(lines, LF) + [LF];
    assert text[0] == lines[0][0] == 'd';
  }

  // Every well-formed entry list is read back from its text. With AcceptedIsWellFormed: whatever the
  // parser accepts can be printed and is accepted again as the same entries.
  lemma PrintedPatchParses(entries: seq<Entry>, quote: string -> string, unquote: Unquote)
    requires Quoting(quote, unquote) && WellFormedPatch(entries)
    ensures PatchFrom(PrintPatch(entries, quote), unquote) == Success(entries)
  {
    var lines := PrintEntries(entries, quote);
    EntriesPrinted(entries, quote, unquote);
    EntriesClean(entries, quote, unquote);
    PrintedLines(lines);
    PrintedNotBlank(lines);
  }

  // The hunks of an accepted patch meet what applying and undoing them asks for.
  lemma AcceptedHunksApply(e: Entry)
    requires WellFormedEntry(e)
    ensures Marked(e.hunks) && SingleLines(e.hunks)
  {
    forall h | h in e.hunks
      ensures OneLiners(h.lines) && forall i {:trigger h.lines[i]} :: 0 <= i < |h.lines| ==> h.lines[i] != ""
    {
      assert WellFormedHunk(h);
    }
  }
}
