// applyExactHunks and documentLines (internal/kernel/patch_parser.go): applying unified-diff hunks
// to a canonical document, with no fuzz.

module Hunks {
  import opened Outcomes
  import opened Text

  const LF := '\n'

  datatype Hunk = Hunk(oldStart: nat, oldCount: nat, newStart: nat, newCount: nat, lines: seq<string>)

  // ----- documents and lines

  function DocumentLines(body: string): seq<string> {
    if body == "" then []
    else if body[|body| - 1] != LF then Split(body, LF)
    else Split(body[..|body| - 1], LF)
  }

  function Document(lines: seq<string>): string {
    if lines == [] then "" else Join(lines, LF) + [LF]
  }

  ghost predicate OneLiners(lines: seq<string>) {
    forall i {:trigger lines[i]} :: 0 <= i < |lines| ==> LF !in lines[i]
  }

  lemma DocumentLinesOneLiners(body: string)
    ensures OneLiners(DocumentLines(body))
  {
  }

  lemma LinesOfDocument(lines: seq<string>)
    requires OneLiners(lines)
    ensures DocumentLines(Document(lines)) == lines
  {
    if lines != [] {
      var text := Join(lines, LF);
      assert (text + [LF])[..|text|] == text;
      SplitJoin(lines, LF);
    }
  }

  // Reading a document into lines and writing it again ends its last line, nothing else.
  lemma DocumentOfLines(body: string)
    ensures Document(DocumentLines(body)) == if body == "" || body[|body| - 1] == LF then body else body + [LF]
  {
    if body != "" {
      if body[|body| - 1] != LF {
        JoinSplit(body, LF);
      } else {
        JoinSplit(body[..|body| - 1], LF);
        assert body == body[..|body| - 1] + [LF];
      }
    }
  }

  // ----- the two sides of a hunk

  predicate OnOldSide(line: string) {
    line != "" && (line[0] == ' ' || line[0] == '-')
  }

  predicate OnNewSide(line: string) {
    line != "" && (line[0] == ' ' || line[0] == '+')
  }

  // What the hunk expects to find in the base.
  function OldSide(lines: seq<string>): seq<string> {
    if lines == [] then []
    else (if OnOldSide(lines[0]) then [lines[0][1..]] else []) + OldSide(lines[1..])
  }

  // What it leaves in its place.
  function NewSide(lines: seq<string>): seq<string> {
    if lines == [] then []
    else (if OnNewSide(lines[0]) then [lines[0][1..]] else []) + NewSide(lines[1..])
  }

  lemma {:induction false} OldSideMore(a: seq<string>, line: string)
    ensures OldSide(a + [line]) == OldSide(a) + (if OnOldSide(line) then [line[1..]] else [])
  {
    if a == [] {
      assert a + [line] == [line] && [line][1..] == [];
    } else {
      DropConcat(a, [line]);
      OldSideMore(a[1..], line);
    }
  }

  lemma {:induction false} NewSideMore(a: seq<string>, line: string)
    ensures NewSide(a + [line]) == NewSide(a) + (if OnNewSide(line) then [line[1..]] else [])
  {
    if a == [] {
      assert a + [line] == [line] && [line][1..] == [];
    } else {
      DropConcat(a, [line]);
      NewSideMore(a[1..], line);
    }
  }

  lemma SidesMore(a: seq<string>, line: string)
    ensures OldSide(a + [line]) == OldSide(a) + (if OnOldSide(line) then [line[1..]] else [])
    ensures NewSide(a + [line]) == NewSide(a) + (if OnNewSide(line) then [line[1..]] else [])
  {
    OldSideMore(a, line);
    NewSideMore(a, line);
  }

  lemma {:induction false} SidesOneLiners(lines: seq<string>)
    requires OneLiners(lines)
    ensures OneLiners(OldSide(lines)) && OneLiners(NewSide(lines))
  {
    if lines != [] {
      assert OneLiners(lines[1..]);
      SidesOneLiners(lines[1..]);
      assert LF !in lines[0];
    }
  }

  // A start of 0 and a start of 1 are the same place.
  function Position(start: nat): nat {
    if start == 0 then 0 else start - 1
  }

  predicate At(piece: seq<string>, lines: seq<string>, i: nat) {
    i + |piece| <= |lines| && lines[i..i + |piece|] == piece
  }

  // What one hunk says from line i of source and line j of target on: up to the hunk they agree, and
  // where it stands source has its old side and target its new side.
  predicate Stands(h: Hunk, i: nat, j: nat, source: seq<string>, target: seq<string>) {
    var p, q := Position(h.oldStart), Position(h.newStart);
    && i <= p <= |source| && j <= q <= |target| && source[i..p] == target[j..q]
    && At(OldSide(h.lines), source, p) && |OldSide(h.lines)| == h.oldCount
    && At(NewSide(h.lines), target, q) && |NewSide(h.lines)| == h.newCount
  }

  // All hunks in a row; after the last one the documents agree.
  ghost predicate Relates(hunks: seq<Hunk>, i: nat, j: nat, source: seq<string>, target: seq<string>)
    decreases |hunks|
  {
    if hunks == [] then i <= |source| && j <= |target| && source[i..] == target[j..]
    else
      var h := hunks[0];
      && Stands(h, i, j, source, target)
      && Relates(hunks[1..], Position(h.oldStart) + h.oldCount, Position(h.newStart) + h.newCount, source, target)
  }

  // The hunks turn these base lines into this text.
  ghost predicate Gives(hunks: seq<Hunk>, base: seq<string>, text: string) {
    exists target :: Relates(hunks, 0, 0, base, target) && text == Document(target)
  }

  lemma GivesDocument(hunks: seq<Hunk>, base: seq<string>, target: seq<string>)
    requires Relates(hunks, 0, 0, base, target)
    ensures Gives(hunks, base, Document(target))
  {
  }

  ghost predicate Accepts(hunks: seq<Hunk>, base: seq<string>) {
    exists target :: Relates(hunks, 0, 0, base, target)
  }

  // ----- applyExactHunks

  ghost predicate Marked(hunks: seq<Hunk>) {
    forall h :: h in hunks ==> forall i {:trigger h.lines[i]} :: 0 <= i < |h.lines| ==> h.lines[i] != ""
  }

  // The lines of one hunk, read against the base from line start on.
  method ApplyLines(base: seq<string>, start: nat, lines: seq<string>) returns (r: Result<seq<string>>, oldUsed: nat)
    requires start <= |base| && forall i {:trigger lines[i]} :: 0 <= i < |lines| ==> lines[i] != ""
    ensures r.Success? <==> At(OldSide(lines), base, start)
    ensures r.Success? ==> r.value == NewSide(lines) && oldUsed == |OldSide(lines)|
  {
    var output: seq<string> := [];
    oldUsed := 0;
    var k := 0;
    while k < |lines|
      invariant 0 <= k <= |lines|
      invariant oldUsed == |OldSide(lines[..k])| && At(OldSide(lines[..k]), base, start)
      invariant output == NewSide(lines[..k])
    {
      var line := lines[k];
      var content := line[1..];
      assert lines[..k + 1] == lines[..k] + [line];
      SidesMore(lines[..k], line);
      if line[0] == ' ' || line[0] == '-' {
        if start + oldUsed >= |base| || base[start + oldUsed] != content {
          NotAt(lines, k + 1, base, start);
          return Failure(PatchBaseMismatch), oldUsed;
        }
        oldUsed := oldUsed + 1;
      }
      if line[0] == ' ' || line[0] == '+' {
        output := output + [content];
      }
      k := k + 1;
    }
    assert lines[..k] == lines;
    return Success(output), oldUsed;
  }

  lemma {:induction false} SidesPrefix(lines: seq<string>, k: nat)
    requires k <= |lines|
    ensures OldSide(lines[..k]) <= OldSide(lines)
    decreases |lines| - k
  {
    if k < |lines| {
      assert lines[..k + 1] == lines[..k] + [lines[k]];
      SidesMore(lines[..k], lines[k]);
      SidesPrefix(lines, k + 1);
    } else {
      assert lines[..k] == lines;
    }
  }

  lemma NotAt(lines: seq<string>, k: nat, base: seq<string>, start: nat)
    requires k <= |lines| && !At(OldSide(lines[..k]), base, start)
    ensures !At(OldSide(lines), base, start)
  {
    SidesPrefix(lines, k);
    AtPrefix(OldSide(lines[..k]), OldSide(lines), base, start);
  }

  lemma AtPrefix(part: seq<string>, all: seq<string>, base: seq<string>, start: nat)
    requires part <= all
    ensures At(all, base, start) ==> At(part, base, start)
  {
    if At(all, base, start) {
      assert base[start..start + |part|] == all[..|part|];
    }
  }

  // Nothing has been ruled out so far: the documents the hunks relate to the base are those that
  // start with the output and that the remaining hunks relate to the rest of the base.
  ghost predicate SoFar(hunks: seq<Hunk>, k: nat, base: seq<string>, i: nat, output: seq<string>) {
    k <= |hunks| && i <= |base|
    && forall target {:trigger Relates(hunks, 0, 0, base, target)} ::
         Relates(hunks, 0, 0, base, target) <==> output <= target && Relates(hunks[k..], i, |output|, base, target)
  }

  // What a hunk asks for when the base is read up to line i and count lines are written.
  predicate Fits(h: Hunk, base: seq<string>, i: nat, count: nat) {
    var p := Position(h.oldStart);
    && i <= p <= |base| && Position(h.newStart) == count + (p - i)
    && At(OldSide(h.lines), base, p) && |OldSide(h.lines)| == h.oldCount && |NewSide(h.lines)| == h.newCount
  }

  function Longer(h: Hunk, base: seq<string>, i: nat, output: seq<string>): (r: seq<string>)
    requires Fits(h, base, i, |output|)
    ensures |r| == Position(h.newStart) + h.newCount
  {
    output + base[i..Position(h.oldStart)] + NewSide(h.lines)
  }

  lemma StandsFits(h: Hunk, base: seq<string>, i: nat, output: seq<string>, target: seq<string>)
    requires Stands(h, i, |output|, base, target)
    ensures Fits(h, base, i, |output|)
  {
    var p, q := Position(h.oldStart), Position(h.newStart);
    assert |base[i..p]| == p - i && |target[|output|..q]| == q - |output|;
  }

  lemma StandsExtends(h: Hunk, base: seq<string>, i: nat, output: seq<string>, target: seq<string>)
    requires output <= target && Stands(h, i, |output|, base, target) && Fits(h, base, i, |output|)
    ensures Longer(h, base, i, output) <= target
  {
    var q := Position(h.newStart);
    assert target[..q + h.newCount] == target[..|output|] + target[|output|..q] + target[q..q + h.newCount];
  }

  lemma ExtendsStands(h: Hunk, base: seq<string>, i: nat, output: seq<string>, target: seq<string>)
    requires Fits(h, base, i, |output|) && Longer(h, base, i, output) <= target
    ensures Stands(h, i, |output|, base, target)
  {
    var longer, q := Longer(h, base, i, output), Position(h.newStart);
    assert target[|output|..q] == longer[|output|..q] == base[i..Position(h.oldStart)];
    assert target[q..q + h.newCount] == longer[q..q + h.newCount] == NewSide(h.lines);
  }

  lemma HunkRelates(hunks: seq<Hunk>, base: seq<string>, i: nat, output: seq<string>, target: seq<string>)
    requires hunks != [] && output <= target
    ensures Relates(hunks, i, |output|, base, target) ==> Fits(hunks[0], base, i, |output|)
    ensures Fits(hunks[0], base, i, |output|) ==>
              var longer := Longer(hunks[0], base, i, output);
              Relates(hunks, i, |output|, base, target) <==>
              longer <= target && Relates(hunks[1..], Position(hunks[0].oldStart) + hunks[0].oldCount, |longer|, base, target)
  {
    if Stands(hunks[0], i, |output|, base, target) {
      StandsFits(hunks[0], base, i, output, target);
      StandsExtends(hunks[0], base, i, output, target);
    }
    if Fits(hunks[0], base, i, |output|) && Longer(hunks[0], base, i, output) <= target {
      ExtendsStands(hunks[0], base, i, output, target);
    }
  }

  lemma SoFarMore(hunks: seq<Hunk>, k: nat, base: seq<string>, i: nat, output: seq<string>)
    requires k < |hunks| && SoFar(hunks, k, base, i, output)
    ensures !Fits(hunks[k], base, i, |output|) ==> !Accepts(hunks, base)
    ensures Fits(hunks[k], base, i, |output|) ==>
              SoFar(hunks, k + 1, base, Position(hunks[k].oldStart) + hunks[k].oldCount, Longer(hunks[k], base, i, output))
  {
    assert hunks[k..][0] == hunks[k] && hunks[k..][1..] == hunks[k + 1..];
    forall target
      ensures !Fits(hunks[k], base, i, |output|) ==> !Relates(hunks, 0, 0, base, target)
      ensures Fits(hunks[k], base, i, |output|) ==>
                var longer := Longer(hunks[k], base, i, output);
                Relates(hunks, 0, 0, base, target) <==>
                longer <= target && Relates(hunks[k + 1..], Position(hunks[k].oldStart) + hunks[k].oldCount, |longer|, base, target)
    {
      if output <= target {
        HunkRelates(hunks[k..], base, i, output, target);
      } else if Fits(hunks[k], base, i, |output|) {
        PrefixOfPrefix(output, Longer(hunks[k], base, i, output), target);
      }
    }
  }

  lemma PrefixOfPrefix(a: seq<string>, b: seq<string>, c: seq<string>)
    ensures a <= b <= c ==> a <= c
  {
    if a <= b <= c {
      assert c[..|a|] == b[..|a|];
    }
  }

  lemma SoFarNext(hunks: seq<Hunk>, k: nat, base: seq<string>, i: nat, output: seq<string>, applied: Result<seq<string>>, next: nat)
    requires k < |hunks| && SoFar(hunks, k, base, i, output)
    requires applied.Success? <==> Fits(hunks[k], base, i, |output|)
    requires applied.Success? ==> next == Position(hunks[k].oldStart) + hunks[k].oldCount && applied.value == Longer(hunks[k], base, i, output)
    ensures if applied.Success? then SoFar(hunks, k + 1, base, next, applied.value) else !Accepts(hunks, base)
  {
    SoFarMore(hunks, k, base, i, output);
  }

  lemma SoFarEnd(hunks: seq<Hunk>, base: seq<string>, i: nat, output: seq<string>)
    requires SoFar(hunks, |hunks|, base, i, output)
    ensures Relates(hunks, 0, 0, base, output + base[i..])
  {
    assert hunks[|hunks|..] == [];
    assert (output + base[i..])[|output|..] == base[i..];
  }

  method ApplyHunk(baseLines: seq<string>, hunk: Hunk, baseIndex: nat, written: seq<string>) returns (r: Result<seq<string>>, next: nat)
    requires baseIndex <= |baseLines| && forall i {:trigger hunk.lines[i]} :: 0 <= i < |hunk.lines| ==> hunk.lines[i] != ""
    ensures r.Success? <==> Fits(hunk, baseLines, baseIndex, |written|)
    ensures r.Failure? ==> r.code == PatchBaseMismatch
    ensures r.Success? ==>
              && next == Position(hunk.oldStart) + hunk.oldCount <= |baseLines|
              && r.value == Longer(hunk, baseLines, baseIndex, written)
  {
    next := 0;
    var position := if hunk.oldStart == 0 then 0 else hunk.oldStart - 1;
    if position < baseIndex || position > |baseLines| {
      return Failure(PatchBaseMismatch), next;
    }
    var output := written + baseLines[baseIndex..position];
    if hunk.newStart > 0 && hunk.newStart - 1 != |output| {
      return Failure(PatchBaseMismatch), next;
    }
    if hunk.newStart == 0 && |output| != 0 {
      return Failure(PatchBaseMismatch), next;
    }
    var produced, oldUsed := ApplyLines(baseLines, position, hunk.lines);
    if produced.Failure? {
      return Failure(PatchBaseMismatch), next;
    }
    if oldUsed != hunk.oldCount || |produced.value| != hunk.newCount {
      return Failure(PatchBaseMismatch), next;
    }
    return Success(output + produced.value), position + oldUsed;
  }

  lemma AllApplied(hunks: seq<Hunk>, base: seq<string>, i: nat, output: seq<string>)
    requires SoFar(hunks, |hunks|, base, i, output)
    ensures Gives(hunks, base, Document(output + base[i..]))
  {
    SoFarEnd(hunks, base, i, output);
    GivesDocument(hunks, base, output + base[i..]);
  }

  // The hunks are accepted exactly when they relate the base to some document, and that is the result.
  method ApplyExactHunks(base: string, hunks: seq<Hunk>) returns (r: Result<string>)
    requires Marked(hunks)
    ensures r.Success? ==> Gives(hunks, DocumentLines(base), r.value)
    ensures r.Failure? ==> r.code == PatchBaseMismatch && !Accepts(hunks, DocumentLines(base))
  {
    var baseLines := DocumentLines(base);
    var output: seq<string> := [];
    var baseIndex := 0;
    var k := 0;
    SoFarStart(hunks, baseLines);
    while k < |hunks|
      invariant 0 <= k <= |hunks| && 0 <= baseIndex <= |baseLines|
      invariant SoFar(hunks, k, baseLines, baseIndex, output)
    {
      assert hunks[k] in hunks;
      var applied, next := ApplyHunk(baseLines, hunks[k], baseIndex, output);
      SoFarNext(hunks, k, baseLines, baseIndex, output, applied, next);
      if applied.Failure? {
        return Failure(PatchBaseMismatch);
      }
      output, baseIndex := applied.value, next;
      k := k + 1;
    }
    AllApplied(hunks, baseLines, baseIndex, output);
    output := output + baseLines[baseIndex..];
    if |output| == 0 {
      return Success("");
    }
    return Success(Join(output, LF) + [LF]);
  }

  lemma SoFarStart(hunks: seq<Hunk>, base: seq<string>)
    ensures SoFar(hunks, 0, base, 0, [])
  {
    assert hunks[0..] == hunks;
  }

  // The hunks leave no choice.
  lemma {:induction false} RelatesFunction(hunks: seq<Hunk>, i: nat, j: nat, base: seq<string>, a: seq<string>, b: seq<string>)
    requires Relates(hunks, i, j, base, a) && Relates(hunks, i, j, base, b) && j <= |a| && j <= |b| && a[..j] == b[..j]
    ensures a == b
    decreases |hunks|
  {
    if hunks == [] {
      assert a == a[..j] + a[j..] && b == b[..j] + b[j..];
    } else {
      var h := hunks[0];
      var p, q := Position(h.oldStart), Position(h.newStart);
      var e := q + h.newCount;
      assert a[..e] == a[..j] + a[j..q] + a[q..e] && b[..e] == b[..j] + b[j..q] + b[q..e];
      RelatesFunction(hunks[1..], p + h.oldCount, e, base, a, b);
    }
  }

  // The text the hunks turn the base into, if they accept it.
  ghost function PatchedText(hunks: seq<Hunk>, base: string): Option<string> {
    if Accepts(hunks, DocumentLines(base)) then
      var target :| Relates(hunks, 0, 0, DocumentLines(base), target);
      Some(Document(target))
    else None
  }

  lemma GivesPatched(hunks: seq<Hunk>, base: string, text: string)
    requires Gives(hunks, DocumentLines(base), text)
    ensures PatchedText(hunks, base) == Some(text)
  {
    var target :| Relates(hunks, 0, 0, DocumentLines(base), target) && text == Document(target);
    var other :| Relates(hunks, 0, 0, DocumentLines(base), other) && PatchedText(hunks, base) == Some(Document(other));
    RelatesFunction(hunks, 0, 0, DocumentLines(base), target, other);
  }

  // ----- undoing a patch

  function SwapLine(line: string): string {
    if line == "" then ""
    else if line[0] == '-' then "+" + line[1..]
    else if line[0] == '+' then "-" + line[1..]
    else line
  }

  function SwapLines(lines: seq<string>): (r: seq<string>)
    ensures |r| == |lines| && forall i {:trigger r[i]} :: 0 <= i < |lines| ==> r[i] == SwapLine(lines[i])
  {
    seq(|lines|, i requires 0 <= i < |lines| => SwapLine(lines[i]))
  }

  function Swap(h: Hunk): Hunk {
    Hunk(h.newStart, h.newCount, h.oldStart, h.oldCount, SwapLines(h.lines))
  }

  function SwapAll(hunks: seq<Hunk>): (r: seq<Hunk>)
    ensures |r| == |hunks| && forall i {:trigger r[i]} :: 0 <= i < |hunks| ==> r[i] == Swap(hunks[i])
  {
    seq(|hunks|, i requires 0 <= i < |hunks| => Swap(hunks[i]))
  }

  lemma {:induction false} SidesSwap(lines: seq<string>)
    ensures OldSide(SwapLines(lines)) == NewSide(lines) && NewSide(SwapLines(lines)) == OldSide(lines)
  {
    if lines != [] {
      SidesSwap(lines[1..]);
      assert SwapLines(lines)[1..] == SwapLines(lines[1..]);
      if lines[0] != "" {
        assert SwapLine(lines[0])[1..] == lines[0][1..];
      }
    }
  }

  lemma {:induction false} SwapRelates(hunks: seq<Hunk>, i: nat, j: nat, a: seq<string>, b: seq<string>)
    requires Relates(hunks, i, j, a, b)
    ensures Relates(SwapAll(hunks), j, i, b, a)
    decreases |hunks|
  {
    if hunks != [] {
      var h := hunks[0];
      SidesSwap(h.lines);
      assert SwapAll(hunks)[1..] == SwapAll(hunks[1..]) && SwapAll(hunks)[0] == Swap(h);
      SwapRelates(hunks[1..], Position(h.oldStart) + h.oldCount, Position(h.newStart) + h.newCount, a, b);
    }
  }

  ghost predicate SingleLines(hunks: seq<Hunk>) {
    forall h :: h in hunks ==> OneLiners(h.lines)
  }

  lemma {:induction false} RelatedOneLiners(hunks: seq<Hunk>, i: nat, j: nat, a: seq<string>, b: seq<string>)
    requires Relates(hunks, i, j, a, b) && OneLiners(a) && SingleLines(hunks)
    ensures forall k {:trigger b[k]} :: j <= k < |b| ==> LF !in b[k]
    decreases |hunks|
  {
    if hunks == [] {
      forall k | j <= k < |b| ensures LF !in b[k] {
        assert b[k] == b[j..][k - j] == a[i..][k - j] == a[i + k - j];
      }
    } else {
      var h := hunks[0];
      var p, q := Position(h.oldStart), Position(h.newStart);
      assert h in hunks;
      SidesOneLiners(h.lines);
      RelatedOneLiners(hunks[1..], p + h.oldCount, q + h.newCount, a, b);
      forall k | j <= k < q + h.newCount ensures LF !in b[k] {
        if k < q {
          assert b[k] == b[j..q][k - j] == a[i..p][k - j] == a[i + k - j];
        } else {
          assert b[k] == b[q..q + h.newCount][k - q] == NewSide(h.lines)[k - q];
        }
      }
    }
  }

  // The swapped hunks are accepted by the patched document and give the base back, its last line ended.
  lemma UndoRestores(base: string, hunks: seq<Hunk>, patched: seq<string>)
    requires SingleLines(hunks) && Relates(hunks, 0, 0, DocumentLines(base), patched)
    ensures Relates(SwapAll(hunks), 0, 0, DocumentLines(Document(patched)), DocumentLines(base))
    ensures Document(DocumentLines(base)) == if base == "" || base[|base| - 1] == LF then base else base + [LF]
  {
    DocumentLinesOneLiners(base);
    RelatedOneLiners(hunks, 0, 0, DocumentLines(base), patched);
    LinesOfDocument(patched);
    SwapRelates(hunks, 0, 0, DocumentLines(base), patched);
    DocumentOfLines(base);
  }

  // ----- hunks as a diff tool numbers them

  // A block of an edit script: lines kept outside any hunk, then the lines of a hunk.
  datatype Block = Block(kept: seq<string>, lines: seq<string>)

  ghost predicate Busy(script: seq<Block>) {
    forall b :: b in script ==> OldSide(b.lines) != [] || NewSide(b.lines) != []
  }

  function Before(script: seq<Block>, tail: seq<string>): seq<string> {
    if script == [] then tail else script[0].kept + OldSide(script[0].lines) + Before(script[1..], tail)
  }

  function After(script: seq<Block>, tail: seq<string>): seq<string> {
    if script == [] then tail else script[0].kept + NewSide(script[0].lines) + After(script[1..], tail)
  }

  // The unified-diff convention: an empty range is numbered by the line before it.
  function RangeStart(position: nat, count: nat): nat {
    if count == 0 then position else position + 1
  }

  function Cut(script: seq<Block>, i: nat, j: nat): seq<Hunk> {
    if script == [] then []
    else
      var p, q := i + |script[0].kept|, j + |script[0].kept|;
      var m, n := |OldSide(script[0].lines)|, |NewSide(script[0].lines)|;
      [Hunk(RangeStart(p, m), m, RangeStart(q, n), n, script[0].lines)] + Cut(script[1..], p + m, q + n)
  }

  // No empty range except at the start of its document.
  predicate Anchored(hunks: seq<Hunk>) {
    forall h :: h in hunks ==> (h.oldCount == 0 ==> h.oldStart == 0) && (h.newCount == 0 ==> h.newStart == 0)
  }

  lemma BlockInPlace(a: seq<string>, kept: seq<string>, side: seq<string>, rest: seq<string>)
    ensures var all := a + (kept + side + rest);
            && all == (a + kept + side) + rest
            && all[|a|..|a| + |kept|] == kept && At(side, all, |a| + |kept|)
  {
  }

  lemma CutHead(script: seq<Block>, i: nat, j: nat)
    requires script != [] && Anchored(Cut(script, i, j))
    ensures var h, kept := Cut(script, i, j)[0], |script[0].kept|;
            && h.lines == script[0].lines && h.oldCount == |OldSide(h.lines)| && h.newCount == |NewSide(h.lines)|
            && Position(h.oldStart) == i + kept && Position(h.newStart) == j + kept
            && Cut(script, i, j)[1..] == Cut(script[1..], i + kept + h.oldCount, j + kept + h.newCount)
            && Anchored(Cut(script, i, j)[1..])
  {
    assert Cut(script, i, j)[0] in Cut(script, i, j);
  }

  lemma HunkInPlace(hunks: seq<Hunk>, a: seq<string>, b: seq<string>, kept: seq<string>, restOld: seq<string>, restNew: seq<string>)
    requires hunks != []
    requires var h := hunks[0];
             && h.oldCount == |OldSide(h.lines)| && h.newCount == |NewSide(h.lines)|
             && Position(h.oldStart) == |a| + |kept| && Position(h.newStart) == |b| + |kept|
             && Relates(hunks[1..], |a| + |kept| + h.oldCount, |b| + |kept| + h.newCount,
                        (a + kept + OldSide(h.lines)) + restOld, (b + kept + NewSide(h.lines)) + restNew)
    ensures Relates(hunks, |a|, |b|, a + (kept + OldSide(hunks[0].lines) + restOld), b + (kept + NewSide(hunks[0].lines) + restNew))
  {
    BlockInPlace(a, kept, OldSide(hunks[0].lines), restOld);
    BlockInPlace(b, kept, NewSide(hunks[0].lines), restNew);
  }

  // Anchored hunks turn the script's old document into its new one.
  lemma {:induction false} CutApplies(script: seq<Block>, tail: seq<string>, a: seq<string>, b: seq<string>)
    requires Anchored(Cut(script, |a|, |b|))
    ensures Relates(Cut(script, |a|, |b|), |a|, |b|, a + Before(script, tail), b + After(script, tail))
  {
    if script == [] {
      assert (a + tail)[|a|..] == tail && (b + tail)[|b|..] == tail;
    } else {
      var kept := script[0].kept;
      var a', b' := a + kept + OldSide(script[0].lines), b + kept + NewSide(script[0].lines);
      CutHead(script, |a|, |b|);
      assert Cut(script, |a|, |b|)[1..] == Cut(script[1..], |a'|, |b'|);
      CutApplies(script[1..], tail, a', b');
      HunkInPlace(Cut(script, |a|, |b|), a, b, kept, Before(script[1..], tail), After(script[1..], tail));
    }
  }

  lemma CutParts(script: seq<Block>, i: nat, j: nat)
    requires script != []
    ensures var h, p, q := Cut(script, i, j)[0], i + |script[0].kept|, j + |script[0].kept|;
            && h.lines == script[0].lines
            && h.oldStart == RangeStart(p, h.oldCount) && h.newStart == RangeStart(q, h.newCount)
            && h.oldCount == |OldSide(h.lines)| && h.newCount == |NewSide(h.lines)|
            && Cut(script, i, j) == [h] + Cut(script[1..], p + h.oldCount, q + h.newCount)
  {
  }

  lemma OnlyAnchoredStand(h: Hunk, i: nat, j: nat, kept: nat, base: seq<string>, target: seq<string>)
    requires h.oldStart == RangeStart(i + kept, h.oldCount) && h.newStart == RangeStart(j + kept, h.newCount)
    requires Stands(h, i, j, base, target) && h.oldCount + h.newCount > 0
    ensures h.oldCount == 0 ==> h.oldStart == 0
    ensures h.newCount == 0 ==> h.newStart == 0
    ensures Position(h.oldStart) == i + kept && Position(h.newStart) == j + kept
  {
    assert |base[i..Position(h.oldStart)]| == |target[j..Position(h.newStart)]|;
  }

  // Other hunks are refused, whatever they say.
  lemma {:induction false} CutRefused(script: seq<Block>, i: nat, j: nat, base: seq<string>, target: seq<string>)
    requires Busy(script) && Relates(Cut(script, i, j), i, j, base, target)
    ensures Anchored(Cut(script, i, j))
  {
    if script != [] {
      CutParts(script, i, j);
      var h := Cut(script, i, j)[0];
      assert script[0] in script;
      OnlyAnchoredStand(h, i, j, |script[0].kept|, base, target);
      var e, f := Position(h.oldStart) + h.oldCount, Position(h.newStart) + h.newCount;
      assert Cut(script, i, j)[1..] == Cut(script[1..], e, f);
      assert Busy(script[1..]);
      CutRefused(script[1..], e, f, base, target);
    }
  }

  // Git-numbered hunks are accepted exactly when no empty range stands inside a document, that is
  // unless an insertion or a deletion without context is not at the start; then the result is right.
  lemma GitHunksAccepted(script: seq<Block>, tail: seq<string>)
    requires Busy(script)
    ensures Anchored(Cut(script, 0, 0)) <==> Accepts(Cut(script, 0, 0), Before(script, tail))
    ensures Anchored(Cut(script, 0, 0)) ==> Relates(Cut(script, 0, 0), 0, 0, Before(script, tail), After(script, tail))
  {
    if Anchored(Cut(script, 0, 0)) {
      CutApplies(script, tail, [], []);
      assert [] + Before(script, tail) == Before(script, tail) && [] + After(script, tail) == After(script, tail);
    }
    if target :| Relates(Cut(script, 0, 0), 0, 0, Before(script, tail), target) {
      CutRefused(script, 0, 0, Before(script, tail), target);
    }
  }

  // A correct diff without context lines (diff -U0) that is refused: one line appended after "a".
  lemma AppendWithoutContextRefused()
    ensures var script := [Block(["a"], ["+b"])];
            && Cut(script, 0, 0) == [Hunk(1, 0, 2, 1, ["+b"])]
            && Before(script, []) == ["a"] && After(script, []) == ["a", "b"]
            && !Accepts(Cut(script, 0, 0), ["a"])
  {
    var script := [Block(["a"], ["+b"])];
    assert script[1..] == [] && ["+b"][1..] == [];
    assert OldSide(["+b"]) == [] && NewSide(["+b"]) == ["b"];
    assert ["a"] + [] + [] == ["a"] && ["a"] + ["b"] + [] == ["a", "b"];
    assert Cut(script, 0, 0) == [Hunk(1, 0, 2, 1, ["+b"])];
    assert Before(script, []) == ["a"];
    GitHunksAccepted(script, []);
    var h := Hunk(1, 0, 2, 1, ["+b"]);
    assert h in Cut(script, 0, 0);
  }
}
