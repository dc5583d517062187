// Property rules of a graph type (internal/kernel/compiler_schema.go, snapshot.go, model.go): how a
// property's name, type and required flag are printed, and how the engine's display of them is read.

module TypeText {
  import opened Outcomes
  import opened Text

  // ----- strings.TrimSpace on bytes

  predicate IsSpace(c: char) {
    c == ' ' || '\t' <= c <= '\r'
  }

  predicate Blank(s: string) {
    forall k :: 0 <= k < |s| ==> IsSpace(s[k])
  }

  predicate Trimmed(s: string) {
    s != [] ==> !IsSpace(s[0]) && !IsSpace(s[|s| - 1])
  }

  function TrimLeft(s: string): string {
    if s != [] && IsSpace(s[0]) then TrimLeft(s[1..]) else s
  }

  function TrimRight(s: string): string {
    if s != [] && IsSpace(s[|s| - 1]) then TrimRight(s[..|s| - 1]) else s
  }

  function Trim(s: string): string {
    TrimRight(TrimLeft(s))
  }

  lemma {:induction false} TrimRightIs(t: string, b: string)
    requires Blank(b) && (t != [] ==> !IsSpace(t[|t| - 1]))
    ensures TrimRight(t + b) == t
  {
    if b == [] {
      assert t + b == t;
    } else {
      var n := |b| - 1;
      assert (t + b)[..|t + b| - 1] == t + b[..n];
      TrimRightIs(t, b[..n]);
    }
  }

  lemma {:induction false} TrimIs(a: string, t: string, b: string)
    requires Blank(a) && Trimmed(t) && Blank(b)
    ensures Trim(a + t + b) == t
  {
    if a != [] {
      assert (a + t + b)[1..] == a[1..] + t + b;
      TrimIs(a[1..], t, b);
    } else if t != [] {
      assert a + t + b == t + b && TrimLeft(t + b) == t + b;
      TrimRightIs(t, b);
    } else if b != [] {
      assert a + t + b == b && a + t + b[1..] == b[1..];
      TrimIs(a, t, b[1..]);
    }
  }

  lemma {:induction false} TrimLeftParts(s: string) returns (a: string)
    ensures Blank(a) && s == a + TrimLeft(s) && (TrimLeft(s) != [] ==> !IsSpace(TrimLeft(s)[0]))
  {
    a := "";
    if s != [] && IsSpace(s[0]) {
      var rest := TrimLeftParts(s[1..]);
      a := [s[0]] + rest;
    }
  }

  lemma {:induction false} TrimRightParts(s: string) returns (b: string)
    ensures Blank(b) && s == TrimRight(s) + b && (TrimRight(s) != [] ==> !IsSpace(TrimRight(s)[|TrimRight(s)| - 1]))
  {
    b := "";
    if s != [] && IsSpace(s[|s| - 1]) {
      var rest := TrimRightParts(s[..|s| - 1]);
      b := rest + [s[|s| - 1]];
    }
  }

  lemma TrimParts(s: string) returns (a: string, b: string)
    ensures Blank(a) && Blank(b) && s == a + Trim(s) + b && Trimmed(Trim(s))
  {
    a := TrimLeftParts(s);
    b := TrimRightParts(TrimLeft(s));
    assert TrimLeft(s) == Trim(s) + b;
    assert Trim(s) != [] ==> TrimLeft(s)[0] == Trim(s)[0];
  }

  // Blanks around a text do not matter to trimming.
  lemma TrimIgnores(a: string, s: string, b: string)
    requires Blank(a) && Blank(b)
    ensures Trim(a + s + b) == Trim(s)
  {
    var x, y := TrimParts(s);
    assert a + s + b == (a + x) + Trim(s) + (y + b);
    TrimIs(a + x, Trim(s), y + b);
  }

  // ----- brackets

  // The bracket depth after reading p from depth d; none if p closes too much or has a bar outside brackets.
  function Reach(p: string, d: nat): Option<nat> {
    if p == [] then Some(d)
    else if p[0] == '<' then Reach(p[1..], d + 1)
    else if p[0] == '>' then if d == 0 then None else Reach(p[1..], d - 1)
    else if p[0] == '|' && d == 0 then None
    else Reach(p[1..], d)
  }

  predicate Closed(p: string) {
    Reach(p, 0) == Some(0)
  }

  lemma {:induction false} ReachConcat(a: string, b: string, d: nat)
    ensures Reach(a + b, d) == match Reach(a, d) case None => None case Some(e) => Reach(b, e)
  {
    if a == [] {
      assert a + b == b;
    } else {
      assert (a + b)[0] == a[0] && (a + b)[1..] == a[1..] + b;
      if a[0] == '<' {
        ReachConcat(a[1..], b, d + 1);
      } else if a[0] == '>' {
        if d > 0 {
          ReachConcat(a[1..], b, d - 1);
        }
      } else {
        ReachConcat(a[1..], b, d);
      }
    }
  }

  predicate Plain(p: string) {
    '<' !in p && '>' !in p && '|' !in p
  }

  lemma {:induction false} ReachPlain(p: string, d: nat)
    requires Plain(p)
    ensures Reach(p, d) == Some(d)
  {
    if p != [] {
      ReachPlain(p[1..], d);
    }
  }

  lemma ClosedWithin(a: string, p: string, b: string)
    requires Plain(a) && Plain(b)
    ensures Closed(a + p + b) <==> Closed(p)
  {
    ReachPlain(a, 0);
    ReachConcat(a, p, 0);
    ReachConcat(a + p, b, 0);
    if Reach(p, 0).Some? {
      ReachPlain(b, Reach(p, 0).value);
    }
  }

  // ----- splitting at the bars outside brackets

  function Prepend(p: string, rest: Option<seq<string>>): Option<seq<string>>
    requires rest.Some? ==> rest.value != []
  {
    match rest
    case None => None
    case Some(ps) => Some([p + ps[0]] + ps[1..])
  }

  function TopSplit(s: string, d: nat): (r: Option<seq<string>>)
    ensures r.Some? ==> r.value != []
  {
    if s == [] then if d == 0 then Some([""]) else None
    else if s[0] == '<' then Prepend([s[0]], TopSplit(s[1..], d + 1))
    else if s[0] == '>' then if d == 0 then None else Prepend([s[0]], TopSplit(s[1..], d - 1))
    else if s[0] == '|' && d == 0 then
      match TopSplit(s[1..], 0)
      case None => None
      case Some(ps) => Some([""] + ps)
    else Prepend([s[0]], TopSplit(s[1..], d))
  }

  lemma PrependTwice(a: string, b: string, rest: Option<seq<string>>)
    requires rest.Some? ==> rest.value != []
    ensures Prepend(a, Prepend(b, rest)) == Prepend(a + b, rest)
  {
    if rest.Some? {
      assert a + (b + rest.value[0]) == a + b + rest.value[0];
    }
  }

  lemma {:induction false} SplitPiece(p: string, d: nat, rest: string)
    requires Reach(p, d).Some?
    ensures TopSplit(p + rest, d) == Prepend(p, TopSplit(rest, Reach(p, d).value))
  {
    if p == [] {
      assert p + rest == rest;
      var tail := TopSplit(rest, d);
      if tail.Some? {
        assert p + tail.value[0] == tail.value[0];
        assert [tail.value[0]] + tail.value[1..] == tail.value;
      }
    } else {
      assert (p + rest)[0] == p[0] && (p + rest)[1..] == p[1..] + rest && p == [p[0]] + p[1..];
      var e := if p[0] == '<' then d + 1 else if p[0] == '>' then d - 1 else d;
      SplitPiece(p[1..], e, rest);
      PrependTwice([p[0]], p[1..], TopSplit(rest, Reach(p, d).value));
    }
  }

  // Closed pieces joined by bars are split into those pieces.
  lemma {:induction false} SplitOfJoin(ps: seq<string>)
    requires ps != [] && forall k :: 0 <= k < |ps| ==> Closed(ps[k])
    ensures TopSplit(Join(ps, '|'), 0) == Some(ps)
  {
    if |ps| == 1 {
      SplitPiece(ps[0], 0, "");
      assert ps[0] + "" == ps[0];
      assert [ps[0]] + [""][1..] == ps;
    } else {
      var rest := Join(ps[1..], '|');
      SplitOfJoin(ps[1..]);
      SplitPiece(ps[0], 0, ['|'] + rest);
      assert (['|'] + rest)[1..] == rest;
      assert ps[0] + ['|'] + rest == ps[0] + (['|'] + rest);
      assert ps[0] + "" == ps[0] && ([""] + ps[1..])[1..] == ps[1..];
      assert [ps[0]] + ps[1..] == ps;
    }
  }

  // And no other way of splitting is found.
  lemma {:induction false} SplitIsJoin(s: string, d: nat)
    requires TopSplit(s, d).Some?
    ensures var ps := TopSplit(s, d).value;
            && Join(ps, '|') == s && Reach(ps[0], d) == Some(0)
            && forall k :: 1 <= k < |ps| ==> Closed(ps[k])
  {
    if s != [] {
      var e := if s[0] == '<' then d + 1 else if s[0] == '>' then d - 1 else d;
      SplitIsJoin(s[1..], e);
      var rest := TopSplit(s[1..], e).value;
      var ps := TopSplit(s, d).value;
      if s[0] == '|' && d == 0 {
        assert ps[1..] == rest;
        assert Join(ps, '|') == [] + ['|'] + Join(rest, '|') == ['|'] + s[1..];
      } else {
        assert ps[1..] == rest[1..] && ps[0] == [s[0]] + rest[0];
        assert ps[0][1..] == rest[0];
        assert Join(ps, '|') == [s[0]] + Join(rest, '|');
      }
    }
  }

  function TrimAll(ps: seq<string>): (r: seq<string>)
    ensures |r| == |ps| && forall k {:trigger r[k]} :: 0 <= k < |r| ==> r[k] == Trim(ps[k])
  {
    seq(|ps|, k requires 0 <= k < |ps| => Trim(ps[k]))
  }

  // The members of a type: the trimmed pieces between the outer bars, none of them empty.
  function Members(rule: string): Result<seq<string>> {
    match TopSplit(rule, 0)
    case None => Failure(Consistency)
    case Some(ps) => if "" in TrimAll(ps) then Failure(Consistency) else Success(TrimAll(ps))
  }

  // What is left to read continues the piece begun at start.
  lemma SplitAt(rule: string, done: seq<string>, start: nat, index: nat, depth: nat)
    requires start <= index < |rule| && rule[index] == '|' && depth == 0
    requires TopSplit(rule, 0) == Continue(done, rule[start..index], TopSplit(rule[index..], depth))
    ensures TopSplit(rule, 0) == Continue(done + [rule[start..index]], "", TopSplit(rule[index + 1..], 0))
  {
    assert rule[index..][1..] == rule[index + 1..];
    var rest := TopSplit(rule[index + 1..], 0);
    if rest.Some? {
      var ps := rest.value;
      assert ([""] + ps)[1..] == ps;
      assert rule[start..index] + "" == rule[start..index] && "" + ps[0] == ps[0];
      assert done + [rule[start..index]] + ps == done + [rule[start..index]] + ([ps[0]] + ps[1..]);
      assert done + [rule[start..index] + ""] + ps == (done + [rule[start..index]]) + ["" + ps[0]] + ps[1..];
    }
  }

  function Continue(done: seq<string>, current: string, rest: Option<seq<string>>): Option<seq<string>>
    requires rest.Some? ==> rest.value != []
  {
    match rest
    case None => None
    case Some(ps) => Some(done + [current + ps[0]] + ps[1..])
  }

  lemma SplitOn(rule: string, done: seq<string>, start: nat, index: nat, depth: nat, next: nat)
    requires start <= index < |rule| && !(rule[index] == '|' && depth == 0) && !(rule[index] == '>' && depth == 0)
    requires next == if rule[index] == '<' then depth + 1 else if rule[index] == '>' then depth - 1 else depth
    requires TopSplit(rule, 0) == Continue(done, rule[start..index], TopSplit(rule[index..], depth))
    ensures TopSplit(rule, 0) == Continue(done, rule[start..index + 1], TopSplit(rule[index + 1..], next))
  {
    assert rule[index..][1..] == rule[index + 1..];
    var rest := TopSplit(rule[index + 1..], next);
    if rest.Some? {
      assert rule[start..index + 1] + rest.value[0] == rule[start..index] + ([rule[index]] + rest.value[0]);
      assert ([[rule[index]] + rest.value[0]] + rest.value[1..])[1..] == rest.value[1..];
    }
  }

  lemma EmptyMember(rule: string, done: seq<string>, current: string, rest: Option<seq<string>>)
    requires rest.Some? ==> rest.value != []
    requires TopSplit(rule, 0) == Continue(done, current, rest) && Trim(current) == ""
    requires rest.Some? ==> rest.value[0] == ""
    ensures Members(rule).Failure?
  {
    if rest.Some? {
      var ps := TopSplit(rule, 0).value;
      assert ps[|done|] == current + "" == current;
      assert TrimAll(ps)[|done|] == "";
    }
  }

  // splitTopLevelTypeUnion.
  method SplitTopLevelTypeUnion(rule: string) returns (r: Result<seq<string>>)
    ensures r == Members(rule)
  {
    var members: seq<string> := [];
    ghost var done: seq<string> := [];
    var depth, start, index := 0, 0, 0;
    assert rule[0..] == rule && rule[0..0] == "";
    if TopSplit(rule, 0).Some? {
      ghost var ps := TopSplit(rule, 0).value;
      assert "" + ps[0] == ps[0] && done + [ps[0]] + ps[1..] == ps;
    }
    while index < |rule|
      invariant 0 <= start <= index <= |rule| && depth >= 0
      invariant TopSplit(rule, 0) == Continue(done, rule[start..index], TopSplit(rule[index..], depth))
      invariant members == TrimAll(done) && "" !in members
    {
      var c := rule[index];
      ghost var was := depth;
      if c == '<' {
        depth := depth + 1;
      } else if c == '>' {
        depth := depth - 1;
        if depth < 0 {
          return Failure(Consistency);
        }
      }
      if c == '|' && depth == 0 {
        var member := Trim(rule[start..index]);
        SplitAt(rule, done, start, index, was);
        if member == "" {
          assert TopSplit(rule[index..], was).Some? ==> TopSplit(rule[index..], was).value[0] == "";
          EmptyMember(rule, done, rule[start..index], TopSplit(rule[index..], was));
          return Failure(Consistency);
        }
        done := done + [rule[start..index]];
        members := members + [member];
        start := index + 1;
        assert rule[start..index + 1] == "";
      } else {
        SplitOn(rule, done, start, index, was, depth);
      }
      index := index + 1;
    }
    assert rule[index..] == "";
    if depth != 0 {
      return Failure(Consistency);
    }
    assert rule[start..index] == rule[start..];
    assert TopSplit("", 0) == Some([""]);
    var last := Trim(rule[start..]);
    if last == "" {
      EmptyMember(rule, done, rule[start..], TopSplit("", 0));
      return Failure(Consistency);
    }
    assert rule[start..] + "" == rule[start..];
    assert done + [rule[start..]] + [""][1..] == done + [rule[start..]];
    assert TopSplit(rule, 0) == Some(done + [rule[start..]]);
    members := members + [last];
    assert members == TrimAll(done + [rule[start..]]);
    return Success(members);
  }

  // A member is closed, trimmed and not empty; and such members joined are found again.
  predicate GoodMember(m: string) {
    Closed(m) && Trimmed(m) && m != ""
  }

  lemma MembersAreGood(rule: string)
    requires Members(rule).Success?
    ensures var ms := Members(rule).value;
            ms != [] && forall k :: 0 <= k < |ms| ==> GoodMember(ms[k])
  {
    SplitIsJoin(rule, 0);
    var ps := TopSplit(rule, 0).value;
    var ms := Members(rule).value;
    forall k | 0 <= k < |ms| ensures GoodMember(ms[k]) {
      assert Closed(ps[k]);
      var a, b := TrimParts(ps[k]);
      BlankPlain(a);
      BlankPlain(b);
      ClosedWithin(a, ms[k], b);
      assert ms[k] in ms;
    }
  }

  lemma BlankPlain(a: string)
    requires Blank(a)
    ensures Plain(a)
  {
  }

  // Pieces around good members are read as the members.
  lemma MembersOfPieces(ps: seq<string>, ms: seq<string>)
    requires ps != [] && |ms| == |ps| && forall k :: 0 <= k < |ps| ==> Closed(ps[k]) && Trim(ps[k]) == ms[k] && ms[k] != ""
    ensures Members(Join(ps, '|')) == Success(ms)
  {
    SplitOfJoin(ps);
    assert TrimAll(ps) == ms;
  }

  lemma {:induction false} MembersTrimmed(rule: string)
    requires Members(rule).Success?
    ensures Members(Trim(rule)) == Members(rule) && Trim(rule) != ""
  {
    var a, b := TrimParts(rule);
    MembersIgnore(a, Trim(rule), b);
    assert TopSplit("", 0) == Some([""]) && TrimAll([""])[0] == "";
  }

  // The split with b behind its last piece.
  function Trail(b: string, rest: Option<seq<string>>): (r: Option<seq<string>>)
    requires rest.Some? ==> rest.value != []
    ensures r.Some? ==> r.value != []
  {
    match rest
    case None => None
    case Some(ps) => Some(ps[..|ps| - 1] + [ps[|ps| - 1] + b])
  }

  lemma PrependTrail(c: char, b: string, rest: Option<seq<string>>)
    requires rest.Some? ==> rest.value != []
    ensures Trail(b, Prepend([c], rest)) == Prepend([c], Trail(b, rest))
  {
    if rest.Some? {
      var ps := rest.value;
      assert [c] + ps[0] + b == [c] + (ps[0] + b);
      assert Trail(b, Prepend([c], rest)).value == Prepend([c], Trail(b, rest)).value;
    }
  }

  lemma BarTrail(b: string, ps: seq<string>)
    requires ps != []
    ensures Trail(b, Some([""] + ps)) == Some([""] + Trail(b, Some(ps)).value)
  {
    assert Trail(b, Some([""] + ps)).value == [""] + Trail(b, Some(ps)).value;
  }

  // Blanks around a type do not change its members.
  lemma MembersIgnore(a: string, s: string, b: string)
    requires Blank(a) && Blank(b)
    ensures Members(a + s + b) == Members(s)
  {
    BlankPlain(a);
    BlankPlain(b);
    ReachPlain(a, 0);
    SplitPiece(a, 0, s + b);
    assert a + s + b == a + (s + b);
    BackIgnored(s, b, 0);
    var inner := TopSplit(s, 0);
    if inner.Some? {
      var ps := inner.value;
      var n := |ps| - 1;
      var back := ps[..n] + [ps[n] + b];
      var whole := [a + back[0]] + back[1..];
      forall k | 0 <= k < |ps| ensures Trim(whole[k]) == Trim(ps[k]) {
        var x := if k == 0 then a else "";
        var y := if k == n then b else "";
        assert whole[k] == x + ps[k] + y;
        TrimIgnores(x, ps[k], y);
      }
      assert TrimAll(whole) == TrimAll(ps);
    }
  }

  lemma {:induction false} BackIgnored(s: string, b: string, d: nat)
    requires Blank(b)
    ensures TopSplit(s + b, d) == Trail(b, TopSplit(s, d))
  {
    if s == [] {
      assert s + b == b;
      BlankPlain(b);
      ReachPlain(b, d);
      SplitPiece(b, d, "");
      assert b + "" == b && "" + b == b;
      assert [""][..0] + [b] == [b] && [b] + [""][1..] == [b];
    } else {
      assert (s + b)[0] == s[0] && (s + b)[1..] == s[1..] + b;
      if !(s[0] == '>' && d == 0) {
        var e := if s[0] == '<' then d + 1 else if s[0] == '>' then d - 1 else d;
        BackIgnored(s[1..], b, e);
        var rest := TopSplit(s[1..], e);
        PrependTrail(s[0], b, rest);
        if rest.Some? {
          BarTrail(b, rest.value);
        }
      }
    }
  }

  // ----- joining members

  // strings.Join(members, " | ").
  function Union(ms: seq<string>): string {
    if ms == [] then ""
    else if |ms| == 1 then ms[0]
    else ms[0] + " | " + Union(ms[1..])
  }

  function Padded(ms: seq<string>): seq<string> {
    if ms == [] then []
    else if |ms| == 1 then [" " + ms[0]]
    else [" " + ms[0] + " "] + Padded(ms[1..])
  }

  lemma {:induction false} PaddedJoined(ms: seq<string>)
    requires ms != [] && forall k :: 0 <= k < |ms| ==> GoodMember(ms[k])
    ensures Padded(ms) != [] && Join(Padded(ms), '|') == " " + Union(ms) && |Padded(ms)| == |ms|
    ensures forall k :: 0 <= k < |ms| ==> Closed(Padded(ms)[k]) && Trim(Padded(ms)[k]) == ms[k]
  {
    PaddedMember(ms[0]);
    if |ms| > 1 {
      PaddedJoined(ms[1..]);
      var rest := Padded(ms[1..]);
      assert Padded(ms)[1..] == rest;
      BarBetween(ms[0], Union(ms[1..]));
    }
  }

  lemma PaddedMember(m: string)
    requires GoodMember(m)
    ensures Closed(" " + m) && Closed(" " + m + " ") && Trim(" " + m) == m && Trim(" " + m + " ") == m
  {
    TrimIs(" ", m, "");
    TrimIs(" ", m, " ");
    ClosedWithin(" ", m, "");
    ClosedWithin(" ", m, " ");
    assert " " + m + "" == " " + m;
  }

  lemma BarBetween(m: string, rest: string)
    ensures (" " + m + " ") + ['|'] + (" " + rest) == " " + (m + " | " + rest)
  {
    assert " | " == " " + ['|'] + " ";
  }

  // Members joined by " | " are read as those members: the printed form of a type is canonical.
  lemma UnionMembers(ms: seq<string>)
    requires ms != [] && forall k :: 0 <= k < |ms| ==> GoodMember(ms[k])
    ensures Members(Union(ms)) == Success(ms)
  {
    PaddedJoined(ms);
    MembersOfPieces(Padded(ms), ms);
    MembersIgnore(" ", Union(ms), "");
    assert " " + Union(ms) + "" == " " + Union(ms);
  }
}

module PropertyRule {
  import opened Outcomes
  import opened Text
  import opened TypeText

  const Separator := " :: "
  const NotNull := " NOT NULL"

  // ----- names

  // strings.ReplaceAll(value, "`", "``").
  function Doubled(name: string): string {
    if name == [] then ""
    else (if name[0] == '`' then "``" else [name[0]]) + Doubled(name[1..])
  }

  // quoteCypherIdentifier.
  function QuoteCypherIdentifier(name: string): string {
    "`" + Doubled(name) + "`"
  }

  // What a quoted name and the text after it read as, from behind the opening backtick.
  function Unquoted(s: string): Option<(string, string)> {
    if s == [] then None
    else if s[0] != '`' then
      match Unquoted(s[1..])
      case None => None
      case Some(p) => Some(([s[0]] + p.0, p.1))
    else if |s| > 1 && s[1] == '`' then
      match Unquoted(s[2..])
      case None => None
      case Some(p) => Some((['`'] + p.0, p.1))
    else Some(("", s[1..]))
  }

  lemma {:induction false} DoubledUnquoted(name: string, rest: string)
    requires rest != [] ==> rest[0] != '`'
    ensures Unquoted(Doubled(name) + "`" + rest) == Some((name, rest))
  {
    var s := Doubled(name) + "`" + rest;
    if name == [] {
      assert s == ['`'] + rest && s[1..] == rest;
    } else {
      var tail := Doubled(name[1..]) + "`" + rest;
      DoubledUnquoted(name[1..], rest);
      assert name == [name[0]] + name[1..];
      if name[0] == '`' {
        assert s == "``" + tail && s[2..] == tail;
      } else {
        assert s == [name[0]] + tail && s[1..] == tail;
      }
    }
  }

  // The first place of " :: ".
  function SeparatorIn(s: string): (r: Option<nat>)
    ensures r.Some? ==> r.value + |Separator| <= |s| && s[r.value..r.value + |Separator|] == Separator
    ensures r.Some? ==> forall k :: 0 <= k < r.value ==> !(Separator <= s[k..])
    ensures r.None? ==> forall k :: 0 <= k <= |s| ==> !(Separator <= s[k..])
  {
    if Separator <= s then assert s[0..] == s; Some(0)
    else if s == [] then assert forall k :: 0 <= k <= |s| ==> s[k..] == s; None
    else
      assert forall k :: 0 < k <= |s| ==> s[k..] == s[1..][k - 1..];
      match SeparatorIn(s[1..])
      case None => None
      case Some(k) => Some(k + 1)
  }

  // The name a displayed specification begins with, and what follows it.
  function Displayed(input: string): Option<(string, string)> {
    if input == [] then None
    else if input[0] != '`' then
      match SeparatorIn(input)
      case None => None
      case Some(k) => if k == 0 then None else Some((input[..k], input[k..]))
    else
      match Unquoted(input[1..])
      case None => None
      case Some(p) => if p.0 == "" then None else Some(p)
  }

  // What is read so far, before the rest.
  function Onto(built: string, rest: Option<(string, string)>): Option<(string, string)> {
    match rest
    case None => None
    case Some(p) => Some((built + p.0, p.1))
  }

  // splitDisplayedIdentifier.
  method SplitDisplayedIdentifier(input: string) returns (r: Result<(string, string)>)
    ensures r == match Displayed(input) case None => Failure(Consistency) case Some(p) => Success(p)
  {
    if input == "" {
      return Failure(Consistency);
    }
    if input[0] != '`' {
      var separator := SeparatorIn(input);
      if separator.None? || separator.value == 0 {
        return Failure(Consistency);
      }
      return Success((input[..separator.value], input[separator.value..]));
    }
    var builder := "";
    var index := 1;
    ghost var whole := Unquoted(input[1..]);
    assert whole.Some? ==> "" + whole.value.0 == whole.value.0;
    while index < |input|
      invariant 1 <= index <= |input|
      invariant whole == Onto(builder, Unquoted(input[index..]))
    {
      ghost var rest := input[index..];
      assert rest[0] == input[index] && rest[1..] == input[index + 1..];
      if input[index] != '`' {
        Onward(builder, input[index], Unquoted(input[index + 1..]));
        builder := builder + [input[index]];
        index := index + 1;
      } else if index + 1 < |input| && input[index + 1] == '`' {
        assert rest[2..] == input[index + 2..];
        Onward(builder, '`', Unquoted(input[index + 2..]));
        builder := builder + ['`'];
        index := index + 2;
      } else {
        assert builder + "" == builder;
        assert Unquoted(rest) == Some(("", input[index + 1..]));
        if |builder| == 0 {
          return Failure(Consistency);
        }
        return Success((builder, input[index + 1..]));
      }
    }
    assert input[index..] == "";
    return Failure(Consistency);
  }

  lemma Onward(built: string, c: char, rest: Option<(string, string)>)
    ensures Onto(built + [c], rest) == match rest case None => None case Some(p) => Some((built + ([c] + p.0), p.1))
  {
    if rest.Some? {
      assert built + [c] + rest.value.0 == built + ([c] + rest.value.0);
    }
  }

  // ----- nullability

  function Upper(c: char): char {
    if 'a' <= c <= 'z' then c - 'a' + 'A' else c
  }

  // strings.HasSuffix(strings.ToUpper(member), " NOT NULL"), in ASCII.
  predicate Required(member: string) {
    |member| >= |NotNull| &&
    forall k :: 0 <= k < |NotNull| ==> Upper(member[|member| - |NotNull| + k]) == NotNull[k]
  }

  // trimTopLevelNotNull.
  function TrimTopLevelNotNull(member: string): string {
    if Required(member) then Trim(member[..|member| - |NotNull|]) else member
  }

  function Stripped(ms: seq<string>): (r: seq<string>)
    ensures |r| == |ms| && forall k {:trigger r[k]} :: 0 <= k < |r| ==> r[k] == TrimTopLevelNotNull(ms[k])
  {
    seq(|ms|, k requires 0 <= k < |ms| => TrimTopLevelNotNull(ms[k]))
  }

  predicate AllRequired(ms: seq<string>) {
    forall k :: 0 <= k < |ms| ==> Required(ms[k])
  }

  predicate NoneRequired(ms: seq<string>) {
    forall k :: 0 <= k < |ms| ==> !Required(ms[k])
  }

  lemma StripNone(ms: seq<string>)
    requires NoneRequired(ms)
    ensures Stripped(ms) == ms
  {
  }

  // The loop both readers share: strip each member, and see whether all, or any, carried NOT NULL.
  method StripMembers(ms: seq<string>) returns (stripped: seq<string>, all: bool, any: bool)
    ensures stripped == Stripped(ms) && (all <==> AllRequired(ms)) && (any <==> !NoneRequired(ms))
  {
    stripped, all, any := ms, true, false;
    var k := 0;
    while k < |ms|
      invariant 0 <= k <= |ms| == |stripped|
      invariant forall i {:trigger stripped[i]} :: 0 <= i < |ms| ==> stripped[i] == if i < k then TrimTopLevelNotNull(ms[i]) else ms[i]
      invariant all <==> forall i :: 0 <= i < k ==> Required(ms[i])
      invariant any <==> exists i :: 0 <= i < k && Required(ms[i])
    {
      var required := Required(ms[k]);
      all := all && required;
      any := any || required;
      if required {
        stripped := stripped[k := TrimTopLevelNotNull(ms[k])];
      }
      k := k + 1;
    }
  }

  // What the text of a type says: the type without its outer NOT NULLs, and whether it carried them.
  function Meant(rule: string): Result<(string, bool)> {
    if Trim(rule) == "" then Failure(Consistency)
    else
      match Members(Trim(rule))
      case Failure(code) => Failure(code)
      case Success(ms) =>
        if AllRequired(ms) then Success((Union(Stripped(ms)), true))
        else if NoneRequired(ms) then Success((Union(ms), false))
        else Failure(Consistency)
  }

  function Parsed(spec: string): Result<(string, string, bool)> {
    match Displayed(spec)
    case None => Failure(Consistency)
    case Some(p) =>
      if !(Separator <= p.1) then Failure(Consistency)
      else
        match Meant(p.1[|Separator|..])
        case Failure(code) => Failure(code)
        case Success(q) => Success((p.0, q.0, q.1))
  }

  // parseGraphPropertySpec.
  method ParseGraphPropertySpec(spec: string) returns (r: Result<(string, string, bool)>)
    ensures r == Parsed(spec)
  {
    var named := SplitDisplayedIdentifier(spec);
    if named.Failure? || !(Separator <= named.value.1) {
      return Failure(Consistency);
    }
    var typeRule := Trim(named.value.1[|Separator|..]);
    if typeRule == "" {
      return Failure(Consistency);
    }
    var split := SplitTopLevelTypeUnion(typeRule);
    if split.Failure? {
      return Failure(split.code);
    }
    var members := split.value;
    MembersAreGood(typeRule);
    var required := false;
    if |members| == 1 {
      if Required(members[0]) {
        required := true;
        members := [TrimTopLevelNotNull(members[0])];
        assert members == Stripped(split.value);
      }
    } else {
      var stripped, all, any := StripMembers(members);
      if any && !all {
        return Failure(Consistency);
      }
      if !any {
        StripNone(members);
        assert !Required(members[0]);
      }
      members := stripped;
      required := all;
    }
    return Success((named.value.0, Union(members), required));
  }

  // ----- printing

  function Marked(ms: seq<string>): (r: seq<string>)
    ensures |r| == |ms| && forall k {:trigger r[k]} :: 0 <= k < |r| ==> r[k] == ms[k] + NotNull
  {
    seq(|ms|, k requires 0 <= k < |ms| => ms[k] + NotNull)
  }

  // graphPropertyTypeRule.
  function GraphPropertyTypeRule(kind: string, required: bool): string {
    if !required then kind
    else
      var members := Members(kind);
      if members.Failure? || |members.value| <= 1 then kind + NotNull else Union(Marked(members.value))
  }

  // The property's line in the graph type (buildGraphType).
  function PropertySpec(name: string, kind: string, required: bool): string {
    QuoteCypherIdentifier(name) + Separator + GraphPropertyTypeRule(kind, required)
  }

  lemma MarkedIsRequired(m: string)
    ensures Required(m + NotNull) && (m + NotNull)[..|m + NotNull| - |NotNull|] == m
  {
    assert forall k :: 0 <= k < |NotNull| ==> (m + NotNull)[|m| + k] == NotNull[k];
  }

  lemma GoodBefore(m: string, tail: string)
    requires GoodMember(m) && Plain(tail) && tail != "" && !IsSpace(tail[|tail| - 1])
    ensures GoodMember(m + tail)
  {
    assert Plain("");
    ClosedWithin("", m, tail);
    assert "" + m + tail == m + tail;
    assert (m + tail)[0] == m[0] && (m + tail)[|m + tail| - 1] == tail[|tail| - 1];
  }

  lemma MarkIsPlain(b: string)
    requires Blank(b)
    ensures Plain(b + NotNull) && !IsSpace((b + NotNull)[|b + NotNull| - 1])
  {
    BlankPlain(b);
    assert (b + NotNull)[|b + NotNull| - 1] == 'L';
  }

  lemma MarkedMember(m: string)
    requires GoodMember(m)
    ensures GoodMember(m + NotNull) && Required(m + NotNull) && TrimTopLevelNotNull(m + NotNull) == m
  {
    BlankThenMark(m, "");
    assert m + "" == m;
  }

  lemma BlankThenMark(m: string, b: string)
    requires GoodMember(m) && Blank(b)
    ensures GoodMember(m + b + NotNull) && Required(m + b + NotNull) && TrimTopLevelNotNull(m + b + NotNull) == m
  {
    MarkIsPlain(b);
    GoodBefore(m, b + NotNull);
    assert m + (b + NotNull) == m + b + NotNull;
    MarkedIsRequired(m + b);
    TrimIs("", m, b);
    assert "" + m + b == m + b;
  }

  lemma SoleMember(kind: string) returns (m: string, a: string, b: string)
    requires Members(kind).Success? && |Members(kind).value| == 1
    ensures Members(kind).value == [m] && GoodMember(m) && Blank(a) && Blank(b) && kind == a + m + b
  {
    MembersAreGood(kind);
    SplitIsJoin(kind, 0);
    m := Members(kind).value[0];
    assert TrimAll(TopSplit(kind, 0).value)[0] == m;
    a, b := TrimParts(kind);
  }

  // One member and NOT NULL behind it, whatever blanks are between.
  lemma OneMarked(m: string, a: string, b: string)
    requires GoodMember(m) && Blank(a) && Blank(b)
    ensures Meant(a + m + b + NotNull) == Success((m, true))
  {
    BlankThenMark(m, b);
    OneInner(m, m + b + NotNull, a);
    assert a + m + b + NotNull == a + (m + b + NotNull);
  }

  lemma OneInner(m: string, inner: string, a: string)
    requires GoodMember(inner) && Required(inner) && TrimTopLevelNotNull(inner) == m && Blank(a)
    ensures Meant(a + inner) == Success((m, true))
  {
    TrimIs(a, inner, "");
    assert a + inner + "" == a + inner;
    TrimIs("", inner, "");
    assert "" + inner + "" == inner;
    MembersOfPieces([inner], [inner]);
    assert Join([inner], '|') == inner;
    assert Stripped([inner]) == [m];
  }

  lemma SeveralMarked(ms: seq<string>)
    requires ms != [] && forall k :: 0 <= k < |ms| ==> GoodMember(ms[k])
    ensures Meant(Union(Marked(ms))) == Success((Union(ms), true))
  {
    var marked := Marked(ms);
    forall k | 0 <= k < |ms| ensures GoodMember(marked[k]) && Required(marked[k]) && TrimTopLevelNotNull(marked[k]) == ms[k] {
      MarkedMember(ms[k]);
    }
    assert Stripped(marked) == ms;
    UnionMembers(marked);
    MeantUnion(marked);
  }

  lemma MeantUnion(ms: seq<string>)
    requires Members(Union(ms)) == Success(ms) && AllRequired(ms)
    ensures Meant(Union(ms)) == Success((Union(Stripped(ms)), true))
  {
    MembersTrimmed(Union(ms));
  }

  // The printed type is read back as the type's members, exactly when a type that is not required has no
  // member that says NOT NULL itself.
  lemma TypeComesBack(kind: string, required: bool)
    requires Members(kind).Success?
    ensures var ms := Members(kind).value;
            Meant(GraphPropertyTypeRule(kind, required)) == Success((Union(ms), required)) <==> required || NoneRequired(ms)
  {
    if required {
      RequiredComesBack(kind);
    } else {
      OptionalComesBack(kind);
    }
  }

  lemma RequiredComesBack(kind: string)
    requires Members(kind).Success?
    ensures Meant(GraphPropertyTypeRule(kind, true)) == Success((Union(Members(kind).value), true))
  {
    if |Members(kind).value| <= 1 {
      MembersAreGood(kind);
      var m, a, b := SoleMember(kind);
      OneMarked(m, a, b);
    } else {
      MembersAreGood(kind);
      SeveralMarked(Members(kind).value);
    }
  }

  lemma OptionalComesBack(kind: string)
    requires Members(kind).Success?
    ensures Meant(kind) == Success((Union(Members(kind).value), false)) <==> NoneRequired(Members(kind).value)
  {
    var ms := Members(kind).value;
    MembersTrimmed(kind);
    MembersAreGood(kind);
    assert AllRequired(ms) ==> Required(ms[0]);
  }

  lemma NameComesBack(name: string, rule: string)
    requires name != ""
    ensures Displayed(QuoteCypherIdentifier(name) + Separator + rule) == Some((name, Separator + rule))
  {
    assert (Separator + rule)[0] == ' ';
    DoubledUnquoted(name, Separator + rule);
    AfterQuote(Doubled(name), Separator, rule);
  }

  lemma AfterQuote(body: string, a: string, b: string)
    ensures "`" + body + "`" + a + b == ['`'] + (body + "`" + (a + b))
    ensures ("`" + body + "`" + a + b)[1..] == body + "`" + (a + b)
  {
  }

  lemma ParsedAs(name: string, rule: string)
    requires name != ""
    ensures Parsed(QuoteCypherIdentifier(name) + Separator + rule) ==
            match Meant(rule) case Failure(code) => Failure(code) case Success(q) => Success((name, q.0, q.1))
  {
    NameComesBack(name, rule);
    DropPrefix(Separator, rule);
  }

  // A printed property is read back as the property, for every name and every well-formed type; exactly
  // when a type that is not required has no member that says NOT NULL itself.
  lemma PropertyComesBack(name: string, kind: string, required: bool)
    requires name != "" && Members(kind).Success?
    ensures Parsed(PropertySpec(name, kind, required)) == Success((name, Union(Members(kind).value), required)) <==>
            required || NoneRequired(Members(kind).value)
  {
    ParsedAs(name, GraphPropertyTypeRule(kind, required));
    TypeComesBack(kind, required);
  }

  // ----- normalized properties (internal/kernel/model.go)

  // normalizePropertyNullability: outer NOT NULLs become the required flag.
  method NormalizePropertyNullability(kind: string, required: bool) returns (r: Result<(string, bool)>)
    ensures r.Success? <==> Members(kind).Success? && (AllRequired(Members(kind).value) || NoneRequired(Members(kind).value))
    ensures r.Success? ==>
              var ms := Members(kind).value;
              r.value == if AllRequired(ms) then (Union(Stripped(ms)), true) else (kind, required)
  {
    var split := SplitTopLevelTypeUnion(kind);
    if split.Failure? {
      return Failure(TypeError);
    }
    MembersAreGood(kind);
    var stripped, all, any := StripMembers(split.value);
    if any && !all {
      return Failure(TypeError);
    }
    if all {
      return Success((Union(stripped), true));
    }
    return Success((kind, required));
  }

  lemma MarkPlain(tail: string)
    requires |tail| == |NotNull| && forall k :: 0 <= k < |NotNull| ==> Upper(tail[k]) == NotNull[k]
    ensures Plain(tail) && IsSpace(tail[0])
  {
    assert NotNull[0] == ' ';
  }

  lemma BeforeMark(m: string)
    requires GoodMember(m) && Required(m)
    ensures var y := m[..|m| - |NotNull|]; Closed(y) && y != "" && y[0] == m[0]
  {
    var y, tail := m[..|m| - |NotNull|], m[|m| - |NotNull|..];
    MarkPlain(tail);
    assert Plain("");
    ClosedWithin("", y, tail);
    assert "" + y + tail == m && "" + y == y;
  }

  lemma TrimmedIsGood(y: string)
    requires Closed(y) && y != "" && !IsSpace(y[0])
    ensures GoodMember(Trim(y))
  {
    assert TrimLeft(y) == y;
    var b := TrimRightParts(y);
    assert !Blank(y);
    assert y[0] == Trim(y)[0];
    BlankPlain(b);
    assert Plain("");
    ClosedWithin("", Trim(y), b);
    assert "" + Trim(y) + b == y;
  }

  lemma StrippedIsGood(m: string)
    requires GoodMember(m)
    ensures GoodMember(TrimTopLevelNotNull(m))
  {
    if Required(m) {
      BeforeMark(m);
      TrimmedIsGood(m[..|m| - |NotNull|]);
    }
  }

  // What every accepted property is printed as is read back as that property.
  method PrintNormalized(name: string, kind: string, required: bool) returns (r: Result<(string, bool)>)
    requires name != ""
    ensures r.Success? ==>
              && Members(r.value.0).Success?
              && Parsed(PropertySpec(name, r.value.0, r.value.1)) == Success((name, Union(Members(r.value.0).value), r.value.1))
  {
    r := NormalizePropertyNullability(kind, required);
    if r.Success? {
      var ms := Members(kind).value;
      MembersAreGood(kind);
      if AllRequired(ms) {
        forall k | 0 <= k < |ms| ensures GoodMember(Stripped(ms)[k]) {
          StrippedIsGood(ms[k]);
        }
        UnionMembers(Stripped(ms));
      }
      PropertyComesBack(name, r.value.0, r.value.1);
    }
  }
}
