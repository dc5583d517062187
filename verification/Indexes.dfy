// Shared indexes (internal/kernel/patch_plan.go, compiler_schema.go): every Definition an index covers
// repeats its declaration. A plan gathers the declarations into one index per name, settles those,
// writes each back into every Definition it covers and gathers them again.

module IndexEntries {
  import opened Outcomes
  import opened Text
  import opened Sorting
  import opened Model
  import opened BindingGraph

  // One declaration as a Definition spells it, with the options only the engine sees.
  datatype Entry = Entry(name: string, kind: string, targets: seq<Reference>, properties: seq<string>, hidden: Option<string>)

  // logicalIndex.
  datatype Logical = Logical(name: string, kind: string, targets: seq<Ref>, properties: seq<string>, hidden: Option<string>)

  type Indexes = map<string, Logical>

  function AtProperty(p: Property, ix: Index): Entry {
    Entry(ix.name, ix.kind, ix.targets, [p.name], ix.hidden)
  }

  function AtDefinition(ix: Index): Entry {
    Entry(ix.name, ix.kind, ix.targets, ix.properties, ix.hidden)
  }

  function SpelledAt(p: Property, indexes: seq<Index>): (s: seq<Entry>)
    ensures |s| == |indexes| && forall k {:trigger s[k]} :: 0 <= k < |s| ==> s[k] == AtProperty(p, indexes[k])
  {
    seq(|indexes|, k requires 0 <= k < |indexes| => AtProperty(p, indexes[k]))
  }

  function SpelledIn(properties: seq<Property>): seq<Entry> {
    if properties == [] then []
    else
      var last := properties[|properties| - 1];
      SpelledIn(properties[..|properties| - 1]) + SpelledAt(last, last.indexes)
  }

  function SpelledOn(indexes: seq<Index>): (s: seq<Entry>)
    ensures |s| == |indexes| && forall k {:trigger s[k]} :: 0 <= k < |s| ==> s[k] == AtDefinition(indexes[k])
  {
    seq(|indexes|, k requires 0 <= k < |indexes| => AtDefinition(indexes[k]))
  }

  // Everything a Definition declares, in the order it is read.
  function Spelled(d: Definition): seq<Entry> {
    SpelledIn(d.properties) + SpelledOn(d.indexes)
  }

  lemma SpelledAtMore(p: Property, indexes: seq<Index>, k: nat)
    requires k < |indexes|
    ensures SpelledAt(p, indexes[..k + 1]) == SpelledAt(p, indexes[..k]) + [AtProperty(p, indexes[k])]
  {
  }

  lemma SpelledInMore(properties: seq<Property>, k: nat)
    requires k < |properties|
    ensures SpelledIn(properties[..k + 1]) == SpelledIn(properties[..k]) + SpelledAt(properties[k], properties[k].indexes)
  {
    assert properties[..k + 1][..k] == properties[..k];
  }

  lemma {:induction false} SpelledFromProperty(properties: seq<Property>, e: Entry)
    ensures e in SpelledIn(properties) <==> exists p, ix :: p in properties && ix in p.indexes && e == AtProperty(p, ix)
  {
    if properties != [] {
      var n := |properties| - 1;
      var last := properties[n];
      SpelledFromProperty(properties[..n], e);
      SpelledInMore(properties, n);
      assert properties[..n + 1] == properties == properties[..n] + [last];
      var at := SpelledAt(last, last.indexes);
      if e in at {
        var k :| 0 <= k < |at| && at[k] == e;
        assert last.indexes[k] in last.indexes;
      }
      forall ix | ix in last.indexes ensures AtProperty(last, ix) in at {
        var k :| 0 <= k < |last.indexes| && last.indexes[k] == ix;
        assert at[k] == AtProperty(last, ix);
      }
    }
  }

  lemma SpelledFromDefinition(d: Definition, e: Entry)
    ensures e in Spelled(d) <==> e in SpelledIn(d.properties) || exists ix :: ix in d.indexes && e == AtDefinition(ix)
  {
    var on := SpelledOn(d.indexes);
    if e in on {
      var k :| 0 <= k < |on| && on[k] == e;
      assert d.indexes[k] in d.indexes;
    }
    forall ix | ix in d.indexes ensures AtDefinition(ix) in on {
      var k :| 0 <= k < |d.indexes| && d.indexes[k] == ix;
      assert on[k] == AtDefinition(ix);
    }
  }

  // ----- reading declarations

  datatype Declaration = Declaration(name: string, kind: string, targets: seq<Reference>, properties: seq<string>, implicitTarget: bool)

  function DeclarationOf(e: Entry): Declaration {
    Declaration(e.name, e.kind, e.targets, e.properties, e.targets == [])
  }

  function Last(s: seq<Entry>, name: string): (r: Option<Entry>)
    ensures r.Some? ==> r.value in s && r.value.name == name
    ensures r.None? ==> forall e :: e in s ==> e.name != name
  {
    if s == [] then None
    else if s[|s| - 1].name == name then Some(s[|s| - 1])
    else
      assert forall e :: e in s ==> e in s[..|s| - 1] || e == s[|s| - 1];
      Last(s[..|s| - 1], name)
  }

  function First(s: seq<Entry>, name: string): (r: Option<Entry>)
    ensures r.Some? ==> r.value in s && r.value.name == name
    ensures r.None? ==> forall e :: e in s ==> e.name != name
  {
    if s == [] then None
    else if s[0].name == name then Some(s[0])
    else First(s[1..], name)
  }

  // The last declaration of a name is the one that stands.
  ghost predicate Recorded(m: map<string, Declaration>, s: seq<Entry>) {
    && (forall name {:trigger name in m} {:trigger Last(s, name)} :: name in m <==> Last(s, name).Some?)
    && (forall name {:trigger m[name]} :: name in m ==> Last(s, name) != None && m[name] == DeclarationOf(Last(s, name).value))
  }

  lemma RecordedMore(m: map<string, Declaration>, s: seq<Entry>, e: Entry)
    requires Recorded(m, s)
    ensures Recorded(m[e.name := DeclarationOf(e)], s + [e])
  {
    assert (s + [e])[..|s|] == s;
    forall name ensures Last(s + [e], name) == if name == e.name then Some(e) else Last(s, name) {
    }
  }

  // objectIndexDeclarations.
  method ObjectIndexDeclarations(d: Definition) returns (m: map<string, Declaration>)
    ensures Recorded(m, Spelled(d))
  {
    m := map[];
    var i := 0;
    while i < |d.properties|
      invariant 0 <= i <= |d.properties|
      invariant Recorded(m, SpelledIn(d.properties[..i]))
    {
      var p := d.properties[i];
      ghost var before := SpelledIn(d.properties[..i]);
      var j := 0;
      assert before + SpelledAt(p, p.indexes[..0]) == before;
      while j < |p.indexes|
        invariant 0 <= j <= |p.indexes|
        invariant Recorded(m, before + SpelledAt(p, p.indexes[..j]))
      {
        var e := AtProperty(p, p.indexes[j]);
        RecordedMore(m, before + SpelledAt(p, p.indexes[..j]), e);
        SpelledAtMore(p, p.indexes, j);
        assert before + SpelledAt(p, p.indexes[..j]) + [e] == before + SpelledAt(p, p.indexes[..j + 1]);
        m := m[e.name := DeclarationOf(e)];
        j := j + 1;
      }
      assert p.indexes[..|p.indexes|] == p.indexes;
      SpelledInMore(d.properties, i);
      i := i + 1;
    }
    assert d.properties[..|d.properties|] == d.properties;
    ghost var inner := SpelledIn(d.properties);
    var k := 0;
    assert inner + SpelledOn(d.indexes[..0]) == inner;
    while k < |d.indexes|
      invariant 0 <= k <= |d.indexes|
      invariant Recorded(m, inner + SpelledOn(d.indexes[..k]))
    {
      var e := AtDefinition(d.indexes[k]);
      RecordedMore(m, inner + SpelledOn(d.indexes[..k]), e);
      assert inner + SpelledOn(d.indexes[..k]) + [e] == inner + SpelledOn(d.indexes[..k + 1]);
      m := m[e.name := DeclarationOf(e)];
      k := k + 1;
    }
    assert d.indexes[..|d.indexes|] == d.indexes;
  }

  // What is hidden is read from the first.
  function HiddenIn(s: seq<Entry>, name: string): Option<string> {
    match First(s, name)
    case None => None
    case Some(e) => e.hidden
  }

  lemma {:induction false} FirstOfConcat(a: seq<Entry>, b: seq<Entry>, name: string)
    ensures First(a + b, name) == if First(a, name).Some? then First(a, name) else First(b, name)
  {
    if a == [] {
      assert a + b == b;
    } else {
      assert (a + b)[0] == a[0] && (a + b)[1..] == a[1..] + b;
      FirstOfConcat(a[1..], b, name);
    }
  }

  ghost predicate Unnamed(indexes: seq<Index>, name: string) {
    forall k :: 0 <= k < |indexes| ==> indexes[k].name != name
  }

  ghost predicate UnnamedIn(properties: seq<Property>, name: string) {
    forall i :: 0 <= i < |properties| ==> Unnamed(properties[i].indexes, name)
  }

  lemma NotIn(properties: seq<Property>, name: string)
    requires UnnamedIn(properties, name)
    ensures First(SpelledIn(properties), name) == None
  {
    forall e | e in SpelledIn(properties) ensures e.name != name {
      SpelledFromProperty(properties, e);
    }
  }

  lemma {:induction false} FirstAt(s: seq<Entry>, k: nat, name: string)
    requires k < |s| && s[k].name == name && forall i :: 0 <= i < k ==> s[i].name != name
    ensures First(s, name) == Some(s[k])
  {
    if k > 0 {
      FirstAt(s[1..], k - 1, name);
    }
  }

  lemma FoundAt(d: Definition, i: nat, j: nat, name: string)
    requires i < |d.properties| && j < |d.properties[i].indexes| && d.properties[i].indexes[j].name == name
    requires UnnamedIn(d.properties[..i], name) && Unnamed(d.properties[i].indexes[..j], name)
    ensures HiddenIn(Spelled(d), name) == d.properties[i].indexes[j].hidden
  {
    var p := d.properties[i];
    var at := SpelledAt(p, p.indexes);
    assert forall k :: 0 <= k < j ==> at[k].name == p.indexes[..j][k].name;
    FirstAt(at, j, name);
    NotIn(d.properties[..i], name);
    SpelledInMore(d.properties, i);
    FirstOfConcat(SpelledIn(d.properties[..i]), at, name);
    FoundLater(d.properties, i + 1, name, at[j]);
    FirstOfConcat(SpelledIn(d.properties), SpelledOn(d.indexes), name);
  }

  lemma FoundOn(d: Definition, k: nat, name: string)
    requires k < |d.indexes| && d.indexes[k].name == name
    requires UnnamedIn(d.properties, name) && Unnamed(d.indexes[..k], name)
    ensures HiddenIn(Spelled(d), name) == d.indexes[k].hidden
  {
    var on := SpelledOn(d.indexes);
    assert forall i :: 0 <= i < k ==> on[i].name == d.indexes[..k][i].name;
    FirstAt(on, k, name);
    NotIn(d.properties, name);
    FirstOfConcat(SpelledIn(d.properties), on, name);
  }

  lemma NowhereNamed(d: Definition, name: string)
    requires UnnamedIn(d.properties, name) && Unnamed(d.indexes, name)
    ensures HiddenIn(Spelled(d), name) == None
  {
    NotIn(d.properties, name);
    var on := SpelledOn(d.indexes);
    assert forall e :: e in on ==> e.name != name;
    FirstOfConcat(SpelledIn(d.properties), on, name);
  }

  lemma {:induction false} FoundLater(properties: seq<Property>, k: nat, name: string, e: Entry)
    requires k <= |properties| && First(SpelledIn(properties[..k]), name) == Some(e)
    ensures First(SpelledIn(properties), name) == Some(e)
    decreases |properties| - k
  {
    if k == |properties| {
      assert properties[..k] == properties;
    } else {
      SpelledInMore(properties, k);
      FirstOfConcat(SpelledIn(properties[..k]), SpelledAt(properties[k], properties[k].indexes), name);
      FoundLater(properties, k + 1, name, e);
    }
  }

  // indexHiddenOptions.
  method IndexHiddenOptions(d: Definition, name: string) returns (r: Option<string>)
    ensures r == HiddenIn(Spelled(d), name)
  {
    var i := 0;
    while i < |d.properties|
      invariant 0 <= i <= |d.properties|
      invariant UnnamedIn(d.properties[..i], name)
    {
      var indexes := d.properties[i].indexes;
      var j := 0;
      while j < |indexes|
        invariant 0 <= j <= |indexes|
        invariant Unnamed(indexes[..j], name)
      {
        if indexes[j].name == name {
          FoundAt(d, i, j, name);
          return indexes[j].hidden;
        }
        j := j + 1;
      }
      assert indexes[..|indexes|] == indexes;
      i := i + 1;
    }
    assert d.properties[..|d.properties|] == d.properties;
    var k := 0;
    while k < |d.indexes|
      invariant 0 <= k <= |d.indexes|
      invariant Unnamed(d.indexes[..k], name)
    {
      if d.indexes[k].name == name {
        FoundOn(d, k, name);
        return d.indexes[k].hidden;
      }
      k := k + 1;
    }
    assert d.indexes[..|d.indexes|] == d.indexes;
    NowhereNamed(d, name);
    return None;
  }

  // A name that is declared in one way only is read as declared, options included.
  lemma OneDeclaration(s: seq<Entry>, e: Entry)
    requires e in s && forall f :: f in s && f.name == e.name ==> f == e
    ensures Last(s, e.name) == Some(e) && First(s, e.name) == Some(e) && HiddenIn(s, e.name) == e.hidden
  {
  }

  // ----- writing declarations

  // The Definition without its indexes.
  function Unindexed(d: Definition): Definition {
    d.(indexes := [], properties := BareProperties(d.properties))
  }

  function BareProperties(properties: seq<Property>): (r: seq<Property>)
    ensures |r| == |properties|
    ensures forall k {:trigger r[k]} :: 0 <= k < |r| ==> r[k] == properties[k].(indexes := [])
  {
    seq(|properties|, k requires 0 <= k < |properties| => properties[k].(indexes := []))
  }

  lemma BareDeclaresNothing(d: Definition)
    ensures Spelled(Unindexed(d)) == [] && Unindexed(Unindexed(d)) == Unindexed(d)
  {
    var s := Spelled(Unindexed(d));
    if s != [] {
      SpelledFromDefinition(Unindexed(d), s[0]);
      SpelledFromProperty(Unindexed(d).properties, s[0]);
      assert false;
    }
  }

  function AsReferences(refs: seq<Ref>): (r: seq<Reference>)
    ensures |r| == |refs| && forall k {:trigger r[k]} :: 0 <= k < |r| ==> r[k] == To(refs[k])
  {
    seq(|refs|, k requires 0 <= k < |refs| => To(refs[k]))
  }

  // How a Definition that the index covers declares it.
  function EntryOf(index: Logical): Entry {
    Entry(index.name, index.kind, if |index.targets| > 1 then AsReferences(index.targets) else [], index.properties, index.hidden)
  }

  // The property pointer of the source: the first property of that name gets the index.
  function AppendAt(properties: seq<Property>, name: string, ix: Index): (r: seq<Property>)
    ensures |r| == |properties|
  {
    if properties == [] then []
    else if properties[0].name == name then [properties[0].(indexes := properties[0].indexes + [ix])] + properties[1..]
    else [properties[0]] + AppendAt(properties[1..], name, ix)
  }

  function WithIndex(d: Definition, index: Logical): Definition {
    var shared := EntryOf(index).targets;
    if |index.targets| == 1 && |index.properties| == 1 then
      d.(properties := AppendAt(d.properties, index.properties[0], Index(index.name, index.kind, shared, [], index.hidden)))
    else
      d.(indexes := d.indexes + [Index(index.name, index.kind, shared, index.properties, index.hidden)])
  }

  lemma {:induction false} AppendAtBare(properties: seq<Property>, name: string, ix: Index)
    ensures BareProperties(AppendAt(properties, name, ix)) == BareProperties(properties)
  {
    if properties != [] && properties[0].name != name {
      AppendAtBare(properties[1..], name, ix);
      var after := AppendAt(properties[1..], name, ix);
      assert BareProperties([properties[0]] + after) == [properties[0].(indexes := [])] + BareProperties(after);
      assert BareProperties(properties) == [properties[0].(indexes := [])] + BareProperties(properties[1..]);
    }
  }

  lemma {:induction false} SpelledHead(properties: seq<Property>, e: Entry)
    requires properties != []
    ensures e in SpelledIn(properties) <==> e in SpelledAt(properties[0], properties[0].indexes) || e in SpelledIn(properties[1..])
  {
    SpelledFromProperty(properties, e);
    SpelledFromProperty(properties[1..], e);
    SpelledFromProperty([properties[0]], e);
    SpelledInMore([properties[0]], 0);
    assert properties == [properties[0]] + properties[1..];
    assert [properties[0]][..1] == [properties[0]] && [properties[0]][..0] == [];
    assert SpelledIn([properties[0]]) == SpelledAt(properties[0], properties[0].indexes);
  }

  lemma AppendHead(p: Property, ix: Index, e: Entry)
    ensures var q := p.(indexes := p.indexes + [ix]);
            e in SpelledAt(q, q.indexes) <==> e in SpelledAt(p, p.indexes) || e == AtProperty(p, ix)
  {
    var q := p.(indexes := p.indexes + [ix]);
    assert SpelledAt(q, q.indexes) == SpelledAt(p, p.indexes) + [AtProperty(p, ix)];
  }

  lemma {:induction false} AppendAtSpells(properties: seq<Property>, name: string, ix: Index, e: Entry)
    requires FindProperty(properties, name).Some?
    ensures e in SpelledIn(AppendAt(properties, name, ix)) <==>
            e in SpelledIn(properties) || e == Entry(ix.name, ix.kind, ix.targets, [name], ix.hidden)
  {
    var p := properties[0];
    if p.name == name {
      var q := p.(indexes := p.indexes + [ix]);
      AppendHead(p, ix, e);
      SpelledHead(properties, e);
      SpelledHead([q] + properties[1..], e);
      assert ([q] + properties[1..])[1..] == properties[1..];
    } else {
      var rest := AppendAt(properties[1..], name, ix);
      AppendAtSpells(properties[1..], name, ix, e);
      SpelledHead(properties, e);
      SpelledHead([p] + rest, e);
      assert ([p] + rest)[1..] == rest;
    }
  }

  lemma AppendOnSpells(d: Definition, ix: Index, e: Entry)
    ensures e in Spelled(d.(indexes := d.indexes + [ix])) <==> e in Spelled(d) || e == AtDefinition(ix)
  {
    assert SpelledOn(d.indexes + [ix]) == SpelledOn(d.indexes) + [AtDefinition(ix)];
  }

  predicate HasProperties(d: Definition, names: seq<string>) {
    forall name :: name in names ==> FindProperty(d.properties, name).Some?
  }

  // Writing an index declares it, and changes nothing else.
  lemma WithIndexDeclares(d: Definition, index: Logical, e: Entry)
    requires HasProperties(d, index.properties)
    ensures e in Spelled(WithIndex(d, index)) <==> e in Spelled(d) || e == EntryOf(index)
    ensures Unindexed(WithIndex(d, index)) == Unindexed(d)
  {
    if |index.targets| == 1 && |index.properties| == 1 {
      var name := index.properties[0];
      assert name in index.properties;
      assert index.properties == [name];
      var ix := Index(index.name, index.kind, EntryOf(index).targets, [], index.hidden);
      AppendAtSpells(d.properties, name, ix, e);
      AppendAtBare(d.properties, name, ix);
    } else {
      AppendOnSpells(d, Index(index.name, index.kind, EntryOf(index).targets, index.properties, index.hidden), e);
    }
  }
}

module IndexReading {
  import opened Outcomes
  import opened Text
  import opened Sorting
  import opened Model
  import opened BindingGraph
  import opened IndexEntries

  // The parts of a plan that the names of a declaration go through.
  datatype Moves = Moves(aliases: map<string, Ref>, transitions: map<Ref, Ref>, renames: map<Ref, map<string, string>>)

  // What a State's own declarations go through: nothing.
  const Unmoving := Moves(map[], map[], map[])

  function Target(moves: Moves, m: Reference): Option<Ref> {
    match m
    case To(ref) => Some(if ref in moves.transitions then moves.transitions[ref] else ref)
    case New(alias) => if alias in moves.aliases then Some(moves.aliases[alias]) else None
  }

  predicate Resolves(moves: Moves, m: Reference) {
    Target(moves, m).Some?
  }

  function TargetsOf(moves: Moves, references: seq<Reference>): (r: seq<Ref>)
    requires forall k :: 0 <= k < |references| ==> Resolves(moves, references[k])
    ensures |r| == |references| && forall k {:trigger r[k]} :: 0 <= k < |r| ==> Some(r[k]) == Target(moves, references[k])
  {
    seq(|references|, k requires 0 <= k < |references| && Resolves(moves, references[k]) => Target(moves, references[k]).value)
  }

  function RenamedProperty(moves: Moves, owner: Ref, name: string): string {
    if owner in moves.renames && name in moves.renames[owner] then moves.renames[owner][name] else name
  }

  function RenamedProperties(moves: Moves, owner: Ref, names: seq<string>): (r: seq<string>)
    ensures |r| == |names| && forall k {:trigger r[k]} :: 0 <= k < |r| ==> r[k] == RenamedProperty(moves, owner, names[k])
  {
    seq(|names|, k requires 0 <= k < |names| => RenamedProperty(moves, owner, names[k]))
  }

  function SortedRefs(refs: seq<Ref>): seq<Ref> {
    Sorted(refs, RefKey)
  }

  lemma SortedRefsUnique(refs: seq<Ref>, sorted: seq<Ref>)
    requires multiset(sorted) == multiset(refs) && Ordered(sorted, RefKey)
    ensures sorted == SortedRefs(refs)
  {
    SortedOrdered(refs, RefKey);
    forall i, j | 0 <= i < |sorted| && 0 <= j < |sorted| && RefKey(sorted[i]) == RefKey(sorted[j]) ensures sorted[i] == sorted[j] {
      RefKeyInjective(sorted[i], sorted[j]);
    }
    OrderedUnique(sorted, SortedRefs(refs), RefKey);
  }

  lemma SortedRefsAgree(a: seq<Ref>, b: seq<Ref>)
    ensures SortedRefs(a) == SortedRefs(b) <==> multiset(a) == multiset(b)
  {
    if multiset(a) == multiset(b) {
      SortedOrdered(a, RefKey);
      SortedRefsUnique(b, SortedRefs(a));
    }
  }

  // What a declaration means once the names it uses have moved.
  function Meaning(moves: Moves, owner: Ref, d: Declaration): Result<Logical> {
    if d.implicitTarget then
      Success(Logical(d.name, d.kind, [owner], RenamedProperties(moves, owner, d.properties), None))
    else if forall k :: 0 <= k < |d.targets| ==> Resolves(moves, d.targets[k]) then
      Success(Logical(d.name, d.kind, SortedRefs(TargetsOf(moves, d.targets)), RenamedProperties(moves, owner, d.properties), None))
    else Failure(InvalidArgument)
  }

  // logicalIndexFromDeclaration.
  method LogicalIndexFromDeclaration(moves: Moves, owner: Ref, d: Declaration) returns (r: Result<Logical>)
    ensures r == Meaning(moves, owner, d)
  {
    var targets := [owner];
    if !d.implicitTarget {
      targets := [];
      var k := 0;
      while k < |d.targets|
        invariant 0 <= k <= |d.targets| && |targets| == k
        invariant forall i {:trigger targets[i]} {:trigger d.targets[i]} :: 0 <= i < k ==> Target(moves, d.targets[i]) == Some(targets[i])
      {
        var target := Target(moves, d.targets[k]);
        if target.None? {
          assert !Resolves(moves, d.targets[k]);
          return Failure(InvalidArgument);
        }
        targets := targets + [target.value];
        k := k + 1;
      }
      assert forall i :: 0 <= i < |d.targets| ==> Resolves(moves, d.targets[i]);
      assert targets == TargetsOf(moves, d.targets);
    }
    var properties := d.properties;
    if owner in moves.renames && moves.renames[owner] != map[] {
      var renames := moves.renames[owner];
      var k := 0;
      while k < |properties|
        invariant 0 <= k <= |properties| == |d.properties|
        invariant forall i {:trigger properties[i]} :: 0 <= i < |properties| ==>
                    properties[i] == if i < k then RenamedProperty(moves, owner, d.properties[i]) else d.properties[i]
      {
        if properties[k] in renames {
          properties := properties[k := renames[properties[k]]];
        }
        k := k + 1;
      }
    }
    assert properties == RenamedProperties(moves, owner, d.properties);
    var sorted := SortSlice(targets, RefKey);
    SortedRefsUnique(targets, sorted);
    if d.implicitTarget {
      SortedRefsUnique([owner], [owner]);
    }
    return Success(Logical(d.name, d.kind, sorted, properties, None));
  }

  // equalLogicalIndex: property lists are compared as one text.
  predicate Same(a: Logical, b: Logical) {
    a.name == b.name && a.kind == b.kind && Join(a.properties, '\0') == Join(b.properties, '\0') && a.targets == b.targets
  }

  predicate Agree(a: Logical, b: Logical) {
    Same(a, b) && a.hidden == b.hidden
  }

  // ----- gathering the declarations of a set of objects

  predicate Declares(objects: Objects, r: Ref, name: string) {
    r in objects && objects[r].DefinitionValue? && Last(Spelled(objects[r].definition), name).Some?
  }

  // The index that r's declaration of the name stands for.
  function Projection(objects: Objects, moves: Moves, r: Ref, name: string): Result<Logical>
    requires Declares(objects, r, name)
  {
    var s := Spelled(objects[r].definition);
    match Meaning(moves, r, DeclarationOf(Last(s, name).value))
    case Failure(code) => Failure(code)
    case Success(logical) => Success(logical.(hidden := HiddenIn(s, name)))
  }

  ghost predicate Gathers(objects: Objects, moves: Moves, m: Indexes, r: Ref, name: string)
    requires Declares(objects, r, name)
  {
    var p := Projection(objects, moves, r, name);
    p.Success? && name in m && Agree(m[name], p.value)
  }

  ghost predicate FromSome(objects: Objects, moves: Moves, name: string, index: Logical) {
    exists r :: Declares(objects, r, name) && Projection(objects, moves, r, name) == Success(index)
  }

  // Two declarations of one name mean different indexes, or one means none.
  ghost predicate Disagreement(objects: Objects, moves: Moves) {
    || (exists r, name :: Declares(objects, r, name) && Projection(objects, moves, r, name).Failure?)
    || (exists r, q, name {:trigger Declares(objects, r, name), Declares(objects, q, name)} ::
          && Declares(objects, r, name) && Declares(objects, q, name)
          && Projection(objects, moves, r, name).Success? && Projection(objects, moves, q, name).Success?
          && !Agree(Projection(objects, moves, r, name).value, Projection(objects, moves, q, name).value))
  }

  // The gathered indexes: what every declaration says.
  ghost predicate Collected(objects: Objects, moves: Moves, r: Result<Indexes>) {
    && (r.Failure? <==> Disagreement(objects, moves))
    && (r.Success? ==> SoFar(objects, moves, r.value, {}))
  }

  // One more declaration against what is gathered.
  method GatherOne(objects: Objects, moves: Moves, result: Indexes, r: Ref, name: string, declaration: Declaration) returns (next: Result<Indexes>)
    requires Declares(objects, r, name) && declaration == DeclarationOf(Last(Spelled(objects[r].definition), name).value)
    requires name in result ==> FromSome(objects, moves, name, result[name])
    ensures next.Failure? ==> Disagreement(objects, moves)
    ensures next.Success? ==>
              && Gathers(objects, moves, next.value, r, name) && FromSome(objects, moves, name, next.value[name])
              && next.value == if name in result then result else result[name := next.value[name]]
  {
    var logical := LogicalIndexFromDeclaration(moves, r, declaration);
    if logical.Failure? {
      return Failure(logical.code);
    }
    var hidden := IndexHiddenOptions(objects[r].definition, name);
    var index := logical.value.(hidden := hidden);
    assert Projection(objects, moves, r, name) == Success(index);
    if name in result {
      if !Agree(result[name], index) {
        return Failure(ObjectConflict);
      }
      return Success(result);
    }
    return Success(result[name := index]);
  }

  ghost predicate Gathered(objects: Objects, moves: Moves, m: Indexes, r: Ref, name: string) {
    Declares(objects, r, name) ==> Gathers(objects, moves, m, r, name)
  }

  // The declarations seen so far are gathered.
  ghost predicate SoFar(objects: Objects, moves: Moves, m: Indexes, refs: set<Ref>) {
    && (forall q, name {:trigger Gathered(objects, moves, m, q, name)} :: q !in refs ==> Gathered(objects, moves, m, q, name))
    && AllFrom(objects, moves, m)
  }

  ghost predicate AllFrom(objects: Objects, moves: Moves, m: Indexes) {
    forall name {:trigger m[name]} :: name in m ==> FromSome(objects, moves, name, m[name])
  }

  ghost predicate NamesSoFar(objects: Objects, moves: Moves, m: Indexes, r: Ref, names: set<string>) {
    forall name {:trigger Gathered(objects, moves, m, r, name)} :: name !in names ==> Gathered(objects, moves, m, r, name)
  }

  lemma StillGathered(objects: Objects, moves: Moves, before: Indexes, after: Indexes, r: Ref, refs: set<Ref>, names: set<string>, name: string)
    requires Declares(objects, r, name)
    requires SoFar(objects, moves, before, refs) && NamesSoFar(objects, moves, before, r, names)
    requires Gathers(objects, moves, after, r, name) && FromSome(objects, moves, name, after[name])
    requires after == if name in before then before else before[name := after[name]]
    ensures SoFar(objects, moves, after, refs) && NamesSoFar(objects, moves, after, r, names - {name})
  {
    OneMoreFrom(objects, moves, before, after, name);
    forall q, n | q !in refs ensures Gathered(objects, moves, after, q, n) {
      assert Gathered(objects, moves, before, q, n);
      GatheredOn(objects, moves, before, after, q, n, name);
    }
    forall n | n !in names - {name} ensures Gathered(objects, moves, after, r, n) {
      if n != name {
        assert Gathered(objects, moves, before, r, n);
        GatheredOn(objects, moves, before, after, r, n, name);
      }
    }
  }

  lemma OneMoreFrom(objects: Objects, moves: Moves, before: Indexes, after: Indexes, name: string)
    requires AllFrom(objects, moves, before) && name in after && FromSome(objects, moves, name, after[name])
    requires after == if name in before then before else before[name := after[name]]
    ensures AllFrom(objects, moves, after)
  {
    forall n | n in after ensures FromSome(objects, moves, n, after[n]) {
      assert n == name || FromSome(objects, moves, n, before[n]);
    }
  }

  lemma GatheredOn(objects: Objects, moves: Moves, before: Indexes, after: Indexes, q: Ref, n: string, name: string)
    requires Gathered(objects, moves, before, q, n)
    requires name in after && after == if name in before then before else before[name := after[name]]
    ensures Gathered(objects, moves, after, q, n)
  {
  }

  // One Definition's declarations, in any order.
  method GatherObject(objects: Objects, moves: Moves, result: Indexes, r: Ref, ghost refs: set<Ref>) returns (next: Result<Indexes>)
    requires r in objects && objects[r].DefinitionValue? && r in refs && SoFar(objects, moves, result, refs)
    ensures next.Failure? ==> Disagreement(objects, moves)
    ensures next.Success? ==> SoFar(objects, moves, next.value, refs - {r})
  {
    var declarations := ObjectIndexDeclarations(objects[r].definition);
    var m := result;
    var names := declarations.Keys;
    assert forall name :: Declares(objects, r, name) ==> name in declarations;
    while names != {}
      invariant names <= declarations.Keys && SoFar(objects, moves, m, refs) && NamesSoFar(objects, moves, m, r, names)
      decreases |names|
    {
      var name :| name in names;
      assert Last(Spelled(objects[r].definition), name) != None;
      var one := GatherOne(objects, moves, m, r, name, declarations[name]);
      if one.Failure? {
        return Failure(one.code);
      }
      StillGathered(objects, moves, m, one.value, r, refs, names, name);
      m := one.value;
      names := names - {name};
    }
    ObjectGathered(objects, moves, m, r, refs);
    return Success(m);
  }

  lemma ObjectGathered(objects: Objects, moves: Moves, m: Indexes, r: Ref, refs: set<Ref>)
    requires SoFar(objects, moves, m, refs) && NamesSoFar(objects, moves, m, r, {})
    ensures SoFar(objects, moves, m, refs - {r})
  {
    forall q, name | q !in refs - {r} ensures Gathered(objects, moves, m, q, name) {
      if q == r {
        assert Gathered(objects, moves, m, r, name);
      }
    }
  }

  // collectSnapshotIndexes (nothing moves) and collectPlannedIndexes: the walk succeeds exactly when the
  // declarations agree, whatever order the maps are walked in.
  method CollectIndexes(objects: Objects, moves: Moves) returns (r: Result<Indexes>)
    ensures Collected(objects, moves, r)
  {
    var m: Indexes := map[];
    var refs := objects.Keys;
    while refs != {}
      invariant refs <= objects.Keys && SoFar(objects, moves, m, refs)
      decreases |refs|
    {
      var ref :| ref in refs;
      if objects[ref].DefinitionValue? {
        var next := GatherObject(objects, moves, m, ref, refs);
        if next.Failure? {
          return Failure(next.code);
        }
        m := next.value;
      }
      refs := refs - {ref};
    }
    GatheredAgree(objects, moves, m);
    return Success(m);
  }

  lemma GatheredAgree(objects: Objects, moves: Moves, m: Indexes)
    requires SoFar(objects, moves, m, {})
    ensures !Disagreement(objects, moves)
  {
    forall q, name | Declares(objects, q, name) ensures Gathers(objects, moves, m, q, name) {
      assert Gathered(objects, moves, m, q, name);
    }
  }
}

module IndexPlan {
  import opened Outcomes
  import opened Text
  import opened Sorting
  import opened Model
  import opened BindingGraph
  import opened IndexEntries
  import opened IndexReading

  function Lookup(indexes: Indexes, name: string): Option<Logical> {
    if name in indexes then Some(indexes[name]) else None
  }

  // Every index is stored under its name.
  ghost predicate Named(indexes: Indexes) {
    forall name {:trigger indexes[name]} :: name in indexes ==> indexes[name].name == name
  }

  lemma CollectedNamed(objects: Objects, moves: Moves, r: Result<Indexes>)
    requires Collected(objects, moves, r) && r.Success?
    ensures Named(r.value)
  {
    forall name | name in r.value ensures r.value[name].name == name {
      assert FromSome(objects, moves, name, r.value[name]);
    }
  }

  // ----- derived maintenance: renamed targets and properties

  function MovedTargets(moves: Moves, targets: seq<Ref>): (r: seq<Ref>)
    ensures |r| == |targets| && forall k {:trigger r[k]} :: 0 <= k < |r| ==> Some(r[k]) == Target(moves, To(targets[k]))
  {
    seq(|targets|, k requires 0 <= k < |targets| => if targets[k] in moves.transitions then moves.transitions[targets[k]] else targets[k])
  }

  // One round of the walk over the property renames.
  function RoundProperty(moves: Moves, targets: seq<Ref>, t: Ref, p: string): string {
    if t in targets then RenamedProperty(moves, t, p) else p
  }

  function WalkProperty(moves: Moves, targets: seq<Ref>, order: seq<Ref>, p: string): string {
    if order == [] then p
    else
      var n := |order| - 1;
      RoundProperty(moves, targets, order[n], WalkProperty(moves, targets, order[..n], p))
  }

  function WalkProperties(moves: Moves, targets: seq<Ref>, order: seq<Ref>, names: seq<string>): (r: seq<string>)
    ensures |r| == |names| && forall k {:trigger r[k]} :: 0 <= k < |r| ==> r[k] == WalkProperty(moves, targets, order, names[k])
  {
    seq(|names|, k requires 0 <= k < |names| => WalkProperty(moves, targets, order, names[k]))
  }

  predicate Renames(moves: Moves, t: Ref, p: string) {
    t in moves.renames && p in moves.renames[t]
  }

  // Some target or some property of the index is renamed among the given Definitions.
  ghost predicate Touched(moves: Moves, index: Logical, walked: set<Ref>) {
    || (exists t :: t in index.targets && t in moves.transitions)
    || (exists t, p {:trigger Renames(moves, t, p)} :: t in walked && t in MovedTargets(moves, index.targets) && p in index.properties && Renames(moves, t, p))
  }

  ghost function MovedIndex(moves: Moves, order: seq<Ref>, index: Logical): Logical {
    var targets := MovedTargets(moves, index.targets);
    Logical(index.name, index.kind, targets, WalkProperties(moves, targets, order, index.properties),
            if Touched(moves, index, moves.renames.Keys) then None else index.hidden)
  }

  ghost predicate Orders(order: seq<Ref>, moves: Moves) {
    Distinct(order) && forall t :: t in order <==> t in moves.renames
  }

  // The properties of one covered Definition, renamed in place.
  method RenameIn(moves: Moves, targets: seq<Ref>, t: Ref, names: seq<string>) returns (r: seq<string>, hit: bool)
    requires t in moves.renames
    ensures |r| == |names| && forall k {:trigger r[k]} :: 0 <= k < |r| ==> r[k] == RoundProperty(moves, targets, t, names[k])
    ensures hit <==> t in targets && exists p :: p in names && Renames(moves, t, p)
  {
    r := names;
    hit := false;
    if t in targets {
      var renames := moves.renames[t];
      var k := 0;
      while k < |r|
        invariant 0 <= k <= |r| == |names|
        invariant forall i {:trigger r[i]} :: 0 <= i < |r| ==> r[i] == if i < k then RoundProperty(moves, targets, t, names[i]) else names[i]
        invariant hit <==> exists p :: p in names[..k] && Renames(moves, t, p)
      {
        assert names[..k + 1] == names[..k] + [names[k]];
        if r[k] in renames {
          assert Renames(moves, t, names[k]);
          r := r[k := renames[r[k]]];
          hit := true;
        }
        k := k + 1;
      }
      assert names[..|names|] == names;
    }
  }

  lemma RoundKeeps(moves: Moves, targets: seq<Ref>, order: seq<Ref>, t: Ref, names: seq<string>, before: seq<string>, after: seq<string>)
    requires before == WalkProperties(moves, targets, order, names) && |after| == |names|
    requires forall k {:trigger after[k]} :: 0 <= k < |after| ==> after[k] == RoundProperty(moves, targets, t, before[k])
    ensures after == WalkProperties(moves, targets, order + [t], names)
  {
    assert (order + [t])[..|order|] == order;
  }

  method MoveTargets(moves: Moves, index: Logical) returns (targets: seq<Ref>, changed: bool)
    ensures targets == MovedTargets(moves, index.targets)
    ensures changed <==> Touched(moves, index, {})
  {
    changed := false;
    targets := index.targets;
    var k := 0;
    while k < |targets|
      invariant 0 <= k <= |targets| == |index.targets|
      invariant forall i {:trigger targets[i]} :: 0 <= i < |targets| ==>
                  targets[i] == if i < k then MovedTargets(moves, index.targets)[i] else index.targets[i]
      invariant changed <==> exists i {:trigger index.targets[i]} :: 0 <= i < k && index.targets[i] in moves.transitions
    {
      if targets[k] in moves.transitions {
        assert index.targets[k] in moves.transitions;
        targets := targets[k := moves.transitions[targets[k]]];
        changed := true;
      }
      k := k + 1;
    }
    assert targets == MovedTargets(moves, index.targets);
  }

  // The walk over the property renames, so far.
  ghost predicate WalkedTo(moves: Moves, index: Logical, order: seq<Ref>, rest: set<Ref>, properties: seq<string>, changed: bool) {
    && rest <= moves.renames.Keys && Distinct(order) && (forall t :: t in order <==> t in moves.renames && t !in rest)
    && properties == WalkProperties(moves, MovedTargets(moves, index.targets), order, index.properties)
    && (!changed ==> properties == index.properties)
    && (changed <==> Touched(moves, index, moves.renames.Keys - rest))
  }

  lemma WalkedMore(moves: Moves, index: Logical, order: seq<Ref>, rest: set<Ref>, properties: seq<string>, changed: bool, t: Ref,
                   next: seq<string>, hit: bool)
    requires WalkedTo(moves, index, order, rest, properties, changed) && t in rest && |next| == |properties|
    requires forall k {:trigger next[k]} :: 0 <= k < |next| ==> next[k] == RoundProperty(moves, MovedTargets(moves, index.targets), t, properties[k])
    requires hit <==> t in MovedTargets(moves, index.targets) && exists p :: p in properties && Renames(moves, t, p)
    ensures WalkedTo(moves, index, order + [t], rest - {t}, next, changed || hit)
  {
    RoundKeeps(moves, MovedTargets(moves, index.targets), order, t, index.properties, properties, next);
    TouchedMore(moves, index, moves.renames.Keys - rest, t);
    assert moves.renames.Keys - (rest - {t}) == moves.renames.Keys - rest + {t};
    if !hit {
      Untouched(moves, MovedTargets(moves, index.targets), t, properties, next);
    }
  }

  lemma Untouched(moves: Moves, targets: seq<Ref>, t: Ref, names: seq<string>, next: seq<string>)
    requires |next| == |names| && forall k {:trigger next[k]} :: 0 <= k < |next| ==> next[k] == RoundProperty(moves, targets, t, names[k])
    requires !(t in targets && exists p :: p in names && Renames(moves, t, p))
    ensures next == names
  {
    forall k | 0 <= k < |next| ensures next[k] == names[k] {
      assert names[k] in names;
      assert t in targets ==> !Renames(moves, t, names[k]);
    }
  }

  // The first loop of rebuildIndexes, for one index; the renames are walked in some order.
  method MoveIndex(moves: Moves, index: Logical) returns (r: Logical, ghost order: seq<Ref>)
    ensures Orders(order, moves) && r == MovedIndex(moves, order, index)
  {
    var targets, changed := MoveTargets(moves, index);
    var properties := index.properties;
    var rest := moves.renames.Keys;
    order := [];
    assert moves.renames.Keys - rest == {};
    while rest != {}
      invariant WalkedTo(moves, index, order, rest, properties, changed)
      decreases |rest|
    {
      var t :| t in rest;
      var next, hit := RenameIn(moves, targets, t, properties);
      WalkedMore(moves, index, order, rest, properties, changed, t, next, hit);
      order := order + [t];
      properties := next;
      changed := changed || hit;
      rest := rest - {t};
    }
    assert moves.renames.Keys - {} == moves.renames.Keys;
    r := Logical(index.name, index.kind, targets, properties, if changed then None else index.hidden);
  }

  lemma TouchedMore(moves: Moves, index: Logical, walked: set<Ref>, t: Ref)
    ensures Touched(moves, index, walked + {t}) <==>
            Touched(moves, index, walked) || (t in MovedTargets(moves, index.targets) && exists p :: p in index.properties && Renames(moves, t, p))
  {
  }

  // The covered Definitions rename alike, and none renames what another one's rename gives.
  ghost predicate Unentangled(moves: Moves, targets: seq<Ref>) {
    forall t, u, p {:trigger Renames(moves, t, p), u in targets} :: t in targets && u in targets && Renames(moves, t, p) ==>
      && (Renames(moves, u, p) ==> moves.renames[u][p] == moves.renames[t][p])
      && (Renames(moves, u, moves.renames[t][p]) ==> moves.renames[u][moves.renames[t][p]] == moves.renames[t][p])
  }

  // p, or what the covered Definitions rename it to.
  ghost predicate RenamedOnce(moves: Moves, targets: seq<Ref>, p: string, q: string) {
    && (forall t :: t in targets && Renames(moves, t, p) ==> q == moves.renames[t][p])
    && ((forall t :: t in targets ==> !Renames(moves, t, p)) ==> q == p)
  }

  lemma {:induction false} WalkedSoFar(moves: Moves, targets: seq<Ref>, order: seq<Ref>, p: string)
    requires Unentangled(moves, targets)
    ensures var q := WalkProperty(moves, targets, order, p);
            || (q == p && forall t :: t in order && t in targets && Renames(moves, t, p) ==> moves.renames[t][p] == p)
            || exists t :: t in order && t in targets && Renames(moves, t, p) && q == moves.renames[t][p]
  {
    if order != [] {
      var n := |order| - 1;
      WalkedSoFar(moves, targets, order[..n], p);
      assert order == order[..n] + [order[n]];
    }
  }

  // Then the order the renames are walked in does not matter: every property is renamed once.
  lemma IndexRenamedOnce(moves: Moves, order: seq<Ref>, index: Logical, k: nat)
    requires Orders(order, moves) && Unentangled(moves, MovedTargets(moves, index.targets)) && k < |index.properties|
    ensures RenamedOnce(moves, MovedTargets(moves, index.targets), index.properties[k], MovedIndex(moves, order, index).properties[k])
  {
    WalkedSoFar(moves, MovedTargets(moves, index.targets), order, index.properties[k]);
  }

  // ----- explicit changes

  datatype Delta = Remove(owner: Ref) | Desire(owner: Ref, declaration: Declaration)

  type Deltas = map<string, seq<Delta>>

  ghost predicate NamedDeltas(deltas: Deltas) {
    forall name, d {:trigger d in deltas[name]} :: name in deltas && d in deltas[name] && d.Desire? ==> d.declaration.name == name
  }

  // Every change of the index is its removal.
  predicate AllRemove(ds: seq<Delta>) {
    forall k :: 0 <= k < |ds| ==> ds[k].Remove?
  }

  // Every change asks for the same index.
  predicate AllDesire(moves: Moves, ds: seq<Delta>, index: Logical) {
    forall k {:trigger ds[k]} :: 0 <= k < |ds| ==> Asks(moves, ds[k], index)
  }

  predicate Asks(moves: Moves, d: Delta, index: Logical) {
    && d.Desire? && Meaning(moves, d.owner, d.declaration).Success?
    && Same(index, Meaning(moves, d.owner, d.declaration).value)
  }

  // An index that stays as it was keeps its hidden options.
  function Inherits(before: Option<Logical>, wanted: Logical): Logical {
    if before.Some? && Same(before.value, wanted) then wanted.(hidden := before.value.hidden) else wanted
  }

  // What the changes of one index come to, if they do not contradict each other.
  function Decided(moves: Moves, before: Option<Logical>, ds: seq<Delta>): Option<Option<Logical>> {
    if ds == [] then Some(before)
    else if AllRemove(ds) then Some(None)
    else if ds[0].Desire? && Meaning(moves, ds[0].owner, ds[0].declaration).Success?
         && AllDesire(moves, ds, Meaning(moves, ds[0].owner, ds[0].declaration).value)
    then Some(Some(Inherits(before, Meaning(moves, ds[0].owner, ds[0].declaration).value)))
    else None
  }

  lemma OneDissents(moves: Moves, before: Option<Logical>, ds: seq<Delta>, i: nat, j: nat)
    requires i < |ds| && j < |ds| && ds[i].Remove? && ds[j].Desire?
    ensures Decided(moves, before, ds) == None
  {
    if ds[0].Desire? && Meaning(moves, ds[0].owner, ds[0].declaration).Success? {
      assert !Asks(moves, ds[i], Meaning(moves, ds[0].owner, ds[0].declaration).value);
    }
  }

  method DecideIndex(moves: Moves, before: Option<Logical>, ds: seq<Delta>) returns (r: Result<Option<Logical>>)
    ensures r.Success? <==> Decided(moves, before, ds).Some?
    ensures r.Success? ==> Some(r.value) == Decided(moves, before, ds)
  {
    var selected: Option<Logical> := None;
    var deleteRequested := false;
    var k := 0;
    while k < |ds|
      invariant 0 <= k <= |ds|
      invariant deleteRequested ==> selected == None && k > 0 && AllRemove(ds[..k])
      invariant selected.Some? ==>
                  && k > 0 && ds[0].Desire? && Meaning(moves, ds[0].owner, ds[0].declaration) == Success(selected.value)
                  && AllDesire(moves, ds[..k], selected.value)
      invariant !deleteRequested && selected == None ==> k == 0
    {
      if ds[k].Remove? {
        if selected != None {
          OneDissents(moves, before, ds, k, 0);
          return Failure(ObjectConflict);
        }
        deleteRequested := true;
      } else {
        var logical := LogicalIndexFromDeclaration(moves, ds[k].owner, ds[k].declaration);
        if logical.Failure? {
          assert forall index :: !Asks(moves, ds[k], index);
          return Failure(logical.code);
        }
        if deleteRequested {
          assert ds[..k][0].Remove?;
          OneDissents(moves, before, ds, 0, k);
          return Failure(ObjectConflict);
        }
        if selected == None {
          selected := Some(logical.value);
        } else if !Same(selected.value, logical.value) {
          assert !Asks(moves, ds[k], selected.value);
          return Failure(ObjectConflict);
        }
      }
      assert ds[..k + 1] == ds[..k] + [ds[k]];
      k := k + 1;
    }
    assert ds[..|ds|] == ds;
    if deleteRequested {
      return Success(None);
    }
    if selected.Some? {
      return Success(Some(Inherits(before, selected.value)));
    }
    return Success(before);
  }

  function ChangesOf(deltas: Deltas, name: string): seq<Delta> {
    if name in deltas then deltas[name] else []
  }

  // The second loop of rebuildIndexes: each index is decided by its own changes.
  method ApplyDeltas(moves: Moves, before: Indexes, deltas: Deltas) returns (r: Result<Indexes>)
    ensures r.Success? <==> forall name {:trigger Decided(moves, Lookup(before, name), ChangesOf(deltas, name))} ::
                              Decided(moves, Lookup(before, name), ChangesOf(deltas, name)).Some?
    ensures r.Success? ==> forall name {:trigger Lookup(r.value, name)} ::
                              Some(Lookup(r.value, name)) == Decided(moves, Lookup(before, name), ChangesOf(deltas, name))
  {
    var indexes := before;
    var names := deltas.Keys;
    while names != {}
      invariant names <= deltas.Keys
      invariant forall name {:trigger Lookup(indexes, name)} :: name in names ==> Lookup(indexes, name) == Lookup(before, name)
      invariant forall name {:trigger Lookup(indexes, name)} :: name !in names ==>
                  Some(Lookup(indexes, name)) == Decided(moves, Lookup(before, name), ChangesOf(deltas, name))
      decreases |names|
    {
      var name :| name in names;
      ghost var was := indexes;
      var one := DecideIndex(moves, Lookup(indexes, name), deltas[name]);
      assert Lookup(indexes, name) == Lookup(before, name) && deltas[name] == ChangesOf(deltas, name);
      if one.Failure? {
        return Failure(one.code);
      }
      if one.value.Some? {
        indexes := indexes[name := one.value.value];
      } else {
        indexes := indexes - {name};
      }
      assert forall other :: other != name ==> Lookup(indexes, other) == Lookup(was, other);
      assert Lookup(indexes, name) == one.value;
      names := names - {name};
    }
    forall name ensures Decided(moves, Lookup(before, name), ChangesOf(deltas, name)).Some? {
      assert Some(Lookup(indexes, name)) == Decided(moves, Lookup(before, name), ChangesOf(deltas, name));
    }
    return Success(indexes);
  }

  // ----- what is left of an index whose Definitions are gone

  predicate Home(objects: Objects, t: Ref, index: Logical) {
    t in objects && objects[t].DefinitionValue? && HasProperties(objects[t].definition, index.properties)
  }

  ghost predicate Homed(objects: Objects, index: Logical) {
    index.targets != [] && forall t :: t in index.targets ==> Home(objects, t, index)
  }

  ghost predicate Orphaned(objects: Objects, index: Logical) {
    forall t :: t in index.targets ==> t !in objects
  }

  method CheckIndex(objects: Objects, index: Logical) returns (r: Result<bool>)
    ensures r.Success? <==> Orphaned(objects, index) || Homed(objects, index)
    ensures r == Success(true) ==> Homed(objects, index) && !Orphaned(objects, index)
    ensures r == Success(false) ==> Orphaned(objects, index)
  {
    var surviving := 0;
    var k := 0;
    while k < |index.targets|
      invariant 0 <= surviving <= k <= |index.targets|
      invariant surviving == 0 <==> forall i :: 0 <= i < k ==> index.targets[i] !in objects
      invariant surviving == k <==> forall i :: 0 <= i < k ==> index.targets[i] in objects
    {
      if index.targets[k] in objects {
        surviving := surviving + 1;
      }
      k := k + 1;
    }
    if surviving == 0 {
      return Success(false);
    }
    ghost var i :| 0 <= i < |index.targets| && index.targets[i] in objects;
    assert index.targets[i] in index.targets;
    if surviving != |index.targets| {
      ghost var j :| 0 <= j < |index.targets| && index.targets[j] !in objects;
      assert index.targets[j] in index.targets && !Home(objects, index.targets[j], index);
      return Failure(ObjectConflict);
    }
    k := 0;
    while k < |index.targets|
      invariant 0 <= k <= |index.targets|
      invariant forall i :: 0 <= i < k ==> Home(objects, index.targets[i], index)
    {
      var t := index.targets[k];
      if objects[t].DomainValue? {
        assert !Home(objects, t, index);
        return Failure(Consistency);
      }
      var j := 0;
      while j < |index.properties|
        invariant 0 <= j <= |index.properties|
        invariant forall i :: 0 <= i < j ==> FindProperty(objects[t].definition.properties, index.properties[i]).Some?
      {
        if FindProperty(objects[t].definition.properties, index.properties[j]).None? {
          assert !Home(objects, t, index);
          return Failure(ObjectConflict);
        }
        j := j + 1;
      }
      k := k + 1;
    }
    return Success(true);
  }

  ghost predicate Decent(objects: Objects, index: Option<Logical>) {
    index.Some? ==> Orphaned(objects, index.value) || Homed(objects, index.value)
  }

  ghost function Surviving(objects: Objects, index: Option<Logical>): Option<Logical> {
    if index.Some? && Orphaned(objects, index.value) then None else index
  }

  ghost predicate Kept(objects: Objects, before: Indexes, after: Indexes, name: string) {
    && Decent(objects, Lookup(before, name)) && Lookup(after, name) == Surviving(objects, Lookup(before, name))
    && (name in after ==> Homed(objects, after[name]))
  }

  // The third loop of rebuildIndexes.
  method KeepSurviving(objects: Objects, before: Indexes) returns (r: Result<Indexes>)
    ensures r.Success? <==> forall name {:trigger Lookup(before, name)} :: Decent(objects, Lookup(before, name))
    ensures r.Success? ==> forall name {:trigger Kept(objects, before, r.value, name)} :: Kept(objects, before, r.value, name)
  {
    var indexes := before;
    var names := before.Keys;
    while names != {}
      invariant names <= before.Keys
      invariant forall name {:trigger Lookup(indexes, name)} :: name in names ==> Lookup(indexes, name) == Lookup(before, name)
      invariant forall name {:trigger Kept(objects, before, indexes, name)} :: name !in names ==> Kept(objects, before, indexes, name)
      decreases |names|
    {
      var name :| name in names;
      ghost var was := indexes;
      var one := CheckIndex(objects, before[name]);
      assert Lookup(indexes, name) == Lookup(before, name) == Some(before[name]);
      if one.Failure? {
        assert !Decent(objects, Lookup(before, name));
        return Failure(one.code);
      }
      if !one.value {
        indexes := indexes - {name};
      }
      assert forall other {:trigger Lookup(indexes, other)} :: other != name ==> Lookup(indexes, other) == Lookup(was, other);
      assert Kept(objects, before, indexes, name);
      forall other | other !in names - {name} ensures Kept(objects, before, indexes, other) {
        if other != name {
          assert Kept(objects, before, was, other);
        }
      }
      names := names - {name};
    }
    forall name ensures Decent(objects, Lookup(before, name)) {
      assert Kept(objects, before, indexes, name);
    }
    return Success(indexes);
  }
}

module IndexRoundTrip {
  import opened Outcomes
  import opened Text
  import opened Sorting
  import opened Model
  import opened BindingGraph
  import opened IndexEntries
  import opened IndexReading
  import opened IndexPlan

  // ----- writing the settled indexes into the Definitions

  // The object with one more declaration if the index covers it, otherwise as it was.
  ghost predicate Wrote(before: Value, after: Value, index: Logical, covered: bool) {
    if before.DomainValue? then after == before
    else
      && after.DefinitionValue? && Unindexed(after.definition) == Unindexed(before.definition)
      && forall e {:trigger e in Spelled(after.definition)} ::
           e in Spelled(after.definition) <==> e in Spelled(before.definition) || (covered && e == EntryOf(index))
  }

  lemma BareKeepsNames(d: Definition, e: Definition, names: seq<string>)
    requires Unindexed(d) == Unindexed(e) && HasProperties(d, names)
    ensures HasProperties(e, names)
  {
    forall name | name in names ensures FindProperty(e.properties, name).Some? {
      var p := FindProperty(d.properties, name).value;
      var k :| 0 <= k < |d.properties| && d.properties[k] == p;
      assert BareProperties(d.properties)[k].name == name;
      assert BareProperties(e.properties)[k].name == e.properties[k].name;
      assert e.properties[k] in e.properties;
    }
  }

  lemma WroteOnce(before: Value, now: Value, index: Logical, covered: bool)
    requires before.DefinitionValue? && Wrote(before, now, index, covered) && HasProperties(before.definition, index.properties)
    ensures Wrote(before, DefinitionValue(WithIndex(now.definition, index)), index, true)
  {
    BareKeepsNames(before.definition, now.definition, index.properties);
    forall e ensures e in Spelled(WithIndex(now.definition, index)) <==> e in Spelled(before.definition) || e == EntryOf(index) {
      WithIndexDeclares(now.definition, index, e);
      assert e in Spelled(now.definition) <==> e in Spelled(before.definition) || (covered && e == EntryOf(index));
    }
    WithIndexDeclares(now.definition, index, EntryOf(index));
  }

  // One index, into every Definition it covers.
  method ProjectOne(objects: Objects, index: Logical) returns (after: Objects)
    requires Homed(objects, index)
    ensures after.Keys == objects.Keys
    ensures forall r {:trigger after[r]} :: r in objects ==> Wrote(objects[r], after[r], index, r in index.targets)
  {
    after := objects;
    var k := 0;
    while k < |index.targets|
      invariant 0 <= k <= |index.targets| && after.Keys == objects.Keys
      invariant forall r {:trigger after[r]} :: r in objects ==> Wrote(objects[r], after[r], index, r in index.targets[..k])
    {
      var t := index.targets[k];
      assert Home(objects, t, index);
      assert index.targets[..k + 1] == index.targets[..k] + [t];
      assert Wrote(objects[t], after[t], index, t in index.targets[..k]);
      WroteOnce(objects[t], after[t], index, t in index.targets[..k]);
      after := after[t := DefinitionValue(WithIndex(after[t].definition, index))];
      k := k + 1;
    }
    assert index.targets[..|index.targets|] == index.targets;
  }

  // r declares exactly the named indexes that cover it.
  predicate ShownBy(indexes: Indexes, names: set<string>, r: Ref, e: Entry) {
    e.name in names && e.name in indexes && r in indexes[e.name].targets && e == EntryOf(indexes[e.name])
  }

  ghost predicate Shows(before: Value, after: Value, indexes: Indexes, names: set<string>, r: Ref) {
    if before.DomainValue? then after == before
    else
      && after.DefinitionValue? && Unindexed(after.definition) == Unindexed(before.definition)
      && forall e {:trigger e in Spelled(after.definition)} :: e in Spelled(after.definition) <==> ShownBy(indexes, names, r, e)
  }

  ghost predicate Shown(before: Objects, after: Objects, indexes: Indexes, names: set<string>) {
    && after.Keys == before.Keys
    && forall r {:trigger after[r]} :: r in before ==> Shows(before[r], after[r], indexes, names, r)
  }

  method ClearIndexes(objects: Objects) returns (after: Objects)
    ensures forall indexes {:trigger Shown(objects, after, indexes, {})} :: Shown(objects, after, indexes, {})
  {
    after := objects;
    var refs := objects.Keys;
    while refs != {}
      invariant refs <= objects.Keys && after.Keys == objects.Keys
      invariant forall r {:trigger after[r]} :: r in refs ==> after[r] == objects[r]
      invariant forall r {:trigger after[r]} :: r in objects && r !in refs ==>
                  after[r] == if objects[r].DomainValue? then objects[r] else DefinitionValue(Unindexed(objects[r].definition))
      decreases |refs|
    {
      var r :| r in refs;
      if after[r].DefinitionValue? {
        after := after[r := DefinitionValue(Unindexed(after[r].definition))];
      }
      refs := refs - {r};
    }
    forall indexes ensures Shown(objects, after, indexes, {}) {
      forall r | r in objects ensures Shows(objects[r], after[r], indexes, {}, r) {
        if objects[r].DefinitionValue? {
          BareDeclaresNothing(objects[r].definition);
        }
      }
    }
  }

  lemma StillHomed(before: Objects, after: Objects, indexes: Indexes, names: set<string>, index: Logical)
    requires Shown(before, after, indexes, names) && Homed(before, index)
    ensures Homed(after, index)
  {
    forall t | t in index.targets ensures Home(after, t, index) {
      assert Home(before, t, index);
      assert Shows(before[t], after[t], indexes, names, t);
      BareKeepsNames(before[t].definition, after[t].definition, index.properties);
    }
  }

  lemma ShowsMore(before: Value, now: Value, after: Value, indexes: Indexes, names: set<string>, name: string, r: Ref)
    requires Named(indexes) && name in indexes
    requires Shows(before, now, indexes, names, r) && Wrote(now, after, indexes[name], r in indexes[name].targets)
    ensures Shows(before, after, indexes, names + {name}, r)
  {
    if before.DefinitionValue? {
      forall e ensures e in Spelled(after.definition) <==> ShownBy(indexes, names + {name}, r, e) {
        assert e in Spelled(now.definition) <==> ShownBy(indexes, names, r, e);
        assert e == EntryOf(indexes[name]) ==> e.name == name;
      }
    }
  }

  // The last loops of rebuildIndexes, in any order.
  method Project(objects: Objects, indexes: Indexes) returns (after: Objects)
    requires Named(indexes) && forall name {:trigger indexes[name]} :: name in indexes ==> Homed(objects, indexes[name])
    ensures Shown(objects, after, indexes, indexes.Keys)
  {
    after := ClearIndexes(objects);
    var names := indexes.Keys;
    assert indexes.Keys - names == {};
    assert Shown(objects, after, indexes, {});
    while names != {}
      invariant names <= indexes.Keys && Shown(objects, after, indexes, indexes.Keys - names)
      decreases |names|
    {
      var name :| name in names;
      StillHomed(objects, after, indexes, indexes.Keys - names, indexes[name]);
      var next := ProjectOne(after, indexes[name]);
      forall r | r in objects ensures Shows(objects[r], next[r], indexes, indexes.Keys - names + {name}, r) {
        assert Shows(objects[r], after[r], indexes, indexes.Keys - names, r);
        assert Wrote(after[r], next[r], indexes[name], r in indexes[name].targets);
        ShowsMore(objects[r], after[r], next[r], indexes, indexes.Keys - names, name, r);
      }
      assert indexes.Keys - (names - {name}) == indexes.Keys - names + {name};
      after := next;
      names := names - {name};
    }
    assert indexes.Keys - names == indexes.Keys;
  }

  // ----- reading them again

  function Canon(index: Logical): Logical {
    index.(targets := SortedRefs(index.targets))
  }

  // What a covered Definition's declaration of the index reads as.
  function Reread(moves: Moves, r: Ref, index: Logical): Logical {
    index.(targets := if |index.targets| > 1 then SortedRefs(MovedTargets(moves, index.targets)) else index.targets,
           properties := RenamedProperties(moves, r, index.properties))
  }

  // The declarations of the index read as the index.
  ghost predicate Unmoved(moves: Moves, index: Logical) {
    SameTargets(moves, index) && forall t :: t in index.targets ==> SameText(moves, index, t)
  }

  ghost predicate AllUnmoved(moves: Moves, indexes: Indexes) {
    forall name {:trigger indexes[name]} :: name in indexes ==> Unmoved(moves, indexes[name])
  }

  ghost predicate NameIsBack(indexes: Indexes, m: Indexes, name: string) {
    (name in m <==> name in indexes) && (name in m ==> Agree(m[name], Canon(indexes[name])))
  }

  // The settled indexes were gathered again, up to the order of their targets.
  ghost predicate Back(indexes: Indexes, r: Result<Indexes>) {
    r.Success? && forall name {:trigger NameIsBack(indexes, r.value, name)} :: NameIsBack(indexes, r.value, name)
  }

  ghost predicate Projected(objects: Objects, indexes: Indexes) {
    && Named(indexes)
    && (forall name, t {:trigger t in indexes[name].targets} :: name in indexes && t in indexes[name].targets ==> t in objects && objects[t].DefinitionValue?)
    && (forall name {:trigger indexes[name]} :: name in indexes ==> indexes[name].targets != [])
    && (forall r, e {:trigger e in Spelled(objects[r].definition)} :: r in objects && objects[r].DefinitionValue? ==>
          (e in Spelled(objects[r].definition) <==> ShownBy(indexes, indexes.Keys, r, e)))
  }

  lemma ShownIsProjected(before: Objects, after: Objects, indexes: Indexes)
    requires Named(indexes) && forall name {:trigger indexes[name]} :: name in indexes ==> Homed(before, indexes[name])
    requires Shown(before, after, indexes, indexes.Keys)
    ensures Projected(after, indexes)
  {
    forall name, t | name in indexes && t in indexes[name].targets ensures t in after && after[t].DefinitionValue? {
      assert Home(before, t, indexes[name]);
      assert Shows(before[t], after[t], indexes, indexes.Keys, t);
    }
    forall r, e | r in after && after[r].DefinitionValue? ensures e in Spelled(after[r].definition) <==> ShownBy(indexes, indexes.Keys, r, e) {
      assert Shows(before[r], after[r], indexes, indexes.Keys, r);
    }
  }

  lemma DeclaredAsProjected(objects: Objects, indexes: Indexes, r: Ref, name: string)
    requires Projected(objects, indexes)
    ensures Declares(objects, r, name) <==> name in indexes && r in indexes[name].targets
    ensures Declares(objects, r, name) ==>
              var s := Spelled(objects[r].definition);
              Last(s, name) == Some(EntryOf(indexes[name])) && HiddenIn(s, name) == indexes[name].hidden
  {
    if r in objects && objects[r].DefinitionValue? {
      var s := Spelled(objects[r].definition);
      forall e | e in s && e.name == name ensures name in indexes && r in indexes[name].targets && e == EntryOf(indexes[name]) {
        assert ShownBy(indexes, indexes.Keys, r, e);
      }
      if name in indexes && r in indexes[name].targets {
        var e := EntryOf(indexes[name]);
        assert e.name == name;
        assert e in s <==> ShownBy(indexes, indexes.Keys, r, e);
        OneDeclaration(s, e);
      }
    }
  }

  lemma ReferencesBack(moves: Moves, refs: seq<Ref>)
    ensures forall k :: 0 <= k < |refs| ==> Resolves(moves, AsReferences(refs)[k])
    ensures TargetsOf(moves, AsReferences(refs)) == MovedTargets(moves, refs)
  {
    assert forall k :: 0 <= k < |refs| ==> Resolves(moves, AsReferences(refs)[k]);
    var a, b := TargetsOf(moves, AsReferences(refs)), MovedTargets(moves, refs);
    forall k | 0 <= k < |a| ensures a[k] == b[k] {
      assert Some(a[k]) == Target(moves, AsReferences(refs)[k]);
      assert Some(b[k]) == Target(moves, To(refs[k]));
    }
  }

  lemma ProjectionReads(objects: Objects, indexes: Indexes, moves: Moves, r: Ref, name: string)
    requires Projected(objects, indexes) && Declares(objects, r, name)
    ensures name in indexes && r in indexes[name].targets
    ensures Projection(objects, moves, r, name) == Success(Reread(moves, r, indexes[name]))
  {
    DeclaredAsProjected(objects, indexes, r, name);
    var index := indexes[name];
    if |index.targets| > 1 {
      ReferencesBack(moves, index.targets);
    } else {
      assert index.targets == [r];
    }
  }

  predicate SameTargets(moves: Moves, index: Logical) {
    |index.targets| > 1 ==> multiset(MovedTargets(moves, index.targets)) == multiset(index.targets)
  }

  predicate SameText(moves: Moves, index: Logical, t: Ref) {
    Join(RenamedProperties(moves, t, index.properties), '\0') == Join(index.properties, '\0')
  }

  lemma RereadAgreesAt(moves: Moves, index: Logical, t: Ref)
    requires index.targets != []
    ensures Agree(Reread(moves, t, index), Canon(index)) <==> SameTargets(moves, index) && SameText(moves, index, t)
  {
    if |index.targets| > 1 {
      SortedRefsAgree(MovedTargets(moves, index.targets), index.targets);
    } else {
      SortedRefsUnique(index.targets, index.targets);
    }
  }

  lemma RereadAgrees(moves: Moves, index: Logical)
    requires index.targets != []
    ensures Unmoved(moves, index) <==> forall t :: t in index.targets ==> Agree(Reread(moves, t, index), Canon(index))
  {
    forall t ensures Agree(Reread(moves, t, index), Canon(index)) <==> SameTargets(moves, index) && SameText(moves, index, t) {
      RereadAgreesAt(moves, index, t);
    }
    assert index.targets[0] in index.targets;
  }

  lemma ProjectionAgrees(objects: Objects, indexes: Indexes, moves: Moves, r: Ref, name: string)
    requires Projected(objects, indexes) && Declares(objects, r, name) && (name in indexes ==> Unmoved(moves, indexes[name]))
    ensures name in indexes && Projection(objects, moves, r, name).Success? && Agree(Projection(objects, moves, r, name).value, Canon(indexes[name]))
  {
    ProjectionReads(objects, indexes, moves, r, name);
    RereadAgrees(moves, indexes[name]);
  }

  lemma NoDisagreement(objects: Objects, indexes: Indexes, moves: Moves, r: Result<Indexes>)
    requires Projected(objects, indexes) && Collected(objects, moves, r)
    requires AllUnmoved(moves, indexes)
    ensures r.Success? && SoFar(objects, moves, r.value, {})
  {
    forall q, name | Declares(objects, q, name)
      ensures name in indexes && Projection(objects, moves, q, name).Success? && Agree(Projection(objects, moves, q, name).value, Canon(indexes[name]))
    {
      ProjectionAgrees(objects, indexes, moves, q, name);
    }
  }

  // One name: it is gathered exactly if it was settled, and as it was settled.
  lemma NameBack(objects: Objects, indexes: Indexes, moves: Moves, m: Indexes, name: string)
    requires Projected(objects, indexes) && SoFar(objects, moves, m, {}) && AllUnmoved(moves, indexes)
    ensures NameIsBack(indexes, m, name)
  {
    if name in indexes {
      var t := indexes[name].targets[0];
      DeclaredAsProjected(objects, indexes, t, name);
      assert Gathered(objects, moves, m, t, name);
    }
    if name in m {
      var q := SomeSource(objects, moves, m, name);
      ProjectionAgrees(objects, indexes, moves, q, name);
    }
  }

  lemma SomeSource(objects: Objects, moves: Moves, m: Indexes, name: string) returns (q: Ref)
    requires SoFar(objects, moves, m, {}) && name in m
    ensures Declares(objects, q, name) && Projection(objects, moves, q, name) == Success(m[name])
  {
    assert FromSome(objects, moves, name, m[name]);
    q :| Declares(objects, q, name) && Projection(objects, moves, q, name) == Success(m[name]);
  }

  lemma BackWhenUnmoved(objects: Objects, indexes: Indexes, moves: Moves, r: Result<Indexes>)
    requires Projected(objects, indexes) && Collected(objects, moves, r)
    requires AllUnmoved(moves, indexes)
    ensures Back(indexes, r)
  {
    NoDisagreement(objects, indexes, moves, r);
    AllBack(objects, indexes, moves, r.value);
  }

  lemma AllBack(objects: Objects, indexes: Indexes, moves: Moves, m: Indexes)
    requires Projected(objects, indexes) && SoFar(objects, moves, m, {})
    requires AllUnmoved(moves, indexes)
    ensures Back(indexes, Success(m))
  {
    forall name ensures NameIsBack(indexes, m, name) {
      NameBack(objects, indexes, moves, m, name);
    }
  }

  lemma UnmovedWhenBack(objects: Objects, indexes: Indexes, moves: Moves, r: Result<Indexes>, name: string)
    requires Projected(objects, indexes) && Collected(objects, moves, r) && Back(indexes, r) && name in indexes
    ensures Unmoved(moves, indexes[name])
  {
    forall t | t in indexes[name].targets ensures Agree(Reread(moves, t, indexes[name]), Canon(indexes[name])) {
      DeclaredAsProjected(objects, indexes, t, name);
      assert Gathered(objects, moves, r.value, t, name);
      ProjectionReads(objects, indexes, moves, t, name);
      assert NameIsBack(indexes, r.value, name);
    }
    RereadAgrees(moves, indexes[name]);
  }

  // The settled indexes come back from the Definitions they were written into exactly when no declaration
  // is moved a second time.
  lemma RoundTrip(objects: Objects, indexes: Indexes, moves: Moves, r: Result<Indexes>)
    requires Projected(objects, indexes) && Collected(objects, moves, r)
    ensures Back(indexes, r) <==> AllUnmoved(moves, indexes)
  {
    if Back(indexes, r) {
      forall name | name in indexes ensures Unmoved(moves, indexes[name]) {
        UnmovedWhenBack(objects, indexes, moves, r, name);
      }
    } else if AllUnmoved(moves, indexes) {
      BackWhenUnmoved(objects, indexes, moves, r);
    }
  }

  // No covered Definition has the name of a renamed one, no property the name of a renamed one.
  ghost predicate NamesUnused(moves: Moves, index: Logical) {
    forall t :: t in index.targets ==> t !in moves.transitions && forall p {:trigger Renames(moves, t, p)} :: p in index.properties ==> !Renames(moves, t, p)
  }

  ghost predicate AllUnused(moves: Moves, indexes: Indexes) {
    forall name {:trigger indexes[name]} :: name in indexes ==> NamesUnused(moves, indexes[name])
  }

  lemma UnusedAreUnmoved(moves: Moves, index: Logical)
    requires NamesUnused(moves, index)
    ensures Unmoved(moves, index) && forall t :: t in index.targets ==> RenamedProperties(moves, t, index.properties) == index.properties
  {
    var moved := MovedTargets(moves, index.targets);
    forall k | 0 <= k < |moved| ensures moved[k] == index.targets[k] {
      assert index.targets[k] in index.targets;
    }
    assert moved == index.targets;
    forall t | t in index.targets ensures RenamedProperties(moves, t, index.properties) == index.properties {
      var renamed := RenamedProperties(moves, t, index.properties);
      forall k | 0 <= k < |renamed| ensures renamed[k] == index.properties[k] {
        assert index.properties[k] in index.properties;
        assert !Renames(moves, t, index.properties[k]);
      }
    }
  }

  // Where the patch reuses no name, the indexes come back unchanged.
  lemma UnusedNamesComeBack(objects: Objects, indexes: Indexes, moves: Moves, r: Result<Indexes>)
    requires Projected(objects, indexes) && Collected(objects, moves, r)
    requires AllUnused(moves, indexes)
    ensures r.Success? && r.value == Canons(indexes)
  {
    forall name | name in indexes ensures Unmoved(moves, indexes[name]) {
      UnusedAreUnmoved(moves, indexes[name]);
    }
    NoDisagreement(objects, indexes, moves, r);
    AllUnchanged(objects, indexes, moves, r.value);
  }

  lemma AllUnchanged(objects: Objects, indexes: Indexes, moves: Moves, m: Indexes)
    requires Projected(objects, indexes) && SoFar(objects, moves, m, {})
    requires AllUnused(moves, indexes) && AllUnmoved(moves, indexes)
    ensures m == Canons(indexes)
  {
    AllBack(objects, indexes, moves, m);
    forall name ensures IsCanon(indexes, m, name) {
      assert NameIsBack(indexes, m, name);
      if name in indexes {
        UnusedNameBack(objects, indexes, moves, m, name);
      }
    }
    AreCanon(indexes, m);
  }

  ghost predicate IsCanon(indexes: Indexes, m: Indexes, name: string) {
    (name in m <==> name in indexes) && (name in m ==> m[name] == Canon(indexes[name]))
  }

  lemma AreCanon(indexes: Indexes, m: Indexes)
    requires forall name {:trigger IsCanon(indexes, m, name)} :: IsCanon(indexes, m, name)
    ensures m == Canons(indexes)
  {
    forall name ensures (name in m <==> name in indexes) && (name in m ==> m[name] == Canon(indexes[name])) {
      assert IsCanon(indexes, m, name);
    }
  }

  // The settled indexes with their targets sorted.
  ghost function Canons(indexes: Indexes): Indexes {
    map name | name in indexes :: Canon(indexes[name])
  }

  lemma UnusedNameBack(objects: Objects, indexes: Indexes, moves: Moves, m: Indexes, name: string)
    requires Projected(objects, indexes) && SoFar(objects, moves, m, {}) && name in m
    requires name in indexes && NamesUnused(moves, indexes[name]) && NameIsBack(indexes, m, name)
    ensures m[name] == Canon(indexes[name])
  {
    var q := SomeSource(objects, moves, m, name);
    ProjectionReads(objects, indexes, moves, q, name);
    UnusedAreUnmoved(moves, indexes[name]);
  }

  // A shared index on a Definition that took the name of a renamed one does not come back, unless the
  // rename leads to a Definition the index covers too.
  lemma ReusedTargetMoves(moves: Moves, index: Logical, t: Ref)
    requires |index.targets| > 1 && t in index.targets && t in moves.transitions && moves.transitions[t] !in index.targets
    ensures !Unmoved(moves, index)
  {
    var k :| 0 <= k < |index.targets| && index.targets[k] == t;
    var moved := MovedTargets(moves, index.targets);
    assert moved[k] == moves.transitions[t];
    assert moved[k] in multiset(moved) && moved[k] !in multiset(index.targets);
  }

  // Nor does an index on a property that took the name of a renamed one.
  lemma ReusedPropertyMoves(moves: Moves, index: Logical, t: Ref, k: nat)
    requires t in index.targets && k < |index.properties| && Renames(moves, t, index.properties[k])
    requires moves.renames[t][index.properties[k]] != index.properties[k]
    requires forall i {:trigger index.properties[i]} :: 0 <= i < |index.properties| ==>
               '\0' !in index.properties[i] && '\0' !in RenamedProperty(moves, t, index.properties[i])
    ensures !Unmoved(moves, index)
  {
    var renamed := RenamedProperties(moves, t, index.properties);
    assert renamed[k] != index.properties[k];
    forall i | 0 <= i < |renamed| ensures '\0' !in renamed[i] {
      assert '\0' !in RenamedProperty(moves, t, index.properties[i]);
    }
    SplitJoin(renamed, '\0');
    SplitJoin(index.properties, '\0');
  }

  // ----- rebuildIndexes

  // Each index: gathered from the base, moved, decided, and kept if its Definitions are.
  ghost predicate Settles(base: Objects, objects: Objects, moves: Moves, deltas: Deltas, gathered: Indexes, moved: Indexes, settled: Indexes) {
    && Collected(base, Unmoving, Success(gathered))
    && moved.Keys == gathered.Keys
    && (forall name {:trigger moved[name]} :: name in moved ==> MovedSomehow(moves, gathered[name], moved[name]))
    && (forall name {:trigger SettledName(objects, moves, deltas, moved, settled, name)} :: SettledName(objects, moves, deltas, moved, settled, name))
  }

  // What is gathered from the base and moved, before any explicit change.
  ghost predicate Started(base: Objects, moves: Moves, gathered: Indexes, moved: Indexes) {
    && Collected(base, Unmoving, Success(gathered)) && moved.Keys == gathered.Keys
    && forall name {:trigger moved[name]} :: name in moved ==> MovedSomehow(moves, gathered[name], moved[name])
  }

  // The changes of one index agree, and all of its Definitions are left as it needs them, or none is.
  ghost predicate NameSettleable(objects: Objects, moves: Moves, deltas: Deltas, moved: Indexes, name: string) {
    var decided := Decided(moves, Lookup(moved, name), ChangesOf(deltas, name));
    decided.Some? && Decent(objects, decided.value)
  }

  ghost predicate Settleable(base: Objects, objects: Objects, moves: Moves, deltas: Deltas, moved: Indexes) {
    && !Disagreement(base, Unmoving)
    && forall name {:trigger NameSettleable(objects, moves, deltas, moved, name)} :: NameSettleable(objects, moves, deltas, moved, name)
  }

  lemma WantedSettleable(objects: Objects, moves: Moves, deltas: Deltas, moved: Indexes, wanted: Indexes, name: string)
    requires Some(Lookup(wanted, name)) == Decided(moves, Lookup(moved, name), ChangesOf(deltas, name))
    ensures NameSettleable(objects, moves, deltas, moved, name) <==> Decent(objects, Lookup(wanted, name))
  {
  }

  ghost predicate MovedSomehow(moves: Moves, before: Logical, after: Logical) {
    exists order :: Orders(order, moves) && after == MovedIndex(moves, order, before)
  }

  ghost predicate SettledName(objects: Objects, moves: Moves, deltas: Deltas, moved: Indexes, settled: Indexes, name: string) {
    var decided := Decided(moves, Lookup(moved, name), ChangesOf(deltas, name));
    && decided.Some? && Lookup(settled, name) == Surviving(objects, decided.value)
    && (name in settled ==> Homed(objects, settled[name]) && settled[name].name == name)
  }

  // An index outside names is moved, one of names is as it was.
  ghost predicate MovedAt(moves: Moves, gathered: Indexes, moved: Indexes, names: set<string>, name: string) {
    name in gathered && name in moved ==>
      if name in names then moved[name] == gathered[name] else MovedSomehow(moves, gathered[name], moved[name])
  }

  ghost predicate MovedBut(moves: Moves, gathered: Indexes, moved: Indexes, names: set<string>) {
    && moved.Keys == gathered.Keys && Named(moved)
    && forall name {:trigger MovedAt(moves, gathered, moved, names, name)} :: MovedAt(moves, gathered, moved, names, name)
  }

  method MoveOne(moves: Moves, ghost gathered: Indexes, moved: Indexes, ghost names: set<string>, name: string) returns (next: Indexes)
    requires MovedBut(moves, gathered, moved, names) && name in names && name in gathered
    ensures MovedBut(moves, gathered, next, names - {name})
  {
    var one, order := MoveIndex(moves, moved[name]);
    assert MovedAt(moves, gathered, moved, names, name);
    SomehowKeepsName(moves, order, gathered[name], one);
    next := moved[name := one];
    forall other ensures MovedAt(moves, gathered, next, names - {name}, other) {
      assert MovedAt(moves, gathered, moved, names, other);
    }
  }

  lemma AllMoved(moves: Moves, gathered: Indexes, moved: Indexes)
    requires MovedBut(moves, gathered, moved, {})
    ensures moved.Keys == gathered.Keys && Named(moved)
    ensures forall name {:trigger moved[name]} :: name in moved ==> MovedSomehow(moves, gathered[name], moved[name])
  {
    forall name | name in moved ensures MovedSomehow(moves, gathered[name], moved[name]) {
      assert MovedAt(moves, gathered, moved, {}, name);
    }
  }

  lemma NoneMoved(moves: Moves, gathered: Indexes)
    requires Named(gathered)
    ensures MovedBut(moves, gathered, gathered, gathered.Keys)
  {
  }

  method MoveAll(moves: Moves, gathered: Indexes) returns (moved: Indexes)
    requires Named(gathered)
    ensures MovedBut(moves, gathered, moved, {})
  {
    moved := gathered;
    var names := gathered.Keys;
    NoneMoved(moves, gathered);
    while names != {}
      invariant names <= gathered.Keys && MovedBut(moves, gathered, moved, names)
      decreases |names|
    {
      var name :| name in names;
      moved := MoveOne(moves, gathered, moved, names, name);
      names := names - {name};
    }
  }

  lemma SomehowKeepsName(moves: Moves, order: seq<Ref>, before: Logical, after: Logical)
    requires Orders(order, moves) && after == MovedIndex(moves, order, before)
    ensures MovedSomehow(moves, before, after) && after.name == before.name
  {
  }

  lemma DecidedNamed(moves: Moves, moved: Indexes, deltas: Deltas, name: string)
    requires Named(moved) && NamedDeltas(deltas)
    ensures var decided := Decided(moves, Lookup(moved, name), ChangesOf(deltas, name));
            decided.Some? && decided.value.Some? ==> decided.value.value.name == name
  {
    var ds := ChangesOf(deltas, name);
    if ds != [] && ds[0].Desire? {
      assert ds[0] in deltas[name];
    }
  }

  lemma NameSettles(objects: Objects, moves: Moves, deltas: Deltas, moved: Indexes, wanted: Indexes, settled: Indexes, name: string)
    requires Named(moved) && NamedDeltas(deltas)
    requires Some(Lookup(wanted, name)) == Decided(moves, Lookup(moved, name), ChangesOf(deltas, name))
    requires Kept(objects, wanted, settled, name)
    ensures SettledName(objects, moves, deltas, moved, settled, name)
  {
    DecidedNamed(moves, moved, deltas, name);
    if name in settled {
      assert Lookup(settled, name) == Some(settled[name]);
    }
  }

  method RebuildIndexes(base: Objects, objects: Objects, moves: Moves, deltas: Deltas)
      returns (r: Result<Objects>, ghost gathered: Indexes, ghost moved: Indexes, ghost settled: Indexes)
    requires NamedDeltas(deltas)
    ensures !Disagreement(base, Unmoving) ==> Started(base, moves, gathered, moved)
    ensures r.Success? <==> Settleable(base, objects, moves, deltas, moved)
    ensures r.Success? ==> Settles(base, objects, moves, deltas, gathered, moved, settled)
    ensures r.Success? ==> Shown(objects, r.value, settled, settled.Keys) && Projected(r.value, settled)
  {
    gathered, moved, settled := map[], map[], map[];
    var collected := CollectIndexes(base, Unmoving);
    if collected.Failure? {
      return Failure(Consistency), gathered, moved, settled;
    }
    gathered := collected.value;
    CollectedNamed(base, Unmoving, collected);
    var shifted := MoveAll(moves, collected.value);
    AllMoved(moves, gathered, shifted);
    moved := shifted;
    var wanted := ApplyDeltas(moves, shifted, deltas);
    if wanted.Failure? {
      ghost var name :| Decided(moves, Lookup(moved, name), ChangesOf(deltas, name)).None?;
      assert !NameSettleable(objects, moves, deltas, moved, name);
      return Failure(wanted.code), gathered, moved, settled;
    }
    forall name
      ensures Some(Lookup(wanted.value, name)) == Decided(moves, Lookup(moved, name), ChangesOf(deltas, name))
      ensures NameSettleable(objects, moves, deltas, moved, name) <==> Decent(objects, Lookup(wanted.value, name))
    {
      WantedSettleable(objects, moves, deltas, moved, wanted.value, name);
    }
    var kept := KeepSurviving(objects, wanted.value);
    if kept.Failure? {
      ghost var name :| !Decent(objects, Lookup(wanted.value, name));
      assert !NameSettleable(objects, moves, deltas, moved, name);
      return Failure(kept.code), gathered, moved, settled;
    }
    settled := kept.value;
    forall name ensures SettledName(objects, moves, deltas, moved, settled, name) {
      assert Kept(objects, wanted.value, settled, name);
      NameSettles(objects, moves, deltas, moved, wanted.value, settled, name);
    }
    assert forall name {:trigger settled[name]} :: name in settled ==> SettledName(objects, moves, deltas, moved, settled, name);
    var after := Project(objects, kept.value);
    ShownIsProjected(objects, after, settled);
    r := Success(after);
  }

  // No planned Definition has the name of a renamed one, and none has a Property under a renamed name.
  ghost predicate FreshFor(objects: Objects, moves: Moves) {
    && (forall t :: t in moves.transitions ==> t !in objects)
    && (forall t, p {:trigger Renames(moves, t, p)} :: t in objects && objects[t].DefinitionValue? && Renames(moves, t, p) ==>
          FindProperty(objects[t].definition.properties, p).None?)
  }

  // Then no settled index uses such a name.
  lemma FreshNamesUnused(base: Objects, objects: Objects, moves: Moves, deltas: Deltas, gathered: Indexes, moved: Indexes, settled: Indexes)
    requires Settles(base, objects, moves, deltas, gathered, moved, settled)
    requires FreshFor(objects, moves)
    ensures AllUnused(moves, settled)
  {
    forall name | name in settled ensures NamesUnused(moves, settled[name]) {
      assert SettledName(objects, moves, deltas, moved, settled, name);
      forall t | t in settled[name].targets
        ensures t !in moves.transitions && forall p {:trigger Renames(moves, t, p)} :: p in settled[name].properties ==> !Renames(moves, t, p)
      {
        assert Home(objects, t, settled[name]);
      }
    }
  }

  // A planned patch, and the indexes the compiler gathers from it: exactly those the plan settled, where no
  // declaration is moved a second time; and without any change where no name is reused.
  method PlanThenCollect(base: Objects, objects: Objects, moves: Moves, deltas: Deltas)
      returns (planned: Result<Objects>, r: Result<Indexes>, ghost gathered: Indexes, ghost moved: Indexes, ghost settled: Indexes)
    requires NamedDeltas(deltas)
    ensures !Disagreement(base, Unmoving) ==> Started(base, moves, gathered, moved)
    ensures planned.Success? ==> Settles(base, objects, moves, deltas, gathered, moved, settled)
    ensures planned.Success? ==>
              (Back(settled, r) <==> AllUnmoved(moves, settled))
    ensures planned.Success? && AllUnused(moves, settled) ==>
              r.Success? && r.value == Canons(settled)
    ensures planned.Success? && FreshFor(objects, moves) ==> AllUnused(moves, settled)
    ensures planned.Success? <==> Settleable(base, objects, moves, deltas, moved)
    ensures planned.Success? && r.Success? ==> SoFar(planned.value, moves, r.value, {})
  {
    planned, gathered, moved, settled := RebuildIndexes(base, objects, moves, deltas);
    if planned.Failure? {
      r := Failure(planned.code);
      return;
    }
    r := CollectIndexes(planned.value, moves);
    RoundTrip(planned.value, settled, moves, r);
    if FreshFor(objects, moves) {
      FreshNamesUnused(base, objects, moves, deltas, gathered, moved, settled);
    }
    if AllUnused(moves, settled) {
      UnusedNamesComeBack(planned.value, settled, moves, r);
    }
  }
}
