// Patches that are accepted and do not do what they say (internal/kernel/patch_plan.go).

// A Rename onto an object the same patch added.
module RenameOntoAdded {
  import opened Outcomes
  import opened Text
  import opened Model
  import opened BindingGraph
  import opened Hunks
  import opened GitPatch
  import opened EntryPlan

  function NamedDomain(name: string): Value {
    DomainValue(Domain(name, None, None, []))
  }

  // Domains without members, written as their name on a line.
  function NameCodec(): Codec {
    Codec((s: string) => Some(Ref(DomainKind, s)), (s: string) => Some(DomainKind),
          (v: Value) => RefOf(v).name + "\n",
          (kind: Kind, text: string) =>
            if kind == DomainKind && text != "" && text[|text| - 1] == '\n' then Success(NamedDomain(text[..|text| - 1])) else Failure(ParseError))
  }

  const A := Ref(DomainKind, "a")
  const B := Ref(DomainKind, "b")

  function BaseObjects(): Objects {
    map[A := NamedDomain("a")]
  }

  // new:x is added under the name b, then a is renamed to b.
  function AddThenRename(): seq<Entry> {
    [Entry(Add, "", "new:x", "", "", [Hunk(0, 0, 1, 1, ["+b"])]), Entry(Rename, "a", "b", "a", "b", [])]
  }

  lemma OneLineSides(line: string)
    ensures OldSide(["+" + line]) == [] && NewSide(["+" + line]) == [line]
  {
    assert ["+" + line] == [] + ["+" + line] && ("+" + line)[1..] == line;
    SidesMore([], "+" + line);
  }

  lemma OneLineAdded(line: string)
    ensures PatchedText([Hunk(0, 0, 1, 1, ["+" + line])], "") == Some(line + "\n")
  {
    var h, target := Hunk(0, 0, 1, 1, ["+" + line]), [line];
    var hunks := [h];
    OneLineSides(line);
    OneHunkStands(h, target);
    assert hunks[1..] == [];
    assert Relates(hunks[1..], 0, 1, [], target);
    assert Relates(hunks, 0, 0, [], target);
    GivesPatched(hunks, "", line + "\n");
  }

  lemma OneHunkStands(h: Hunk, target: seq<string>)
    requires h.oldStart == 0 && h.oldCount == 0 && h.newStart == 1 && h.newCount == 1 && |target| == 1
    requires OldSide(h.lines) == [] && NewSide(h.lines) == target
    ensures Stands(h, 0, 0, [], target)
  {
    assert target[0..1] == target;
  }

  lemma AddFirst(c: Codec, base: Objects, entries: seq<Entry>, added: Value)
    requires SoundCodec(c) && WellNamed(base) && |entries| == 2
    requires entries[0].operation == Add && AddedValue(c, entries[0]) == Some(added) && RefOf(added) !in base
    ensures AcceptedTo(c, base, entries, 1) && Accounted(c, base, entries, 1, AddStep(Outset(base), entries[0], added))
  {
    StartAccounted(c, base, entries);
    NotRefusedFirst(c, base, entries);
    AddKeeps(c, base, entries, 0, Outset(base), added);
  }

  lemma NotRefusedFirst(c: Codec, base: Objects, entries: seq<Entry>)
    requires entries != [] && Accounted(c, base, entries, 0, Outset(base)) && !Refused(c, base, entries, 0, Outset(base))
    ensures AcceptedTo(c, base, entries, 1)
  {
    AcceptedMore(c, base, entries, 0, Outset(base));
  }

  // Whatever is added, a Rename that follows may take its Ref.
  lemma AddThenRenameAccepted(c: Codec, base: Objects, entries: seq<Entry>, a: Ref, added: Value, edited: Value)
    requires SoundCodec(c) && WellNamed(base) && |entries| == 2 && a in base
    requires entries[0].operation == Add && AddedValue(c, entries[0]) == Some(added) && RefOf(added) !in base
    requires entries[1].operation == Rename && c.parseRef(entries[1].oldTarget) == Some(a)
    requires EditedValue(c, base, entries[1], a) == Some(edited) && RefOf(edited) == RefOf(added)
    ensures Accepted(c, base, entries)
    ensures Accounted(c, base, entries, 2, EditStep(AddStep(Outset(base), entries[0], added), base, entries[1], a, edited))
  {
    var one := AddStep(Outset(base), entries[0], added);
    AddFirst(c, base, entries, added);
    RenameSecond(c, base, entries, one, a, edited);
  }

  lemma RenameSecond(c: Codec, base: Objects, entries: seq<Entry>, one: Progress, a: Ref, edited: Value)
    requires SoundCodec(c) && |entries| == 2 && a in base && AcceptedTo(c, base, entries, 1) && Accounted(c, base, entries, 1, one)
    requires entries[0].operation == Add && entries[1].operation == Rename && c.parseRef(entries[1].oldTarget) == Some(a)
    requires EditedValue(c, base, entries[1], a) == Some(edited) && !Occupied(one, RefOf(edited), a)
    ensures Accepted(c, base, entries) && Accounted(c, base, entries, 2, EditStep(one, base, entries[1], a, edited))
  {
    assert Handler(c, entries, 1, a) == None;
    AcceptedMore(c, base, entries, 1, one);
    EditKeeps(c, base, entries, 1, one, a, edited);
  }

  lemma NameRead(name: string)
    ensures NameCodec().parse(DomainKind, name + "\n") == Success(NamedDomain(name))
  {
    assert (name + "\n")[..|name|] == name;
  }

  lemma AddRead()
    ensures AddedValue(NameCodec(), AddThenRename()[0]) == Some(NamedDomain("b"))
  {
    assert "+b" == "+" + "b";
    OneLineAdded("b");
    NameRead("b");
  }

  lemma RenameRead()
    ensures EditedValue(NameCodec(), BaseObjects(), AddThenRename()[1], A) == Some(NamedDomain("b"))
  {
    NameRead("a");
    assert NameCodec().render(BaseObjects()[A]) == "a" + "\n";
  }

  lemma AfterBoth(e: Entry, f: Entry)
    requires e.newTarget == "new:x"
    ensures var p := EditStep(AddStep(Outset(BaseObjects()), e, NamedDomain("b")), BaseObjects(), f, A, NamedDomain("b"));
            p.aliases == map["new:x" := B] && p.objects == map[B := Edited(A, NamedDomain("a"), NamedDomain("b"))]
  {
    assert A != B;
  }

  // The patch is accepted; the added object is gone, and its alias names the renamed one.
  lemma RenameReplacesAdded(p: Progress)
    ensures Accepted(NameCodec(), BaseObjects(), AddThenRename())
    ensures Accounted(NameCodec(), BaseObjects(), AddThenRename(), 2, p) ==>
              p.aliases == map["new:x" := B] && p.objects == map[B := Edited(A, NamedDomain("a"), NamedDomain("b"))]
  {
    var c, base, entries := NameCodec(), BaseObjects(), AddThenRename();
    AddRead();
    RenameRead();
    assert A != B;
    AddThenRenameAccepted(c, base, entries, A, NamedDomain("b"), NamedDomain("b"));
    AfterBoth(entries[0], entries[1]);
    if Accounted(c, base, entries, 2, p) {
      AccountedUnique(c, base, entries, 2, p, EditStep(AddStep(Outset(base), entries[0], NamedDomain("b")), base, entries[1], A, NamedDomain("b")));
    }
  }
}

// A Definition added under the name of a renamed one, with an index over two Definitions.
module IndexOnReusedName {
  import opened Outcomes
  import opened Text
  import opened Sorting
  import opened Model
  import opened BindingGraph
  import opened Hunks
  import opened GitPatch
  import opened EntryPlan
  import IE = IndexEntries
  import IR = IndexReading
  import IP = IndexPlan
  import IX = IndexRoundTrip
  import Lines = RenameOntoAdded

  const A := Ref(NodeDefinition, "A")
  const B := Ref(NodeDefinition, "B")
  const C := Ref(NodeDefinition, "C")

  function Node(name: string, indexes: seq<Index>): Value {
    DefinitionValue(Definition(NodeDefinition, name, None, None, {}, None, None, [Property("p", None, None, "STRING", false, [], "")], indexes))
  }

  function Shared(): Index {
    Index("j", "fulltext", [New("new:x"), To(C)], ["p"], None)
  }

  // The two bodies the patch reads, each on a line of its own.
  function TwoBodies(): Codec {
    Codec((s: string) => Some(Ref(NodeDefinition, s)), (s: string) => Some(NodeDefinition),
          (v: Value) => RefOf(v).name + "\n",
          (kind: Kind, text: string) =>
            if kind != NodeDefinition then Failure(ParseError)
            else if text == "A\n" then Success(Node("A", []))
            else if text == "n\n" then Success(Node("A", [Shared()]))
            else Failure(ParseError))
  }

  function BaseObjects(): Objects {
    map[A := Node("A", []), C := Node("C", [])]
  }

  // A is renamed to B; a new A comes with an index over itself and C.
  function RenameThenAdd(): seq<Entry> {
    [Entry(Rename, "A", "B", "A", "B", []), Entry(Add, "", "new:x", "", "", [Hunk(0, 0, 1, 1, ["+n"])])]
  }

  function Deltas(): IP.Deltas {
    map["j" := [IP.Desire(A, IE.Declaration("j", "fulltext", [New("new:x"), To(C)], ["p"], false))]]
  }

  function Moves(): IR.Moves {
    IR.Moves(map["new:x" := A], map[A := B], map[])
  }

  function Values(): Objects {
    map[A := Node("A", [Shared()]), B := Node("B", []), C := Node("C", [])]
  }

  ghost function After(): Progress {
    var base, entries := BaseObjects(), RenameThenAdd();
    AddStep(EditStep(Outset(base), base, entries[0], A, Node("B", [])), entries[1], Node("A", [Shared()]))
  }

  lemma RenameFirst(c: Codec, base: Objects, entries: seq<Entry>, a: Ref, edited: Value)
    requires SoundCodec(c) && WellNamed(base) && |entries| == 2 && a in base
    requires entries[0].operation == Rename && c.parseRef(entries[0].oldTarget) == Some(a)
    requires EditedValue(c, base, entries[0], a) == Some(edited) && RefOf(edited) !in base
    ensures AcceptedTo(c, base, entries, 1) && Accounted(c, base, entries, 1, EditStep(Outset(base), base, entries[0], a, edited))
  {
    StartAccounted(c, base, entries);
    Lines.NotRefusedFirst(c, base, entries);
    EditKeeps(c, base, entries, 0, Outset(base), a, edited);
  }

  // A Ref that a Rename gave up may be taken by what is added.
  lemma RenameThenAddAccepted(c: Codec, base: Objects, entries: seq<Entry>, a: Ref, edited: Value, added: Value)
    requires SoundCodec(c) && WellNamed(base) && |entries| == 2 && a in base
    requires entries[0].operation == Rename && c.parseRef(entries[0].oldTarget) == Some(a)
    requires EditedValue(c, base, entries[0], a) == Some(edited) && RefOf(edited) !in base
    requires entries[1].operation == Add && AddedValue(c, entries[1]) == Some(added) && RefOf(added) == a
    ensures Accepted(c, base, entries)
    ensures Accounted(c, base, entries, 2, AddStep(EditStep(Outset(base), base, entries[0], a, edited), entries[1], added))
  {
    var one := EditStep(Outset(base), base, entries[0], a, edited);
    RenameFirst(c, base, entries, a, edited);
    AcceptedMore(c, base, entries, 1, one);
    AddKeeps(c, base, entries, 1, one, added);
  }

  lemma AddReads()
    ensures AddedValue(TwoBodies(), RenameThenAdd()[1]) == Some(Node("A", [Shared()]))
  {
    assert "n" + "\n" == "n\n" && "A\n"[0] != "n\n"[0];
    assert "+n" == "+" + "n";
    Lines.OneLineAdded("n");
  }

  lemma RenameReads()
    ensures EditedValue(TwoBodies(), BaseObjects(), RenameThenAdd()[0], A) == Some(Node("B", []))
  {
    assert TwoBodies().render(BaseObjects()[A]) == "A" + "\n" == "A\n";
    assert TwoBodies().parse(NodeDefinition, "A\n") == Success(Node("A", []));
  }

  lemma Reads()
    ensures SoundCodec(TwoBodies()) && WellNamed(BaseObjects()) && B !in BaseObjects()
    ensures AddedValue(TwoBodies(), RenameThenAdd()[1]) == Some(Node("A", [Shared()]))
    ensures EditedValue(TwoBodies(), BaseObjects(), RenameThenAdd()[0], A) == Some(Node("B", []))
  {
    AddReads();
    RenameReads();
    assert "B" != "A" && "B" != "C";
  }

  lemma SpelledPlain(name: string)
    ensures IE.Spelled(Node(name, []).definition) == []
  {
    var d := Node(name, []).definition;
    assert d.properties[..0] == [];
    assert IE.SpelledIn(d.properties) == IE.SpelledIn([]) + IE.SpelledAt(d.properties[0], []);
  }

  lemma SpelledShared()
    ensures IE.Spelled(Node("A", [Shared()]).definition) == [IE.AtDefinition(Shared())]
  {
    SpelledPlain("A");
    assert IE.SpelledIn(Node("A", [Shared()]).definition.properties) == IE.SpelledIn(Node("A", []).definition.properties);
    assert IE.SpelledOn([Shared()]) == [IE.AtDefinition(Shared())];
  }

  lemma FirstDelta(name: string)
    ensures EntryDelta(Some(ObjectChange(B, Some(Node("A", [])), Node("B", []))), name) == []
  {
    SpelledPlain("A");
    SpelledPlain("B");
  }

  lemma SecondDelta(name: string)
    ensures EntryDelta(Some(ObjectChange(A, None, Node("A", [Shared()]))), name) == IP.ChangesOf(Deltas(), name)
  {
    SpelledShared();
    var one := [IE.AtDefinition(Shared())];
    assert one[..0] == [];
    assert IE.Last(one, name) == if name == "j" then Some(one[0]) else None;
  }

  lemma TwoDeltas(changes: seq<Option<ObjectChange>>, name: string)
    requires |changes| == 2 && EntryDelta(changes[0], name) == []
    ensures DeltasOf(changes, 2, name) == EntryDelta(changes[1], name)
  {
    assert DeltasOf(changes, 1, name) == DeltasOf(changes, 0, name) + EntryDelta(changes[0], name);
  }

  lemma DeltasAreTheEntries()
    ensures Recorded(ChangesMade(TwoBodies(), BaseObjects(), RenameThenAdd()), 2, Deltas())
  {
    var c, base, entries := TwoBodies(), BaseObjects(), RenameThenAdd();
    Reads();
    var changes := ChangesMade(c, base, entries);
    ChangeAt(c, base, entries, 0);
    ChangeAt(c, base, entries, 1);
    assert changes[0] == Some(ObjectChange(B, Some(Node("A", [])), Node("B", [])));
    assert changes[1] == Some(ObjectChange(A, None, Node("A", [Shared()])));
    forall name ensures IP.ChangesOf(Deltas(), name) == DeltasOf(changes, 2, name) {
      FirstDelta(name);
      SecondDelta(name);
      TwoDeltas(changes, name);
    }
  }

  lemma AfterBoth()
    ensures After().aliases == Moves().aliases && After().transitions == Moves().transitions && After().objects.Keys == Values().Keys
    ensures forall q :: q in Values() ==> After().objects[q].value == Values()[q]
  {
    assert A != B && A != C && B != C;
  }

  lemma EntriesAccepted()
    ensures Accepted(TwoBodies(), BaseObjects(), RenameThenAdd())
    ensures Accounted(TwoBodies(), BaseObjects(), RenameThenAdd(), 2, After())
  {
    Reads();
    RenameThenAddAccepted(TwoBodies(), BaseObjects(), RenameThenAdd(), A, Node("B", []), Node("A", [Shared()]));
  }

  // The entries are accepted, and these are the objects, moves and changes of their plan.
  lemma PlannedSo(p: Progress)
    requires Accounted(TwoBodies(), BaseObjects(), RenameThenAdd(), 2, p)
    ensures Accepted(TwoBodies(), BaseObjects(), RenameThenAdd())
    ensures Recorded(ChangesMade(TwoBodies(), BaseObjects(), RenameThenAdd()), 2, Deltas())
    ensures p.aliases == Moves().aliases && p.transitions == Moves().transitions && p.objects.Keys == Values().Keys
    ensures forall q :: q in p.objects ==> p.objects[q].value == Values()[q]
  {
    DeltasAreTheEntries();
    EntriesAccepted();
    AccountedUnique(TwoBodies(), BaseObjects(), RenameThenAdd(), 2, p, After());
    AfterBoth();
  }

  lemma PairSorted(a: Ref, c: Ref)
    ensures |IR.SortedRefs([a, c])| == 2 && forall t :: t in IR.SortedRefs([a, c]) <==> t == a || t == c
  {
    var sorted := IR.SortedRefs([a, c]);
    forall t ensures t in sorted <==> t == a || t == c {
      assert t in sorted <==> t in multiset(sorted);
      assert multiset(sorted) == multiset{a, c};
    }
    assert |multiset(sorted)| == |sorted| == 2;
  }

  lemma PairMeaning(moves: IR.Moves, owner: Ref, d: IE.Declaration, m: Reference, n: Reference, a: Ref, c: Ref, name: string)
    requires !d.implicitTarget && d.targets == [m, n] && d.properties == [name] && IR.RenamedProperty(moves, owner, name) == name
    requires IR.Target(moves, m) == Some(a) && IR.Target(moves, n) == Some(c)
    ensures IR.Meaning(moves, owner, d) == Success(IE.Logical(d.name, d.kind, IR.SortedRefs([a, c]), [name], None))
  {
    assert forall k :: 0 <= k < |d.targets| ==> IR.Resolves(moves, d.targets[k]);
    var targets := IR.TargetsOf(moves, d.targets);
    assert Some(targets[0]) == IR.Target(moves, d.targets[0]) && Some(targets[1]) == IR.Target(moves, d.targets[1]);
    assert targets == [a, c];
    assert IR.RenamedProperties(moves, owner, d.properties) == [name];
  }

  method Wanted() returns (index: IE.Logical)
    ensures IR.Meaning(Moves(), A, Deltas()["j"][0].declaration) == Success(index)
    ensures index.name == "j" && index.properties == ["p"] && |index.targets| == 2 && (forall t :: t in index.targets <==> t == A || t == C)
  {
    var d := Deltas()["j"][0].declaration;
    PairSorted(A, C);
    PairMeaning(Moves(), A, d, New("new:x"), To(C), A, C, "p");
    index := IE.Logical("j", d.kind, IR.SortedRefs([A, C]), ["p"], None);
  }

  ghost predicate NothingIn(objects: Objects) {
    forall r, name {:trigger IR.Declares(objects, r, name)} :: !IR.Declares(objects, r, name)
  }

  // The patch asks for this one index.
  ghost predicate AsksFor(moves: IR.Moves, deltas: IP.Deltas, index: IE.Logical) {
    forall name {:trigger IP.ChangesOf(deltas, name)} ::
      IP.Decided(moves, None, IP.ChangesOf(deltas, name)) == Some(if name == index.name then Some(index) else None)
  }

  // An index that covers several Definitions, one under the name of a renamed one: it is planned, and the
  // compiler gathers something else from the plan.
  method ReusedNameMisleadsAny(base: Objects, objects: Objects, moves: IR.Moves, deltas: IP.Deltas, index: IE.Logical, t: Ref)
      returns (planned: Result<Objects>, r: Result<IE.Indexes>, ghost settled: IE.Indexes)
    requires IP.NamedDeltas(deltas) && NothingIn(base) && AsksFor(moves, deltas, index) && IP.Homed(objects, index)
    requires |index.targets| > 1 && t in index.targets && t in moves.transitions && moves.transitions[t] !in index.targets
    ensures planned.Success? && settled == map[index.name := index] && !IX.Back(settled, r)
  {
    ghost var gathered, moved;
    planned, r, gathered, moved, settled := IX.PlanThenCollect(base, objects, moves, deltas);
    NothingGathered(base, gathered);
    assert moved == map[];
    NotRefused(objects, moves, deltas, index);
    Misled(base, objects, moves, deltas, gathered, moved, settled, index);
    IX.ReusedTargetMoves(moves, index, t);
    assert !IX.Unmoved(moves, settled[index.name]);
  }

  lemma OrphanOrHomed(objects: Objects, index: IE.Logical)
    requires IP.Homed(objects, index)
    ensures !IP.Orphaned(objects, index)
  {
    assert IP.Home(objects, index.targets[0], index);
  }

  lemma NotRefused(objects: Objects, moves: IR.Moves, deltas: IP.Deltas, index: IE.Logical)
    requires AsksFor(moves, deltas, index) && IP.Homed(objects, index)
    ensures !exists name :: var decided := IP.Decided(moves, IP.Lookup(map[], name), IP.ChangesOf(deltas, name));
              decided == None || !IP.Decent(objects, decided.value)
  {
    forall name
      ensures var decided := IP.Decided(moves, IP.Lookup(map[], name), IP.ChangesOf(deltas, name)); decided != None && IP.Decent(objects, decided.value)
    {
      assert IP.Lookup(map[], name) == None;
    }
  }

  lemma SettledAs(objects: Objects, moves: IR.Moves, deltas: IP.Deltas, settled: IE.Indexes, index: IE.Logical, name: string)
    requires IX.SettledName(objects, moves, deltas, map[], settled, name) && AsksFor(moves, deltas, index) && IP.Homed(objects, index)
    ensures IP.Lookup(settled, name) == if name == index.name then Some(index) else None
  {
    assert IP.Lookup(map[], name) == None;
    OrphanOrHomed(objects, index);
  }

  lemma Misled(base: Objects, objects: Objects, moves: IR.Moves, deltas: IP.Deltas, gathered: IE.Indexes, moved: IE.Indexes, settled: IE.Indexes, index: IE.Logical)
    requires IX.Settles(base, objects, moves, deltas, gathered, moved, settled) && moved == map[]
    requires AsksFor(moves, deltas, index) && IP.Homed(objects, index)
    ensures settled == map[index.name := index]
  {
    forall name ensures IP.Lookup(settled, name) == if name == index.name then Some(index) else None {
      assert IX.SettledName(objects, moves, deltas, moved, settled, name);
      SettledAs(objects, moves, deltas, settled, index, name);
    }
    assert IP.Lookup(settled, index.name) == Some(index);
    forall name ensures name in settled <==> name == index.name {
      assert IP.Lookup(settled, name) == if name == index.name then Some(index) else None;
    }
  }

  lemma DeclaredSomewhere(objects: Objects, moves: IR.Moves, m: IE.Indexes, name: string)
    requires IR.SoFar(objects, moves, m, {})
    ensures name in m ==> exists r :: IR.Declares(objects, r, name)
  {
    assert name in m ==> IR.FromSome(objects, moves, name, m[name]);
  }

  lemma NothingGathered(base: Objects, gathered: IE.Indexes)
    requires NothingIn(base)
    ensures !IR.Disagreement(base, IR.Unmoving)
    ensures IR.Collected(base, IR.Unmoving, Success(gathered)) ==> gathered == map[]
  {
    if IR.Collected(base, IR.Unmoving, Success(gathered)) {
      forall name ensures name !in gathered {
        DeclaredSomewhere(base, IR.Unmoving, gathered, name);
      }
    }
  }

  lemma NothingDeclared()
    ensures NothingIn(BaseObjects())
  {
    SpelledPlain("A");
    SpelledPlain("C");
  }

  lemma IndexHomed(index: IE.Logical)
    requires index.properties == ["p"] && index.targets != [] && forall t :: t in index.targets <==> t == A || t == C
    ensures IP.Homed(Values(), index)
  {
    forall t | t in index.targets ensures IP.Home(Values(), t, index) {
      assert FindProperty(Values()[t].definition.properties, "p").Some?;
    }
  }

  lemma OneDesire(moves: IR.Moves, d: IP.Delta, index: IE.Logical)
    requires d.Desire? && IR.Meaning(moves, d.owner, d.declaration) == Success(index)
    ensures IP.Decided(moves, None, [d]) == Some(Some(index))
  {
    assert IP.AllDesire(moves, [d], index);
    assert [d][0].Desire?;
  }

  lemma DeltasAskFor(index: IE.Logical)
    requires IR.Meaning(Moves(), A, Deltas()["j"][0].declaration) == Success(index) && index.name == "j"
    ensures AsksFor(Moves(), Deltas(), index) && IP.NamedDeltas(Deltas())
  {
    OneDesire(Moves(), Deltas()["j"][0], index);
    assert Deltas()["j"] == [Deltas()["j"][0]];
  }

  // So it is for the patch above: the plan settles the index over A and C.
  method ReusedNameMisleads() returns (planned: Result<Objects>, r: Result<IE.Indexes>, ghost settled: IE.Indexes)
    ensures planned.Success? && settled.Keys == {"j"} && (forall t :: t in settled["j"].targets <==> t == A || t == C)
    ensures !IX.Back(settled, r)
  {
    var index := Wanted();
    NothingDeclared();
    DeltasAskFor(index);
    IndexHomed(index);
    assert B != A && B != C;
    planned, r, settled := ReusedNameMisleadsAny(BaseObjects(), Values(), Moves(), Deltas(), index, A);
  }
}

// Two renames in a row, one leading to the old name of the other.
module ChainedRename {
  import opened Outcomes
  import opened Model
  import opened Sorting
  import opened BindingGraph
  import opened GitPatch
  import opened EntryPlan
  import opened ReferencePlan
  import opened RenameOntoAdded
  import IndexOnReusedName

  const C := Ref(DomainKind, "c")
  const D := Ref(DomainKind, "d")

  function Including(name: string, member: Ref): Value {
    DomainValue(Domain(name, None, None, [To(member)]))
  }

  // d includes a.
  function ThreeDomains(): Objects {
    map[A := NamedDomain("a"), B := NamedDomain("b"), D := Including("d", A)]
  }

  // b is renamed to c, and a to b.
  function RenameInARow(): seq<Entry> {
    [Entry(Rename, "b", "c", "b", "c", []), Entry(Rename, "a", "b", "a", "b", [])]
  }

  // A Ref that one Rename gave up may be taken by the next.
  lemma TwoRenamesAccepted(c: Codec, base: Objects, entries: seq<Entry>, a: Ref, b: Ref, first: Value, second: Value)
    requires SoundCodec(c) && WellNamed(base) && |entries| == 2 && a in base && b in base && a != b
    requires entries[0].operation == Rename && c.parseRef(entries[0].oldTarget) == Some(b)
    requires EditedValue(c, base, entries[0], b) == Some(first) && RefOf(first) !in base
    requires entries[1].operation == Rename && c.parseRef(entries[1].oldTarget) == Some(a)
    requires EditedValue(c, base, entries[1], a) == Some(second) && RefOf(second) == b
    ensures Accepted(c, base, entries)
    ensures Accounted(c, base, entries, 2, EditStep(EditStep(Outset(base), base, entries[0], b, first), base, entries[1], a, second))
  {
    var one := EditStep(Outset(base), base, entries[0], b, first);
    IndexOnReusedName.RenameFirst(c, base, entries, b, first);
    assert Handler(c, entries, 1, a) == None;
    assert !Occupied(one, RefOf(second), a);
    AcceptedMore(c, base, entries, 1, one);
    EditKeeps(c, base, entries, 1, one, a, second);
  }

  lemma NameEdited(base: Objects, e: Entry, from: string, to: string)
    requires Ref(DomainKind, from) in base && base[Ref(DomainKind, from)] == NamedDomain(from)
    requires e == Entry(Rename, from, to, from, to, []) && from != to
    ensures EditedValue(NameCodec(), base, e, Ref(DomainKind, from)) == Some(NamedDomain(to))
  {
    NameRead(from);
    assert NameCodec().render(NamedDomain(from)) == from + "\n";
  }

  lemma RowAccepted()
    ensures var c, base, entries := NameCodec(), ThreeDomains(), RenameInARow();
            && Accepted(c, base, entries)
            && Accounted(c, base, entries, 2, EditStep(EditStep(Outset(base), base, entries[0], B, NamedDomain("c")), base, entries[1], A, NamedDomain("b")))
  {
    var c, base, entries := NameCodec(), ThreeDomains(), RenameInARow();
    assert "a" != "b" && "b" != "c" && "c" != "d" && "a" != "c" && "a" != "d" && "b" != "d";
    assert A != B && A != D && B != D && C != A && C != B && C != D;
    NameEdited(base, entries[0], "b", "c");
    NameEdited(base, entries[1], "a", "b");
    TwoRenamesAccepted(c, base, entries, A, B, NamedDomain("c"), NamedDomain("b"));
  }

  // A member that the walk renames, and renames again or not.
  lemma TwoOrders(a: Ref, b: Ref, c: Ref)
    requires a != b && b != c && a != c
    ensures var transitions := map[b := c, a := b];
            && Lists([a, b], transitions) && WalkAll(transitions, [a, b], [To(a)]) == [To(c)]
            && Lists([b, a], transitions) && WalkAll(transitions, [b, a], [To(a)]) == [To(b)]
  {
    var transitions := map[b := c, a := b];
    assert [a, b][1..] == [b] && [b, a][1..] == [a] && [b][1..] == [] && [a][1..] == [];
    assert Walk(transitions, [a, b], To(a)) == Walk(transitions, [b], To(b)) == Walk(transitions, [], To(c)) == To(c);
    assert Walk(transitions, [b, a], To(a)) == Walk(transitions, [a], To(a)) == Walk(transitions, [], To(b)) == To(b);
  }

  // The patch is accepted. Walked in one order its renames turn d's member a into b, in the other into c.
  lemma MemberDependsOnOrder(p: Progress)
    ensures Accepted(NameCodec(), ThreeDomains(), RenameInARow())
    ensures Accounted(NameCodec(), ThreeDomains(), RenameInARow(), 2, p) ==>
              && D in p.objects && p.objects[D].value == Including("d", A) && p.transitions == map[B := C, A := B]
              && Lists([A, B], p.transitions) && WalkAll(p.transitions, [A, B], [To(A)]) == [To(C)]
              && Lists([B, A], p.transitions) && WalkAll(p.transitions, [B, A], [To(A)]) == [To(B)]
  {
    var c, base, entries := NameCodec(), ThreeDomains(), RenameInARow();
    RowAccepted();
    assert "a" != "b" && "b" != "c" && "a" != "c" && "a" != "d" && "b" != "d" && "c" != "d";
    TwoOrders(A, B, C);
    if Accounted(c, base, entries, 2, p) {
      AccountedUnique(c, base, entries, 2, p, EditStep(EditStep(Outset(base), base, entries[0], B, NamedDomain("c")), base, entries[1], A, NamedDomain("b")));
    }
  }
}
