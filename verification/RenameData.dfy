// Property and Definition renames on Knowledge data (internal/kernel/compiler_data.go,
// patch_knowledge_plan.go).

module RenameFacts {
  import opened Outcomes
  import opened Sorting
  import opened Model

  // Stored property values, as JSON text.
  type Properties = map<string, string>

  // ----- one property map

  // Old names to new names.
  type Renames = map<string, string>

  ghost predicate OneToOne(m: map<string, string>) {
    forall a, b :: a in m && b in m && m[a] == m[b] ==> a == b
  }

  ghost predicate Moving(renames: Renames) {
    OneToOne(renames) && forall oldName :: oldName in renames ==> renames[oldName] != oldName
  }

  // The renames an object asks for, given its PropertyBase (new name to base name).
  ghost predicate RenamesOf(propertyBase: map<string, string>, renames: Renames) {
    && (forall oldName :: oldName in renames ==>
         oldName != "" && oldName != renames[oldName] && renames[oldName] in propertyBase && propertyBase[renames[oldName]] == oldName)
    && (forall name :: name in propertyBase && propertyBase[name] != "" && propertyBase[name] != name ==>
         propertyBase[name] in renames && renames[propertyBase[name]] == name)
  }

  // Each base Property continues under at most one name.
  ghost predicate ContinuedOnce(propertyBase: map<string, string>) {
    forall a, b :: a in propertyBase && b in propertyBase && propertyBase[a] == propertyBase[b] != "" ==> a == b
  }

  lemma RenamesMove(propertyBase: map<string, string>, renames: Renames)
    requires RenamesOf(propertyBase, renames) && ContinuedOnce(propertyBase)
    ensures Moving(renames)
  {
  }

  // SET n[new] = alias: assigning null removes.
  function Assign(p: Properties, snapshot: Properties, oldName: string, name: string): Properties {
    if oldName in snapshot then p[name := snapshot[oldName]] else p - {name}
  }

  // The assignments of the first k old names, each reading the snapshot taken before them.
  function AssignAll(snapshot: Properties, names: seq<string>, k: nat, renames: Renames): Properties
    requires k <= |names| && forall n :: n in names ==> n in renames
  {
    if k == 0 then snapshot
    else Assign(AssignAll(snapshot, names, k - 1, renames), snapshot, names[k - 1], renames[names[k - 1]])
  }

  // The value under a name once everything is renamed at the same time, if any.
  ghost predicate HasAfter(p: Properties, renames: Renames, name: string, value: string) {
    || (exists oldName :: oldName in renames && renames[oldName] == name && oldName in p && p[oldName] == value)
    || (name !in renames && name !in renames.Values && name in p && p[name] == value)
  }

  // q is p with all names changed at once.
  ghost predicate Simultaneous(p: Properties, renames: Renames, q: Properties) {
    forall name, value {:trigger HasAfter(p, renames, name, value)} ::
      (name in q && q[name] == value) <==> HasAfter(p, renames, name, value)
  }

  lemma SimultaneousUnique(p: Properties, renames: Renames, q: Properties, r: Properties)
    requires Simultaneous(p, renames, q) && Simultaneous(p, renames, r)
    ensures q == r
  {
    forall name | name in q ensures name in r && r[name] == q[name] {
      assert HasAfter(p, renames, name, q[name]);
    }
    forall name | name in r ensures name in q {
      assert HasAfter(p, renames, name, r[name]);
    }
  }

  ghost function SourceOf(renames: Renames, name: string): string
    requires name in renames.Values
    ensures SourceOf(renames, name) in renames && renames[SourceOf(renames, name)] == name
  {
    var oldName :| oldName in renames && renames[oldName] == name;
    oldName
  }

  // What all assignments leave together.
  ghost function SnapshotSet(p: Properties, renames: Renames): Properties {
    map name | name in p.Keys + renames.Values && (name in renames.Values ==> SourceOf(renames, name) in p) ::
      if name in renames.Values then p[SourceOf(renames, name)] else p[name]
  }

  // What the first k assignments leave under a name.
  lemma {:induction false} AssignedSoFar(p: Properties, names: seq<string>, k: nat, renames: Renames, name: string)
    requires k <= |names| && Distinct(names) && (forall n :: n in names ==> n in renames) && Moving(renames)
    ensures var q := AssignAll(p, names, k, renames);
            && (forall i :: 0 <= i < k && renames[names[i]] == name ==>
                 (name in q <==> names[i] in p) && (name in q ==> q[name] == p[names[i]]))
            && ((forall i :: 0 <= i < k ==> renames[names[i]] != name) ==>
                 (name in q <==> name in p) && (name in q ==> q[name] == p[name]))
  {
    if k > 0 {
      AssignedSoFar(p, names, k - 1, renames, name);
    }
  }

  lemma AssignedUnder(p: Properties, names: seq<string>, renames: Renames, name: string)
    requires Distinct(names) && (forall n :: n in names <==> n in renames) && Moving(renames)
    ensures var q, r := AssignAll(p, names, |names|, renames), SnapshotSet(p, renames);
            (name in q <==> name in r) && (name in q ==> q[name] == r[name])
  {
    AssignedSoFar(p, names, |names|, renames, name);
    if name in renames.Values {
      var i :| 0 <= i < |names| && names[i] == SourceOf(renames, name);
    } else {
      forall i | 0 <= i < |names| ensures renames[names[i]] != name {
        assert names[i] in names;
      }
    }
  }

  // The order of the assignments does not matter.
  lemma AssignmentsMeet(p: Properties, names: seq<string>, renames: Renames)
    requires Distinct(names) && (forall n :: n in names <==> n in renames) && Moving(renames)
    ensures AssignAll(p, names, |names|, renames) == SnapshotSet(p, renames)
  {
    forall name
      ensures var q, r := AssignAll(p, names, |names|, renames), SnapshotSet(p, renames);
              (name in q <==> name in r) && (name in q ==> q[name] == r[name])
    {
      AssignedUnder(p, names, renames, name);
    }
  }

  function Leftovers(renames: Renames): set<string> {
    renames.Keys - renames.Values
  }

  // Rename maintenance followed by source removal is one simultaneous renaming, swaps and chains included.
  lemma SnapshotThenRemove(p: Properties, renames: Renames)
    requires Moving(renames)
    ensures Simultaneous(p, renames, SnapshotSet(p, renames) - Leftovers(renames))
  {
    var staged := SnapshotSet(p, renames);
    var q := staged - Leftovers(renames);
    forall name, value ensures (name in q && q[name] == value) <==> HasAfter(p, renames, name, value) {
      if name in renames.Values {
        assert name in q <==> name in staged;
        assert renames[SourceOf(renames, name)] == name;
      }
    }
  }

  // ----- nothing is lost

  function NewName(renames: Renames, name: string): string {
    if name in renames then renames[name] else name
  }

  // No stored value stands where a renamed one goes, unless it is renamed away itself.
  ghost predicate TargetsFree(p: Properties, renames: Renames) {
    forall oldName :: oldName in renames && renames[oldName] !in renames ==> renames[oldName] !in p
  }

  ghost predicate KeepsAll(p: Properties, renames: Renames, q: Properties) {
    && (forall name :: name in p ==> NewName(renames, name) in q && q[NewName(renames, name)] == p[name])
    && (forall a, b :: a in p && b in p && NewName(renames, a) == NewName(renames, b) ==> a == b)
    && (forall name :: name in q ==> exists oldName :: oldName in p && NewName(renames, oldName) == name)
  }

  // With the targets free every value survives under exactly one name and no name is invented.
  lemma NothingLost(p: Properties, renames: Renames, q: Properties)
    requires Moving(renames) && Simultaneous(p, renames, q) && TargetsFree(p, renames)
    ensures KeepsAll(p, renames, q)
  {
    forall name | name in p ensures NewName(renames, name) in q && q[NewName(renames, name)] == p[name] {
      forall oldName | oldName in renames && name !in renames ensures renames[oldName] != name {
      }
      assert HasAfter(p, renames, NewName(renames, name), p[name]);
    }
    forall name | name in q ensures exists oldName :: oldName in p && NewName(renames, oldName) == name {
      assert HasAfter(p, renames, name, q[name]);
      if oldName :| oldName in renames && renames[oldName] == name && oldName in p {
        assert NewName(renames, oldName) == name;
      } else {
        assert NewName(renames, name) == name;
      }
    }
  }

  // And only then.
  lemma OccupiedTargetLoses(p: Properties, renames: Renames, q: Properties)
    requires Moving(renames) && Simultaneous(p, renames, q) && !TargetsFree(p, renames)
    ensures !KeepsAll(p, renames, q)
  {
    var oldName :| oldName in renames && renames[oldName] !in renames && renames[oldName] in p;
    var name := renames[oldName];
    assert NewName(renames, name) == name;
    if name in q {
      assert HasAfter(p, renames, name, q[name]);
      var source :| source in renames && renames[source] == name && source in p;
      assert source != name && NewName(renames, source) == name;
    }
  }
}

// What the maintenance statements do to one node or relationship.
module RenameFates {
  import opened Outcomes
  import opened Model
  import opened RenameFacts

  type Id = nat

  datatype DataNode = DataNode(labels: set<string>, properties: Properties)

  datatype DataEdge = DataEdge(kind: string, start: Id, end: Id, properties: Properties)

  // A surviving base Definition: the name it continues under, its Property renames, and whether the
  // planned Definition keeps the old name as a label.
  datatype Change = Change(kind: Kind, base: string, target: string, renames: Renames, keepsLabel: bool)

  predicate Renamed(c: Change) {
    c.base != c.target
  }

  predicate Active(c: Change) {
    Renamed(c) || c.renames != map[]
  }

  // The surviving Definitions: each base and each target occurs once.
  ghost predicate ValidChanges(changes: seq<Change>) {
    && (forall i {:trigger changes[i]} :: 0 <= i < |changes| ==> Moving(changes[i].renames))
    && (forall i, j {:trigger changes[i], changes[j]} :: 0 <= i < j < |changes| && changes[i].kind == changes[j].kind ==>
         changes[i].base != changes[j].base && changes[i].target != changes[j].target)
  }

  // d's old name is c's new one.
  predicate Reuses(c: Change, d: Change) {
    c.kind == d.kind && Renamed(c) && c.target == d.base
  }

  // Data of this Definition can pass the target check: no Definition is renamed to its name.
  ghost predicate Exposed(changes: seq<Change>, i: nat)
    requires i < |changes|
  {
    forall k :: 0 <= k < |changes| ==> !Reuses(changes[k], changes[i])
  }

  // ----- relationships

  predicate From(c: Change, e: DataEdge) {
    c.kind == RelationshipDefinition && c.base == e.kind
  }

  predicate Into(c: Change, e: DataEdge) {
    c.kind == RelationshipDefinition && c.target == e.kind
  }

  ghost function EdgeStep(c: Change, e: DataEdge): DataEdge {
    if From(c, e) then DataEdge(c.target, e.start, e.end, SnapshotSet(e.properties, c.renames)) else e
  }

  ghost function EdgeSteps(changes: seq<Change>, k: nat, e: DataEdge): DataEdge
    requires k <= |changes|
  {
    if k == 0 then e else EdgeStep(changes[k - 1], EdgeSteps(changes, k - 1, e))
  }

  function EdgeDrop(c: Change, e: DataEdge): DataEdge {
    if Into(c, e) then e.(properties := e.properties - Leftovers(c.renames)) else e
  }

  function EdgeDrops(changes: seq<Change>, k: nat, e: DataEdge): DataEdge
    requires k <= |changes|
  {
    if k == 0 then e else EdgeDrop(changes[k - 1], EdgeDrops(changes, k - 1, e))
  }

  ghost function EdgeFate(changes: seq<Change>, e: DataEdge): DataEdge {
    EdgeDrops(changes, |changes|, EdgeSteps(changes, |changes|, e))
  }

  // What the renames mean for a relationship.
  ghost predicate EdgeGoal(changes: seq<Change>, e: DataEdge, f: DataEdge) {
    && (forall i :: 0 <= i < |changes| && From(changes[i], e) ==>
         && f.kind == changes[i].target && f.start == e.start && f.end == e.end
         && Simultaneous(e.properties, changes[i].renames, f.properties))
    && ((forall i :: 0 <= i < |changes| ==> !From(changes[i], e)) ==> f == e)
  }

  // The relationship's type is not a rename target.
  ghost predicate EdgeSafe(changes: seq<Change>, e: DataEdge) {
    forall i :: 0 <= i < |changes| && Renamed(changes[i]) ==> !Into(changes[i], e)
  }

  // No relationship Definition that can hold data is renamed to the old name of one handled later.
  ghost predicate Unchained(changes: seq<Change>) {
    forall i, j :: 0 <= i < j < |changes| && changes[i].kind == RelationshipDefinition && Exposed(changes, i) ==>
      !Reuses(changes[i], changes[j])
  }

  lemma {:induction false} EdgeStays(changes: seq<Change>, from: nat, k: nat, e: DataEdge, f: DataEdge)
    requires from <= k <= |changes| && EdgeSteps(changes, from, e) == f
    requires forall j :: from <= j < k ==> !From(changes[j], f)
    ensures EdgeSteps(changes, k, e) == f
  {
    if from < k {
      EdgeStays(changes, from, k - 1, e, f);
    }
  }

  lemma {:induction false} EdgeNotDropped(changes: seq<Change>, from: nat, k: nat, e: DataEdge, f: DataEdge)
    requires from <= k <= |changes| && EdgeDrops(changes, from, e) == f
    requires forall j :: from <= j < k ==> !Into(changes[j], f)
    ensures EdgeDrops(changes, k, e) == f
  {
    if from < k {
      EdgeNotDropped(changes, from, k - 1, e, f);
    }
  }

  // A relationship of a surviving type ends under the new type with all names changed at once.
  lemma RenamedEdge(changes: seq<Change>, e: DataEdge, i: nat)
    requires ValidChanges(changes) && i < |changes| && From(changes[i], e)
    requires forall j :: i < j < |changes| ==> !Reuses(changes[i], changes[j])
    ensures EdgeGoal(changes, e, EdgeFate(changes, e))
  {
    var c := changes[i];
    var moved := EdgeStep(c, e);
    EdgeStays(changes, 0, i, e, e);
    EdgeStays(changes, i + 1, |changes|, e, moved);
    var done := moved.(properties := moved.properties - Leftovers(c.renames));
    EdgeNotDropped(changes, 0, i, moved, moved);
    EdgeNotDropped(changes, i + 1, |changes|, moved, done);
    SnapshotThenRemove(e.properties, c.renames);
  }

  lemma OtherEdge(changes: seq<Change>, e: DataEdge)
    requires EdgeSafe(changes, e) && forall i :: 0 <= i < |changes| ==> !From(changes[i], e)
    ensures EdgeFate(changes, e) == e
  {
    EdgeStays(changes, 0, |changes|, e, e);
    EdgeNotDropped(changes, 0, |changes|, e, e);
  }

  lemma SafeEdgeReachesGoal(changes: seq<Change>, e: DataEdge)
    requires ValidChanges(changes) && EdgeSafe(changes, e) && Unchained(changes)
    ensures EdgeGoal(changes, e, EdgeFate(changes, e))
  {
    if i :| 0 <= i < |changes| && From(changes[i], e) {
      assert Exposed(changes, i);
      RenamedEdge(changes, e, i);
    } else {
      OtherEdge(changes, e);
    }
  }

  // Once it has left a type, a relationship does not come back to it.
  lemma {:induction false} EdgeLeaves(changes: seq<Change>, k: nat, e: DataEdge, i: nat, j: nat)
    requires ValidChanges(changes) && i < j < k <= |changes| && Reuses(changes[i], changes[j]) && From(changes[i], e)
    ensures EdgeSteps(changes, k, e).kind != changes[i].target
  {
    if k == j + 1 {
      EdgeStays(changes, 0, i, e, e);
      EdgeStays(changes, i + 1, j, e, EdgeStep(changes[i], e));
    } else {
      EdgeLeaves(changes, k - 1, e, i, j);
    }
  }

  lemma {:induction false} DropsKeepKind(changes: seq<Change>, k: nat, e: DataEdge)
    requires k <= |changes|
    ensures EdgeDrops(changes, k, e).kind == e.kind
  {
    if k > 0 {
      DropsKeepKind(changes, k - 1, e);
    }
  }

  lemma ChainedEdgeLost(changes: seq<Change>, i: nat, j: nat) returns (e: DataEdge)
    requires ValidChanges(changes) && i < j < |changes| && changes[i].kind == RelationshipDefinition
    requires Exposed(changes, i) && Reuses(changes[i], changes[j])
    ensures EdgeSafe(changes, e) && !EdgeGoal(changes, e, EdgeFate(changes, e))
  {
    e := DataEdge(changes[i].base, 0, 0, map[]);
    assert From(changes[i], e);
    EdgeLeaves(changes, |changes|, e, i, j);
    DropsKeepKind(changes, |changes|, EdgeSteps(changes, |changes|, e));
  }

  ghost predicate AllEdgesReachGoal(changes: seq<Change>) {
    forall e {:trigger EdgeFate(changes, e)} :: EdgeSafe(changes, e) ==> EdgeGoal(changes, e, EdgeFate(changes, e))
  }

  // Exactly when no data-holding Definition is renamed to the old name of one handled later do all
  // relationships that pass the safety check end where their Definition's rename says.
  lemma EdgeRenamesExact(changes: seq<Change>)
    requires ValidChanges(changes)
    ensures Unchained(changes) <==> AllEdgesReachGoal(changes)
  {
    if Unchained(changes) {
      forall e | EdgeSafe(changes, e) ensures EdgeGoal(changes, e, EdgeFate(changes, e)) {
        SafeEdgeReachesGoal(changes, e);
      }
    } else {
      var i, j :| 0 <= i < j < |changes| && changes[i].kind == RelationshipDefinition && Exposed(changes, i)
                  && Reuses(changes[i], changes[j]);
      var e := ChainedEdgeLost(changes, i, j);
    }
  }

  // ----- nodes

  predicate On(c: Change, n: DataNode) {
    c.kind == NodeDefinition && c.base in n.labels
  }

  predicate Reached(c: Change, n: DataNode) {
    c.kind == NodeDefinition && c.target in n.labels
  }

  ghost function NodeStep(c: Change, n: DataNode): DataNode {
    if On(c, n) then DataNode(if Renamed(c) then n.labels + {c.target} else n.labels, SnapshotSet(n.properties, c.renames)) else n
  }

  ghost function NodeSteps(changes: seq<Change>, k: nat, n: DataNode): DataNode
    requires k <= |changes|
  {
    if k == 0 then n else NodeStep(changes[k - 1], NodeSteps(changes, k - 1, n))
  }

  function LabelDrop(c: Change, n: DataNode): DataNode {
    if Renamed(c) && !c.keepsLabel && Reached(c, n) then n.(labels := n.labels - {c.base}) else n
  }

  function LabelDrops(changes: seq<Change>, k: nat, n: DataNode): DataNode
    requires k <= |changes|
  {
    if k == 0 then n else LabelDrop(changes[k - 1], LabelDrops(changes, k - 1, n))
  }

  function NameDrop(c: Change, n: DataNode): DataNode {
    if Reached(c, n) then n.(properties := n.properties - Leftovers(c.renames)) else n
  }

  function NameDrops(changes: seq<Change>, k: nat, n: DataNode): DataNode
    requires k <= |changes|
  {
    if k == 0 then n else NameDrop(changes[k - 1], NameDrops(changes, k - 1, n))
  }

  ghost function NodeFate(changes: seq<Change>, n: DataNode): DataNode {
    NameDrops(changes, |changes|, LabelDrops(changes, |changes|, NodeSteps(changes, |changes|, n)))
  }

  ghost predicate NodeSafe(changes: seq<Change>, n: DataNode) {
    forall i :: 0 <= i < |changes| && Renamed(changes[i]) ==> !Reached(changes[i], n)
  }

  // The node is under this changed Definition and under no other.
  ghost predicate OnlyUnder(changes: seq<Change>, n: DataNode, i: nat) {
    && i < |changes| && On(changes[i], n)
    && forall j {:trigger changes[j]} :: 0 <= j < |changes| && j != i && On(changes[j], n) ==> !Active(changes[j])
  }

  function LabelsAfter(c: Change, labels: set<string>): set<string> {
    if !Renamed(c) then labels
    else if c.keepsLabel then labels + {c.target}
    else labels + {c.target} - {c.base}
  }

  lemma IdleStep(c: Change, n: DataNode)
    requires On(c, n) ==> !Active(c)
    ensures NodeStep(c, n) == n
  {
    if On(c, n) {
      assert c.renames.Values == {};
      assert SnapshotSet(n.properties, c.renames) == n.properties;
    }
  }

  lemma {:induction false} NodeStays(changes: seq<Change>, from: nat, k: nat, n: DataNode, m: DataNode)
    requires from <= k <= |changes| && NodeSteps(changes, from, n) == m
    requires forall j {:trigger changes[j]} :: from <= j < k && On(changes[j], m) ==> !Active(changes[j])
    ensures NodeSteps(changes, k, n) == m
  {
    if from < k {
      NodeStays(changes, from, k - 1, n, m);
      IdleStep(changes[k - 1], m);
    }
  }

  lemma {:induction false} LabelsStay(changes: seq<Change>, from: nat, k: nat, n: DataNode, m: DataNode)
    requires from <= k <= |changes| && LabelDrops(changes, from, n) == m
    requires forall j {:trigger changes[j]} :: from <= j < k && Renamed(changes[j]) ==> !Reached(changes[j], m)
    ensures LabelDrops(changes, k, n) == m
  {
    if from < k {
      LabelsStay(changes, from, k - 1, n, m);
    }
  }

  lemma {:induction false} NamesStay(changes: seq<Change>, from: nat, k: nat, n: DataNode, m: DataNode)
    requires from <= k <= |changes| && NameDrops(changes, from, n) == m
    requires forall j {:trigger changes[j]} :: from <= j < k && Reached(changes[j], m) ==> changes[j].renames == map[]
    ensures NameDrops(changes, k, n) == m
  {
    if from < k {
      NamesStay(changes, from, k - 1, n, m);
      if Reached(changes[k - 1], m) {
        assert m.properties - Leftovers(changes[k - 1].renames) == m.properties;
      }
    }
  }

  // A node under one changed Definition, whose new name is not the old name of one handled later,
  // gets that Definition's label and has all names changed at once.
  lemma RenamedNode(changes: seq<Change>, n: DataNode, i: nat)
    requires ValidChanges(changes) && NodeSafe(changes, n) && OnlyUnder(changes, n, i)
    requires forall j :: i < j < |changes| ==> !Reuses(changes[i], changes[j])
    ensures NodeFate(changes, n).labels == LabelsAfter(changes[i], n.labels)
    ensures Simultaneous(n.properties, changes[i].renames, NodeFate(changes, n).properties)
  {
    var c := changes[i];
    var moved := NodeStep(c, n);
    NodeStays(changes, 0, i, n, n);
    NodeStays(changes, i + 1, |changes|, n, moved);
    var unlabelled := LabelDrop(c, moved);
    LabelsStay(changes, 0, i, moved, moved);
    LabelsStay(changes, i + 1, |changes|, moved, unlabelled);
    assert unlabelled.labels == LabelsAfter(c, n.labels);
    var done := NameDrop(c, unlabelled);
    NamesStay(changes, 0, i, unlabelled, unlabelled);
    NamesStay(changes, i + 1, |changes|, unlabelled, done);
    SnapshotThenRemove(n.properties, c.renames);
  }

  lemma OtherNode(changes: seq<Change>, n: DataNode)
    requires NodeSafe(changes, n)
    requires forall j {:trigger changes[j]} :: 0 <= j < |changes| && On(changes[j], n) ==> !Active(changes[j])
    ensures NodeFate(changes, n) == n
  {
    NodeStays(changes, 0, |changes|, n, n);
    LabelsStay(changes, 0, |changes|, n, n);
    NamesStay(changes, 0, |changes|, n, n);
  }

  // ----- what goes wrong outside these conditions

  lemma SingleRename(p: Properties, from: string, to: string)
    requires from != to
    ensures SnapshotSet(p, map[from := to]) == if from in p then p[to := p[from]] else p - {to}
    ensures Leftovers(map[from := to]) == {from} && Moving(map[from := to])
  {
    assert map[from := to][from] == to;
    assert map[from := to].Values == {to};
  }

  // Two overlapping Definitions, one renaming x to y, the other y to z, both allowed: what the node
  // held under x ends under z instead of under y.
  lemma OverlapLeaks(first: string, second: string, x: string, y: string, z: string, value: string)
    requires first != second && x != y && y != z && x != z
    ensures var a := Change(NodeDefinition, first, first, map[x := y], false);
            var b := Change(NodeDefinition, second, second, map[y := z], false);
            var n := DataNode({first, second}, map[x := value]);
            && ValidChanges([a, b]) && NodeSafe([a, b], n) && TargetsFree(n.properties, a.renames) && TargetsFree(n.properties, b.renames)
            && NodeFate([a, b], n).properties == map[z := value]
  {
    var a := Change(NodeDefinition, first, first, map[x := y], false);
    var b := Change(NodeDefinition, second, second, map[y := z], false);
    var changes, n := [a, b], DataNode({first, second}, map[x := value]);
    var one := n.(properties := map[x := value, y := value]);
    var two := n.(properties := map[x := value, y := value, z := value]);
    SingleRename(n.properties, x, y);
    SingleRename(one.properties, y, z);
    assert NodeSteps(changes, 1, n) == one;
    assert NodeSteps(changes, 2, n) == two;
    LabelsStay(changes, 0, 2, two, two);
    assert NameDrops(changes, 1, two).properties == map[y := value, z := value];
    assert NameDrops(changes, 2, two).properties == map[z := value];
  }
}
