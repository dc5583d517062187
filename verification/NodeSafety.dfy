// Which overlaps of Definitions the safety check leaves harmless (internal/kernel/compiler_data.go): the
// exact condition for all nodes it admits.

// Where the properties of a stored node come from, name by name.
module NodeSources {
  import opened Outcomes
  import opened Model
  import opened RenameFacts
  import opened RenameFates
  import opened NodeOverlaps

  // The name under which the node held what k steps leave under y.
  ghost function Source(changes: seq<Change>, n: DataNode, k: nat, y: string): string
    requires k <= |changes|
  {
    if k == 0 then y
    else if On(changes[k - 1], n) && y in changes[k - 1].renames.Values then
      Source(changes, n, k - 1, SourceOf(changes[k - 1].renames, y))
    else Source(changes, n, k - 1, y)
  }

  lemma {:induction false} StagedFrom(changes: seq<Change>, n: DataNode, k: nat, y: string)
    requires UnchainedNode(changes, n) && k <= |changes|
    ensures SameAt(NodeSteps(changes, k, n).properties, y, n.properties, Source(changes, n, k, y))
  {
    if k > 0 {
      var c, p := changes[k - 1], NodeSteps(changes, k - 1, n).properties;
      if On(c, n) {
        StepTaken(changes, n, k - 1);
        assert Moving(c.renames);
        SetUnder(p, c.renames, y);
        if y in c.renames.Values {
          StagedFrom(changes, n, k - 1, SourceOf(c.renames, y));
        } else {
          StagedFrom(changes, n, k - 1, y);
        }
      } else {
        StepNotTaken(changes, n, k - 1);
        StagedFrom(changes, n, k - 1, y);
      }
    }
  }

  lemma FateFrom(changes: seq<Change>, n: DataNode, y: string)
    requires UnchainedNode(changes, n)
    ensures if NameLeft(changes, n, |changes|, y) then y !in NodeFate(changes, n).properties
            else SameAt(NodeFate(changes, n).properties, y, n.properties, Source(changes, n, |changes|, y))
  {
    var s, m := Phases(changes, n);
    StagedFrom(changes, n, |changes|, y);
    assert y in NodeFate(changes, n).properties <==> y in s.properties && !NameLeft(changes, n, |changes|, y);
  }

  lemma {:induction false} NotGivenOwn(changes: seq<Change>, n: DataNode, k: nat, y: string)
    requires k <= |changes| && !NameGiven(changes, n, k, y)
    ensures Source(changes, n, k, y) == y
  {
    if k > 0 {
      GivenMore(changes, n, k - 1, y);
      NotGivenOwn(changes, n, k - 1, y);
    }
  }

  // What is left to show of a node's properties: every new name holds what its old name held.
  ghost predicate NewFromOld(changes: seq<Change>, n: DataNode, i: nat, x: string)
    requires i < |changes| && x in changes[i].renames
  {
    SameAt(NodeFate(changes, n).properties, changes[i].renames[x], n.properties, x)
  }

  lemma GoalOfNew(changes: seq<Change>, n: DataNode)
    requires UnchainedNode(changes, n)
    requires forall i, x {:trigger x in changes[i].renames} :: 0 <= i < |changes| && On(changes[i], n) && x in changes[i].renames ==> NewFromOld(changes, n, i, x)
    ensures NodeGoal(changes, n, NodeFate(changes, n))
  {
    var s, m := Phases(changes, n);
    LabelsReachGoal(changes, n, m);
    var r := NodeFate(changes, n);
    forall y | !NameGiven(changes, n, |changes|, y)
      ensures if NameLeft(changes, n, |changes|, y) then y !in r.properties else SameAt(r.properties, y, n.properties, y)
    {
      FateFrom(changes, n, y);
      NotGivenOwn(changes, n, |changes|, y);
    }
  }

  // ----- one name on one node

  function NamesOf(c: Change): set<string> {
    c.renames.Keys + c.renames.Values
  }

  // What c and d, c handled first, do to the value under x: whoever renames it gives it a name the other
  // does not use, or both give it the same one. Then d may rename that name to one that c gives up.
  ghost predicate Undisturbed(c: Change, d: Change, x: string) {
    && (x in c.renames && x !in d.renames ==> c.renames[x] !in NamesOf(d))
    && (x !in c.renames && x in d.renames ==> d.renames[x] !in NamesOf(c))
    && (x in c.renames && x in d.renames ==>
          && x !in c.renames.Values
          && if c.renames[x] == d.renames[x] then c.renames[x] in d.renames ==> d.renames[c.renames[x]] in Leftovers(c.renames)
             else c.renames[x] !in NamesOf(d) && d.renames[x] !in NamesOf(c))
  }

  // Two Definitions of the node rename x to y, and the later one renames y.
  ghost predicate Relayed(changes: seq<Change>, n: DataNode, x: string) {
    exists i, j {:trigger changes[i], changes[j]} :: 0 <= i < j < |changes| && On(changes[i], n) && On(changes[j], n)
      && x in changes[i].renames && x in changes[j].renames && changes[i].renames[x] == changes[j].renames[x] && changes[i].renames[x] in changes[j].renames
  }

  // y is where the value under x may stand after k steps.
  ghost predicate AtHome(changes: seq<Change>, n: DataNode, k: nat, x: string, y: string)
    requires k <= |changes|
  {
    || (y == x && !NameGiven(changes, n, k, x))
    || exists j {:trigger changes[j]} :: 0 <= j < k && On(changes[j], n) && x in changes[j].renames && changes[j].renames[x] == y
  }

  // Wherever else the value under x has come, it is removed.
  ghost predicate RelayEnds(changes: seq<Change>, n: DataNode, x: string) {
    forall y {:trigger Source(changes, n, |changes|, y)} ::
      !NameLeft(changes, n, |changes|, y) && Source(changes, n, |changes|, y) == x ==> AtHome(changes, n, |changes|, x, y)
  }

  ghost predicate Quiet(changes: seq<Change>, n: DataNode, x: string) {
    && (forall i {:trigger changes[i]} :: 0 <= i < |changes| && On(changes[i], n) && x in changes[i].renames.Values ==> x in changes[i].renames)
    && (forall i, j {:trigger changes[i], changes[j]} :: 0 <= i < j < |changes| && On(changes[i], n) && On(changes[j], n) ==> Undisturbed(changes[i], changes[j], x))
  }

  // A quiet value spreads to its new names only, unless it is relayed.
  lemma {:induction false} NoLeak(changes: seq<Change>, n: DataNode, k: nat, x: string, y: string)
    requires ValidChanges(changes) && Quiet(changes, n, x) && !Relayed(changes, n, x) && k <= |changes| && Source(changes, n, k, y) == x
    ensures AtHome(changes, n, k, x, y)
  {
    if k > 0 {
      var d := changes[k - 1];
      GivenMore(changes, n, k - 1, x);
      if On(d, n) && y in d.renames.Values {
        var w := SourceOf(d.renames, y);
        NoLeak(changes, n, k - 1, x, w);
        if w != x {
          NotPassedOn(changes, n, k - 1, x, w);
        }
      } else {
        NoLeak(changes, n, k - 1, x, y);
      }
    }
  }

  lemma NotPassedOn(changes: seq<Change>, n: DataNode, k: nat, x: string, w: string)
    requires Quiet(changes, n, x) && !Relayed(changes, n, x) && k < |changes| && On(changes[k], n) && w != x && AtHome(changes, n, k, x, w)
    ensures w !in changes[k].renames
  {
    var j :| 0 <= j < k && On(changes[j], n) && x in changes[j].renames && changes[j].renames[x] == w;
    assert Undisturbed(changes[j], changes[k], x);
  }

  // A name that is renamed somewhere is given by no Definition handled before.
  lemma OldNotGiven(changes: seq<Change>, n: DataNode, h: nat, i: nat, x: string)
    requires Quiet(changes, n, x) && h < i < |changes| && On(changes[h], n) && On(changes[i], n) && x in changes[i].renames
    ensures x !in changes[h].renames.Values
  {
    assert Undisturbed(changes[h], changes[i], x);
  }

  lemma {:induction false} OldStands(changes: seq<Change>, n: DataNode, k: nat, i: nat, x: string)
    requires Quiet(changes, n, x) && k <= i < |changes| && On(changes[i], n) && x in changes[i].renames
    ensures Source(changes, n, k, x) == x
  {
    if k > 0 {
      OldStands(changes, n, k - 1, i, x);
      if On(changes[k - 1], n) {
        OldNotGiven(changes, n, k - 1, i, x);
      }
    }
  }

  lemma {:induction false} NewStands(changes: seq<Change>, n: DataNode, k: nat, i: nat, x: string)
    requires ValidChanges(changes) && Quiet(changes, n, x) && i < k <= |changes| && On(changes[i], n) && x in changes[i].renames
    ensures Source(changes, n, k, changes[i].renames[x]) == x
  {
    var y, d := changes[i].renames[x], changes[k - 1];
    assert Moving(d.renames);
    if k == i + 1 {
      OldStands(changes, n, i, i, x);
      assert SourceOf(d.renames, y) == x;
    } else if On(d, n) && y in d.renames.Values {
      assert Undisturbed(changes[i], d, x);
      assert SourceOf(d.renames, y) == x;
      OldStands(changes, n, k - 1, k - 1, x);
    } else {
      NewStands(changes, n, k - 1, i, x);
    }
  }

  lemma NewNotLeft(changes: seq<Change>, n: DataNode, i: nat, x: string)
    requires ValidChanges(changes) && Quiet(changes, n, x) && i < |changes| && On(changes[i], n) && x in changes[i].renames
    ensures !NameLeft(changes, n, |changes|, changes[i].renames[x])
  {
    var y := changes[i].renames[x];
    forall j | 0 <= j < |changes| && On(changes[j], n) ensures y !in Leftovers(changes[j].renames) {
      if i < j {
        assert Undisturbed(changes[i], changes[j], x);
      } else if j < i {
        assert Undisturbed(changes[j], changes[i], x);
      }
    }
  }

  // No other old name has its new name.
  lemma NewIsOwn(changes: seq<Change>, n: DataNode, i: nat, j: nat, x: string, w: string)
    requires ValidChanges(changes) && Quiet(changes, n, x) && i < |changes| && j < |changes| && On(changes[i], n) && On(changes[j], n)
    requires x in changes[i].renames && w in changes[j].renames && changes[i].renames[x] == changes[j].renames[w]
    ensures x == w
  {
    assert Moving(changes[i].renames) && Moving(changes[j].renames);
    if i < j {
      assert Undisturbed(changes[i], changes[j], x);
    } else if j < i {
      assert Undisturbed(changes[j], changes[i], x);
    }
  }

  lemma QuietReaches(changes: seq<Change>, n: DataNode, i: nat, x: string)
    requires UnchainedNode(changes, n) && i < |changes| && On(changes[i], n) && x in changes[i].renames
    requires forall s :: s in n.properties ==> Quiet(changes, n, s) && (Relayed(changes, n, s) ==> RelayEnds(changes, n, s))
    ensures NewFromOld(changes, n, i, x)
  {
    var y := changes[i].renames[x];
    FateFrom(changes, n, y);
    if x in n.properties {
      NewNotLeft(changes, n, i, x);
      NewStands(changes, n, |changes|, i, x);
    } else if !NameLeft(changes, n, |changes|, y) && Source(changes, n, |changes|, y) in n.properties {
      var s := Source(changes, n, |changes|, y);
      if !Relayed(changes, n, s) {
        NoLeak(changes, n, |changes|, s, y);
      }
      assert AtHome(changes, n, |changes|, s, y);
      assert NameGiven(changes, n, |changes|, y);
      var j :| 0 <= j < |changes| && On(changes[j], n) && s in changes[j].renames && changes[j].renames[s] == y;
      NewIsOwn(changes, n, j, i, s, x);
    }
  }

  lemma QuietNodeReachesGoal(changes: seq<Change>, n: DataNode)
    requires UnchainedNode(changes, n)
    requires forall s :: s in n.properties ==> Quiet(changes, n, s) && (Relayed(changes, n, s) ==> RelayEnds(changes, n, s))
    ensures NodeGoal(changes, n, NodeFate(changes, n))
  {
    forall i, x | 0 <= i < |changes| && On(changes[i], n) && x in changes[i].renames ensures NewFromOld(changes, n, i, x) {
      QuietReaches(changes, n, i, x);
    }
    GoalOfNew(changes, n);
  }
}

// The check of the data, node by node, and what all nodes it admits come to.
module SafeOverlaps {
  import opened Outcomes
  import opened Sorting
  import opened Model
  import opened BindingGraph
  import opened DecoderFacts
  import opened CompilerFacts
  import opened RenameFacts
  import opened RenameFates
  import opened RenameSafety
  import opened NodeOverlaps
  import opened RenameGaps
  import opened NodeSources
  import RM = RenameMaintenance

  // ----- what the check admits on one node

  // No Definition is deleted under one of these labels or renamed to it.
  ghost predicate LabelsAdmitted(plan: Plan, continuity: map<Ref, Ref>, labels: set<string>) {
    forall r {:trigger RM.BaseDefinition(plan, r)} :: RM.BaseDefinition(plan, r) ==>
      if r !in continuity then r.kind == NodeDefinition ==> r.name !in labels
      else continuity[r] in plan.objects && continuity[r] != r && continuity[r].kind == NodeDefinition ==> continuity[r].name !in labels
  }

  // r neither deletes x, nor takes x for another name, nor renames x away from a Definition of these
  // labels that keeps it; unless the new name is itself renamed away.
  ghost predicate NameAllowed(plan: Plan, continuity: map<Ref, Ref>, labels: set<string>, r: Ref, x: string)
    requires RM.BaseDefinition(plan, r) && r in continuity && continuity[r] in plan.objects
  {
    var propertyBase := plan.objects[continuity[r]].propertyBase;
    && x !in PropertyNames(plan.base.records[r].definition.properties) - Continuing(propertyBase)
    && (Moves(propertyBase, x) ==> x in Sources(propertyBase))
    && (forall name {:trigger propertyBase[name]} :: Moves(propertyBase, name) && name !in Sources(propertyBase) && propertyBase[name] == x ==>
          forall other {:trigger Keeps(plan, continuity, other, r, x)} :: Keeps(plan, continuity, other, r, x) ==> other.name !in labels)
  }

  ghost predicate AllowedBy(plan: Plan, continuity: map<Ref, Ref>, labels: set<string>, r: Ref, x: string) {
    RM.BaseDefinition(plan, r) && r in continuity && continuity[r] in plan.objects && r.kind == NodeDefinition && r.name in labels ==>
      NameAllowed(plan, continuity, labels, r, x)
  }

  ghost predicate NameAdmitted(plan: Plan, continuity: map<Ref, Ref>, labels: set<string>, x: string) {
    forall r {:trigger AllowedBy(plan, continuity, labels, r, x)} :: AllowedBy(plan, continuity, labels, r, x)
  }

  ghost predicate NodeAdmitted(plan: Plan, continuity: map<Ref, Ref>, n: DataNode) {
    LabelsAdmitted(plan, continuity, n.labels) && forall x :: x in n.properties ==> NameAdmitted(plan, continuity, n.labels, x)
  }

  // Fewer labels admit more.
  lemma FewerLabels(plan: Plan, continuity: map<Ref, Ref>, labels: set<string>, fewer: set<string>, x: string)
    requires NameAdmitted(plan, continuity, labels, x) && fewer <= labels
    ensures NameAdmitted(plan, continuity, fewer, x)
  {
    forall r ensures AllowedBy(plan, continuity, fewer, r, x) {
      assert AllowedBy(plan, continuity, labels, r, x);
    }
  }

  // Data of one node.
  function OneNode(n: DataNode): Data {
    Data(map[0 := n], map[])
  }

  lemma OneNodeAt(n: DataNode)
    ensures forall r {:trigger AnyElement(OneNode(n), r)} :: AnyElement(OneNode(n), r) <==> r.kind == NodeDefinition && r.name in n.labels
    ensures forall r, x {:trigger AnyWith(OneNode(n), r, x)} :: AnyWith(OneNode(n), r, x) <==> r.kind == NodeDefinition && r.name in n.labels && x in n.properties
    ensures forall a, b, x {:trigger AnyShared(OneNode(n), a, b, x)} :: AnyShared(OneNode(n), a, b, x) <==> a in n.labels && b in n.labels && x in n.properties
  {
    var d := OneNode(n);
    forall r: Ref ensures AnyElement(d, r) <==> r.kind == NodeDefinition && r.name in n.labels {
      assert NodeAt(d, 0, r.name) <==> r.name in n.labels;
    }
    forall r: Ref, x ensures AnyWith(d, r, x) <==> r.kind == NodeDefinition && r.name in n.labels && x in n.properties {
      assert NodeAt(d, 0, r.name) && x in d.nodes[0].properties <==> r.name in n.labels && x in n.properties;
    }
    forall a, b, x ensures AnyShared(d, a, b, x) <==> a in n.labels && b in n.labels && x in n.properties {
      assert NodeAt(d, 0, a) && NodeAt(d, 0, b) <==> a in n.labels && b in n.labels;
    }
  }

  // The check on one node, Definition by Definition.
  lemma DefinitionAdmits(plan: Plan, continuity: map<Ref, Ref>, n: DataNode, r: Ref)
    requires NodeAdmitted(plan, continuity, n)
    ensures SafeDefinition(OneNode(n), plan, continuity, r)
  {
    var d := OneNode(n);
    OneNodeAt(n);
    if RM.BaseDefinition(plan, r) && r in continuity && continuity[r] in plan.objects {
      var propertyBase := plan.objects[continuity[r]].propertyBase;
      forall x | x in n.properties ensures AllowedBy(plan, continuity, n.labels, r, x) {
        assert NameAdmitted(plan, continuity, n.labels, x);
      }
      forall name ensures MoveAllowed(d, plan, continuity, r, propertyBase, name) {
        AdmitsMove(plan, continuity, n, r, name);
      }
    }
  }

  lemma AdmitsMove(plan: Plan, continuity: map<Ref, Ref>, n: DataNode, r: Ref, name: string)
    requires RM.BaseDefinition(plan, r) && r in continuity && continuity[r] in plan.objects
    requires forall x :: x in n.properties ==> AllowedBy(plan, continuity, n.labels, r, x)
    ensures MoveAllowed(OneNode(n), plan, continuity, r, plan.objects[continuity[r]].propertyBase, name)
  {
    OneNodeAt(n);
    var d, propertyBase := OneNode(n), plan.objects[continuity[r]].propertyBase;
    if Moves(propertyBase, name) && name !in Sources(propertyBase) {
      if name in n.properties {
        assert AllowedBy(plan, continuity, n.labels, r, name);
      }
      var x := propertyBase[name];
      if x in n.properties {
        assert AllowedBy(plan, continuity, n.labels, r, x);
      }
      forall other | Keeps(plan, continuity, other, r, x) && r.kind == NodeDefinition ensures !AnyShared(d, r.name, other.name, x) {
      }
    }
  }

  lemma AdmittedIsSafe(plan: Plan, continuity: map<Ref, Ref>, n: DataNode)
    requires NodeAdmitted(plan, continuity, n)
    ensures SafeData(OneNode(n), plan, continuity)
  {
    forall r ensures SafeDefinition(OneNode(n), plan, continuity, r) {
      DefinitionAdmits(plan, continuity, n, r);
    }
  }

  // And nothing else is admitted.
  lemma SafeIsAdmitted(d: Data, plan: Plan, continuity: map<Ref, Ref>, id: nat)
    requires SafeData(d, plan, continuity) && id in d.nodes
    ensures NodeAdmitted(plan, continuity, d.nodes[id])
  {
    var n := d.nodes[id];
    forall r | RM.BaseDefinition(plan, r)
      ensures if r !in continuity then r.kind == NodeDefinition ==> r.name !in n.labels
              else continuity[r] in plan.objects && continuity[r] != r && continuity[r].kind == NodeDefinition ==> continuity[r].name !in n.labels
    {
      assert SafeDefinition(d, plan, continuity, r);
      assert r in continuity ==> (NodeAt(d, id, continuity[r].name) <==> continuity[r].name in n.labels);
      assert NodeAt(d, id, r.name) <==> r.name in n.labels;
    }
    forall x, r | x in n.properties ensures AllowedBy(plan, continuity, n.labels, r, x) {
      SafeAllows(d, plan, continuity, id, r, x);
    }
  }

  lemma SafeAllows(d: Data, plan: Plan, continuity: map<Ref, Ref>, id: nat, r: Ref, x: string)
    requires SafeData(d, plan, continuity) && id in d.nodes && x in d.nodes[id].properties
    ensures AllowedBy(plan, continuity, d.nodes[id].labels, r, x)
  {
    var n := d.nodes[id];
    if RM.BaseDefinition(plan, r) && r in continuity && continuity[r] in plan.objects && r.kind == NodeDefinition && r.name in n.labels {
      var propertyBase := plan.objects[continuity[r]].propertyBase;
      assert SafeDefinition(d, plan, continuity, r) && NodeAt(d, id, r.name);
      assert AnyWith(d, r, x);
      assert MoveAllowed(d, plan, continuity, r, propertyBase, x);
      forall name | Moves(propertyBase, name) && name !in Sources(propertyBase) && propertyBase[name] == x
        ensures forall other {:trigger Keeps(plan, continuity, other, r, x)} :: Keeps(plan, continuity, other, r, x) ==> other.name !in n.labels
      {
        assert MoveAllowed(d, plan, continuity, r, propertyBase, name);
        forall other | Keeps(plan, continuity, other, r, x) ensures other.name !in n.labels {
          assert !AnyShared(d, r.name, other.name, x);
          assert NodeAt(d, id, other.name) <==> other.name in n.labels;
        }
      }
    }
  }

  // ----- the changes of the plan on an admitted node

  ghost predicate PlanChanges(plan: Plan, continuity: map<Ref, Ref>, refs: seq<Ref>, changes: seq<Change>) {
    RM.BasesApart(plan) && RM.Continues(plan, continuity) && RM.ChangesOf(plan, continuity, refs, changes)
  }

  lemma AdmittedIsNodeSafe(plan: Plan, continuity: map<Ref, Ref>, refs: seq<Ref>, changes: seq<Change>, n: DataNode)
    requires PlanChanges(plan, continuity, refs, changes) && LabelsAdmitted(plan, continuity, n.labels)
    ensures NodeSafe(changes, n)
  {
    forall i | 0 <= i < |changes| && Renamed(changes[i]) ensures !Reached(changes[i], n) {
      assert RM.IsChange(plan, continuity, refs[i], changes[i]);
      assert RM.BaseDefinition(plan, refs[i]);
    }
  }

  // An admitted name that a covering Definition gives, it also renames.
  lemma AdmittedGivenIsOld(plan: Plan, continuity: map<Ref, Ref>, refs: seq<Ref>, changes: seq<Change>, labels: set<string>, x: string, i: nat)
    requires PlanChanges(plan, continuity, refs, changes) && NameAdmitted(plan, continuity, labels, x)
    requires i < |changes| && changes[i].kind == NodeDefinition && changes[i].base in labels && x in changes[i].renames.Values
    ensures x in changes[i].renames
  {
    var r := refs[i];
    assert RM.IsChange(plan, continuity, r, changes[i]);
    assert AllowedBy(plan, continuity, labels, r, x);
    var propertyBase := plan.objects[continuity[r]].propertyBase;
    SourcesAreRenamed(propertyBase, changes[i].renames);
    var w := SourceOf(changes[i].renames, x);
    assert propertyBase[x] == w && Moves(propertyBase, x);
  }

  // ----- the condition

  ghost predicate PairApart(plan: Plan, continuity: map<Ref, Ref>, c: Change, d: Change) {
    forall x {:trigger Undisturbed(c, d, x)} :: NameAdmitted(plan, continuity, {c.base, d.base}, x) ==> Undisturbed(c, d, x)
  }

  // No label of a Definition that can hold nodes is chained into a later one; no admitted name is disturbed
  // between two Definitions; and a value that one hands on to another ends in removed names.
  ghost predicate SafelyApart(plan: Plan, continuity: map<Ref, Ref>, changes: seq<Change>) {
    && LabelsUnchained(changes)
    && (forall i, j {:trigger changes[i], changes[j]} ::
          (0 <= i < j < |changes| && changes[i].kind == changes[j].kind == NodeDefinition && Exposed(changes, i) && Exposed(changes, j)) ==>
            PairApart(plan, continuity, changes[i], changes[j]))
    && forall labels, x {:trigger NameAdmitted(plan, continuity, labels, x)} ::
         LabelsAdmitted(plan, continuity, labels) && NameAdmitted(plan, continuity, labels, x) && Relayed(changes, DataNode(labels, map[]), x) ==>
           RelayEnds(changes, DataNode(labels, map[]), x)
  }

  ghost predicate AllSafeReach(plan: Plan, continuity: map<Ref, Ref>, changes: seq<Change>) {
    forall d, id {:trigger SafeData(d, plan, continuity), NodeFate(changes, d.nodes[id])} ::
      SafeData(d, plan, continuity) && id in d.nodes ==> NodeGoal(changes, d.nodes[id], NodeFate(changes, d.nodes[id]))
  }

  // Only the labels of a node decide where its values go.
  lemma {:induction false} SameSource(changes: seq<Change>, n: DataNode, m: DataNode, k: nat, y: string)
    requires n.labels == m.labels && k <= |changes|
    ensures Source(changes, n, k, y) == Source(changes, m, k, y)
  {
    if k > 0 {
      var c := changes[k - 1];
      if On(c, n) && y in c.renames.Values {
        SameSource(changes, n, m, k - 1, SourceOf(c.renames, y));
      } else {
        SameSource(changes, n, m, k - 1, y);
      }
    }
  }

  lemma SameLabels(changes: seq<Change>, n: DataNode, m: DataNode, x: string)
    requires n.labels == m.labels
    ensures Relayed(changes, n, x) <==> Relayed(changes, m, x)
    ensures RelayEnds(changes, n, x) ==> RelayEnds(changes, m, x)
  {
    forall k, y | 0 <= k <= |changes|
      ensures NameLeft(changes, n, k, y) <==> NameLeft(changes, m, k, y)
      ensures NameGiven(changes, n, k, y) <==> NameGiven(changes, m, k, y)
      ensures AtHome(changes, n, k, x, y) <==> AtHome(changes, m, k, x, y)
    {
    }
    if RelayEnds(changes, n, x) {
      forall y | !NameLeft(changes, m, |changes|, y) && Source(changes, m, |changes|, y) == x ensures AtHome(changes, m, |changes|, x, y) {
        SameSource(changes, n, m, |changes|, y);
        assert AtHome(changes, n, |changes|, x, y);
      }
    }
  }

  lemma AdmittedIsQuiet(plan: Plan, continuity: map<Ref, Ref>, refs: seq<Ref>, changes: seq<Change>, n: DataNode, x: string)
    requires PlanChanges(plan, continuity, refs, changes) && SafelyApart(plan, continuity, changes) && NodeSafe(changes, n)
    requires NameAdmitted(plan, continuity, n.labels, x)
    ensures Quiet(changes, n, x)
  {
    forall i | 0 <= i < |changes| && On(changes[i], n) && x in changes[i].renames.Values ensures x in changes[i].renames {
      AdmittedGivenIsOld(plan, continuity, refs, changes, n.labels, x, i);
    }
    forall i, j | 0 <= i < j < |changes| && On(changes[i], n) && On(changes[j], n) ensures Undisturbed(changes[i], changes[j], x) {
      CoveredExposed(changes, n, i);
      CoveredExposed(changes, n, j);
      FewerLabels(plan, continuity, n.labels, {changes[i].base, changes[j].base}, x);
      assert PairApart(plan, continuity, changes[i], changes[j]);
    }
  }

  lemma ApartReaches(d: Data, plan: Plan, continuity: map<Ref, Ref>, refs: seq<Ref>, changes: seq<Change>, id: nat)
    requires PlanChanges(plan, continuity, refs, changes) && SafelyApart(plan, continuity, changes) && SafeData(d, plan, continuity) && id in d.nodes
    ensures NodeGoal(changes, d.nodes[id], NodeFate(changes, d.nodes[id]))
  {
    var n := d.nodes[id];
    RM.ChangesAreValid(plan, continuity, refs, changes);
    SafeIsAdmitted(d, plan, continuity, id);
    AdmittedIsNodeSafe(plan, continuity, refs, changes, n);
    forall s | s in n.properties ensures Quiet(changes, n, s) && (Relayed(changes, n, s) ==> RelayEnds(changes, n, s)) {
      AdmittedIsQuiet(plan, continuity, refs, changes, n, s);
      var bare := DataNode(n.labels, map[]);
      SameLabels(changes, bare, n, s);
      SameLabels(changes, n, bare, s);
    }
    QuietNodeReachesGoal(changes, n);
  }

  // ----- and it is needed

  lemma SafeNodeReaches(plan: Plan, continuity: map<Ref, Ref>, changes: seq<Change>, n: DataNode)
    requires AllSafeReach(plan, continuity, changes) && NodeAdmitted(plan, continuity, n)
    ensures NodeGoal(changes, n, NodeFate(changes, n))
  {
    AdmittedIsSafe(plan, continuity, n);
    assert OneNode(n).nodes[0] == n;
    assert SafeData(OneNode(n), plan, continuity) && NodeGoal(changes, OneNode(n).nodes[0], NodeFate(changes, OneNode(n).nodes[0]));
  }

  // The labels of Definitions that no other is renamed to are admitted.
  lemma ExposedAdmitted(plan: Plan, continuity: map<Ref, Ref>, refs: seq<Ref>, changes: seq<Change>, i: nat, j: nat)
    requires PlanChanges(plan, continuity, refs, changes) && i < |changes| && j < |changes|
    requires changes[i].kind == changes[j].kind == NodeDefinition && Exposed(changes, i) && Exposed(changes, j)
    ensures LabelsAdmitted(plan, continuity, {changes[i].base, changes[j].base})
  {
    ListedRefs(plan, continuity, refs, changes);
    assert RM.IsChange(plan, continuity, refs[i], changes[i]) && RM.IsChange(plan, continuity, refs[j], changes[j]);
    forall r | RM.BaseDefinition(plan, r) && r in continuity && continuity[r] in plan.objects && continuity[r] != r && continuity[r].kind == NodeDefinition
      ensures continuity[r].name !in {changes[i].base, changes[j].base}
    {
      assert r in refs;
      var k :| 0 <= k < |refs| && refs[k] == r;
      assert RM.IsChange(plan, continuity, refs[k], changes[k]);
      assert plan.objects[continuity[r]].baseRef == Some(r);
      assert Renamed(changes[k]) && !Reuses(changes[k], changes[i]) && !Reuses(changes[k], changes[j]);
    }
  }

  lemma ChainNotSafe(plan: Plan, continuity: map<Ref, Ref>, refs: seq<Ref>, changes: seq<Change>)
    requires PlanChanges(plan, continuity, refs, changes) && AllSafeReach(plan, continuity, changes)
    ensures LabelsUnchained(changes)
  {
    RM.ChangesAreValid(plan, continuity, refs, changes);
    forall i, j | 0 <= i < j < |changes| && changes[i].kind == NodeDefinition && Exposed(changes, i) ensures !Reuses(changes[i], changes[j]) {
      ExposedAdmitted(plan, continuity, refs, changes, i, i);
      var n := DataNode({changes[i].base}, map[]);
      assert n.labels == {changes[i].base, changes[i].base};
      SafeNodeReaches(plan, continuity, changes, n);
      if Reuses(changes[i], changes[j]) {
        var m := ChainedLabelLeaks(changes, i, j);
      }
    }
  }

  // A new name of a lone value is used by no other Definition of the node, unless both give it.
  lemma NewIsFree(changes: seq<Change>, n: DataNode, i: nat, j: nat, x: string)
    requires UnchainedNode(changes, n) && i < |changes| && j < |changes| && On(changes[i], n) && On(changes[j], n)
    requires NodeGoal(changes, n, NodeFate(changes, n)) && n.properties.Keys == {x} && x in changes[i].renames
    requires x in changes[j].renames ==> changes[j].renames[x] != changes[i].renames[x]
    ensures changes[i].renames[x] !in NamesOf(changes[j])
  {
    var y, d, m := changes[i].renames[x], changes[j], NodeFate(changes, n);
    assert SameAt(m.properties, y, n.properties, x);
    FateFrom(changes, n, y);
    var left := NameLeft(changes, n, |changes|, y);
    assert y in Leftovers(d.renames) ==> left;
    forall u | u in d.renames ensures d.renames[u] == y ==> u == x {
      OneOwner(changes, n, j, x, y, u);
    }
    assert y !in d.renames.Values;
  }

  // Where a lone value stands under a new name, that name is its own.
  lemma OneOwner(changes: seq<Change>, n: DataNode, j: nat, x: string, y: string, u: string)
    requires j < |changes| && On(changes[j], n) && NodeGoal(changes, n, NodeFate(changes, n)) && n.properties.Keys == {x}
    requires y in NodeFate(changes, n).properties && u in changes[j].renames
    ensures changes[j].renames[u] == y ==> u == x
  {
    assert SameAt(NodeFate(changes, n).properties, changes[j].renames[u], n.properties, u);
  }

  lemma ComesFromElsewhere(renames: Renames, name: string)
    requires Moving(renames)
    ensures name in renames.Values ==> SourceOf(renames, name) != name
  {
  }

  // Through two Definitions, one name.
  lemma SourceOfPair(changes: seq<Change>, n: DataNode, i: nat, j: nat, y: string)
    requires i < j < |changes| && forall k :: 0 <= k < |changes| ==> (On(changes[k], n) <==> k == i || k == j)
    ensures var w := if y in changes[j].renames.Values then SourceOf(changes[j].renames, y) else y;
            Source(changes, n, |changes|, y) == if w in changes[i].renames.Values then SourceOf(changes[i].renames, w) else w
  {
    SourceStays(changes, n, j + 1, |changes|, y);
    var w := if y in changes[j].renames.Values then SourceOf(changes[j].renames, y) else y;
    SourceStays(changes, n, i + 1, j, w);
    var v := if w in changes[i].renames.Values then SourceOf(changes[i].renames, w) else w;
    SourceStays(changes, n, 0, i, v);
  }

  lemma {:induction false} SourceStays(changes: seq<Change>, n: DataNode, from: nat, k: nat, y: string)
    requires from <= k <= |changes| && forall t :: from <= t < k ==> !On(changes[t], n)
    ensures Source(changes, n, k, y) == Source(changes, n, from, y)
  {
    if from < k {
      SourceStays(changes, n, from, k - 1, y);
    }
  }

  lemma SharedOldFirst(changes: seq<Change>, n: DataNode, i: nat, j: nat, x: string)
    requires UnchainedNode(changes, n) && i < j < |changes| && forall k :: 0 <= k < |changes| ==> (On(changes[k], n) <==> k == i || k == j)
    requires NodeGoal(changes, n, NodeFate(changes, n)) && n.properties.Keys == {x} && x in changes[i].renames && x in changes[j].renames
    ensures x !in changes[i].renames.Values
  {
    var c, d := changes[i], changes[j];
    var z := d.renames[x];
    assert Moving(c.renames) && Moving(d.renames);
    assert SameAt(NodeFate(changes, n).properties, z, n.properties, x);
    FateFrom(changes, n, z);
    SourceOfPair(changes, n, i, j, z);
    assert SourceOf(d.renames, z) == x;
    ComesFromElsewhere(c.renames, x);
  }

  lemma HandedOnEnds(changes: seq<Change>, n: DataNode, i: nat, j: nat, x: string)
    requires UnchainedNode(changes, n) && i < j < |changes| && forall k :: 0 <= k < |changes| ==> (On(changes[k], n) <==> k == i || k == j)
    requires NodeGoal(changes, n, NodeFate(changes, n)) && n.properties.Keys == {x} && x in changes[i].renames
    requires changes[i].renames[x] in changes[j].renames
    ensures changes[j].renames[changes[i].renames[x]] in Leftovers(changes[i].renames)
  {
    var c, d := changes[i], changes[j];
    var y := c.renames[x];
    var u := d.renames[y];
    var left := NameLeft(changes, n, |changes|, u);
    assert Moving(c.renames) && Moving(d.renames);
    assert SameAt(NodeFate(changes, n).properties, u, n.properties, y);
    FateFrom(changes, n, u);
    SourceOfPair(changes, n, i, j, u);
    assert SourceOf(d.renames, u) == y && SourceOf(c.renames, y) == x;
    assert u !in Leftovers(d.renames);
    assert u !in Leftovers(c.renames) ==> !left;
  }

  lemma GoalUndisturbs(changes: seq<Change>, n: DataNode, i: nat, j: nat, x: string)
    requires UnchainedNode(changes, n) && i < j < |changes| && forall k :: 0 <= k < |changes| ==> (On(changes[k], n) <==> k == i || k == j)
    requires NodeGoal(changes, n, NodeFate(changes, n)) && n.properties.Keys == {x}
    ensures Undisturbed(changes[i], changes[j], x)
  {
    var c, d := changes[i], changes[j];
    if x in c.renames && (x in d.renames ==> d.renames[x] != c.renames[x]) {
      NewIsFree(changes, n, i, j, x);
    }
    if x in d.renames && (x in c.renames ==> c.renames[x] != d.renames[x]) {
      NewIsFree(changes, n, j, i, x);
    }
    if x in c.renames && x in d.renames {
      SharedOldFirst(changes, n, i, j, x);
      if c.renames[x] == d.renames[x] && c.renames[x] in d.renames {
        HandedOnEnds(changes, n, i, j, x);
      }
    }
  }

  lemma PairNeeded(plan: Plan, continuity: map<Ref, Ref>, refs: seq<Ref>, changes: seq<Change>, i: nat, j: nat)
    requires PlanChanges(plan, continuity, refs, changes) && AllSafeReach(plan, continuity, changes) && i < j < |changes|
    requires changes[i].kind == changes[j].kind == NodeDefinition && Exposed(changes, i) && Exposed(changes, j)
    ensures PairApart(plan, continuity, changes[i], changes[j])
  {
    RM.ChangesAreValid(plan, continuity, refs, changes);
    ChainNotSafe(plan, continuity, refs, changes);
    ExposedAdmitted(plan, continuity, refs, changes, i, j);
    forall x | NameAdmitted(plan, continuity, {changes[i].base, changes[j].base}, x) ensures Undisturbed(changes[i], changes[j], x) {
      var n := Shared(changes[i], changes[j], x);
      SharedIsSafe(changes, i, j, x);
      OnlyTheTwo(changes, i, j, x);
      SafeNodeReaches(plan, continuity, changes, n);
      GoalUndisturbs(changes, n, i, j, x);
    }
  }

  lemma RelayNeeded(plan: Plan, continuity: map<Ref, Ref>, refs: seq<Ref>, changes: seq<Change>, labels: set<string>, x: string)
    requires PlanChanges(plan, continuity, refs, changes) && AllSafeReach(plan, continuity, changes)
    requires LabelsAdmitted(plan, continuity, labels) && NameAdmitted(plan, continuity, labels, x)
    ensures RelayEnds(changes, DataNode(labels, map[]), x)
  {
    var n := DataNode(labels, map[x := "value"]);
    RM.ChangesAreValid(plan, continuity, refs, changes);
    ChainNotSafe(plan, continuity, refs, changes);
    AdmittedIsNodeSafe(plan, continuity, refs, changes, n);
    SafeNodeReaches(plan, continuity, changes, n);
    forall y | !NameLeft(changes, n, |changes|, y) && Source(changes, n, |changes|, y) == x ensures AtHome(changes, n, |changes|, x, y) {
      LandsAtHome(changes, n, x, y);
    }
    SameLabels(changes, n, DataNode(labels, map[]), x);
  }

  lemma LandsAtHome(changes: seq<Change>, n: DataNode, x: string, y: string)
    requires UnchainedNode(changes, n) && NodeGoal(changes, n, NodeFate(changes, n)) && n.properties.Keys == {x}
    requires !NameLeft(changes, n, |changes|, y) && Source(changes, n, |changes|, y) == x
    ensures AtHome(changes, n, |changes|, x, y)
  {
    FateFrom(changes, n, y);
    if NameGiven(changes, n, |changes|, y) {
      var i :| 0 <= i < |changes| && On(changes[i], n) && y in changes[i].renames.Values;
      var u := SourceOf(changes[i].renames, y);
      assert SameAt(NodeFate(changes, n).properties, changes[i].renames[u], n.properties, u);
      assert u == x;
    } else {
      NotGivenOwn(changes, n, |changes|, y);
    }
  }

  // Every node of all data that passes the check ends as the renames of all its Definitions say, exactly
  // when the Definitions are safely apart.
  lemma SafeNodesExact(plan: Plan, continuity: map<Ref, Ref>, refs: seq<Ref>, changes: seq<Change>)
    requires PlanChanges(plan, continuity, refs, changes)
    ensures AllSafeReach(plan, continuity, changes) <==> SafelyApart(plan, continuity, changes)
  {
    if SafelyApart(plan, continuity, changes) {
      forall d, id | SafeData(d, plan, continuity) && id in d.nodes ensures NodeGoal(changes, d.nodes[id], NodeFate(changes, d.nodes[id])) {
        ApartReaches(d, plan, continuity, refs, changes, id);
      }
    }
    if AllSafeReach(plan, continuity, changes) {
      ChainNotSafe(plan, continuity, refs, changes);
      forall i, j | 0 <= i < j < |changes| && changes[i].kind == changes[j].kind == NodeDefinition && Exposed(changes, i) && Exposed(changes, j)
        ensures PairApart(plan, continuity, changes[i], changes[j])
      {
        PairNeeded(plan, continuity, refs, changes, i, j);
      }
      forall labels, x | LabelsAdmitted(plan, continuity, labels) && NameAdmitted(plan, continuity, labels, x)
        ensures RelayEnds(changes, DataNode(labels, map[]), x)
      {
        RelayNeeded(plan, continuity, refs, changes, labels, x);
      }
    }
  }
}

// Definitions that interfere on no node the check admits.
module HarmlessOverlap {
  import opened Outcomes
  import opened Model
  import opened BindingGraph
  import opened CompilerFacts
  import opened RenameFacts
  import opened RenameFates
  import opened RenameSafety
  import opened NodeOverlaps
  import opened RenameGaps
  import opened OverlapExamples
  import opened NodeSources
  import opened SafeOverlaps
  import RM = RenameMaintenance

  const KeepAndMove: map<string, string> := map["x" := "x", "z" := "y"]

  // A renames x to y; B keeps x and renames y to z.
  function HarmlessPlan(): Plan {
    TwoDefinitions(WithProperties("A", [Named("x")]), WithProperties("A", [Named("y")]), FirstBase,
                   WithProperties("B", [Named("x"), Named("y")]), WithProperties("B", [Named("x"), Named("z")]), KeepAndMove)
  }

  lemma HarmlessPlanned()
    ensures PlanChanges(HarmlessPlan(), Both, [A, B], LeakChanges())
  {
    assert "x" != "y" && "y" != "z" && "x" != "z";
    TheirChanges(WithProperties("A", [Named("x")]), WithProperties("A", [Named("y")]), FirstBase, map["x" := "y"],
                 WithProperties("B", [Named("x"), Named("y")]), WithProperties("B", [Named("x"), Named("z")]), KeepAndMove, map["y" := "z"]);
  }

  // x and y stand on no node under both.
  lemma NeitherAdmitted()
    ensures !NameAdmitted(HarmlessPlan(), Both, {"A", "B"}, "x") && !NameAdmitted(HarmlessPlan(), Both, {"A", "B"}, "y")
  {
    var plan := HarmlessPlan();
    var properties := [Named("x"), Named("y")];
    assert properties[0] in properties;
    assert "x" != "y" && A != B;
    assert Keeps(plan, Both, B, A, "x");
    assert Moves(FirstBase, "y") && FirstBase["y"] == "x" && "y" !in Sources(FirstBase);
    assert RM.BaseDefinition(plan, A);
    assert !NameAllowed(plan, Both, {"A", "B"}, A, "x") && !NameAllowed(plan, Both, {"A", "B"}, A, "y");
    assert !AllowedBy(plan, Both, {"A", "B"}, A, "x") && !AllowedBy(plan, Both, {"A", "B"}, A, "y");
  }

  // Two Definitions rename different names, x to y and y to z.
  lemma OthersUndisturbed(c: Change, d: Change, x: string, y: string, z: string, name: string)
    requires c.renames == map[x := y] && d.renames == map[y := z] && name != x && name != y
    ensures Undisturbed(c, d, name)
  {
  }

  lemma NotRelayed(changes: seq<Change>, n: DataNode, name: string)
    requires |changes| == 2 && changes[0].renames.Keys !! changes[1].renames.Keys
    ensures !Relayed(changes, n, name)
  {
  }

  lemma HarmlessApart()
    ensures SafelyApart(HarmlessPlan(), Both, LeakChanges()) && !NodesApart(LeakChanges())
  {
    var plan, changes := HarmlessPlan(), LeakChanges();
    var c, d := changes[0], changes[1];
    assert "x" != "y" && "y" != "z" && A != B;
    NeitherAdmitted();
    assert {c.base, d.base} == {"A", "B"};
    forall name | NameAdmitted(plan, Both, {c.base, d.base}, name) ensures Undisturbed(c, d, name) {
      assert name != "x" && name != "y";
      OthersUndisturbed(c, d, "x", "y", "z", name);
    }
    forall n, name ensures !Relayed(changes, n, name) {
      NotRelayed(changes, n, name);
    }
    assert c.renames["x"] in d.renames;
    assert Interfere(c, d) && Exposed(changes, 0) && Exposed(changes, 1);
  }

  // So all admitted nodes end as the renames say, although the Definitions interfere on others.
  lemma HarmlessReaches()
    ensures AllSafeReach(HarmlessPlan(), Both, LeakChanges()) && !NodesApart(LeakChanges())
  {
    HarmlessPlanned();
    HarmlessApart();
    SafeNodesExact(HarmlessPlan(), Both, [A, B], LeakChanges());
  }
}

// What the check refuses and which labels stay, told from the planned objects alone.
module PlannedLabels {
  import opened Outcomes
  import opened Sorting
  import opened Model
  import opened BindingGraph
  import opened DecoderFacts
  import opened CompilerFacts
  import opened RenameFacts
  import opened RenameFates
  import opened RenameSafety
  import opened NodeOverlaps
  import opened RenameGaps
  import opened SafeOverlaps
  import RM = RenameMaintenance

  // q continues the node Definition b under another name.
  ghost predicate RenamedTo(plan: Plan, b: Ref, q: Ref) {
    && b.kind == NodeDefinition && b in plan.base.records && plan.base.records[b].DefinitionRecord?
    && q in plan.objects && plan.objects[q].baseRef == Some(b) && plan.objects[q].value.DefinitionValue? && q.name != b.name
  }

  lemma ChangeOfRenamed(plan: Plan, continuity: map<Ref, Ref>, refs: seq<Ref>, changes: seq<Change>, b: Ref, q: Ref) returns (i: nat)
    requires PlanChanges(plan, continuity, refs, changes) && RenamedTo(plan, b, q)
    ensures i < |changes| && refs[i] == b && changes[i].kind == NodeDefinition && changes[i].base == b.name && changes[i].target == q.name
    ensures changes[i].keepsLabel <==> b.name in plan.objects[q].value.definition.labels
  {
    ListedRefs(plan, continuity, refs, changes);
    assert continuity[b] == q;
    i :| 0 <= i < |refs| && refs[i] == b;
    assert RM.IsChange(plan, continuity, refs[i], changes[i]);
  }

  lemma GoalLabels(changes: seq<Change>, n: DataNode, m: DataNode, i: nat)
    requires ValidChanges(changes) && NodeSafe(changes, n) && NodeGoal(changes, n, m)
    requires i < |changes| && On(changes[i], n) && Renamed(changes[i])
    ensures changes[i].target in m.labels && (changes[i].base in m.labels <==> changes[i].keepsLabel)
  {
    var l, given := changes[i].base, changes[i].target;
    var taken := LabelTaken(changes, n, |changes|, given);
    assert LabelGiven(changes, n, |changes|, given);
    assert given in m.labels <==> LabelGiven(changes, n, |changes|, given) || (given in n.labels && !taken);
    forall j | 0 <= j < |changes| && On(changes[j], n) ensures changes[j].target != l {
      assert Renamed(changes[j]) ==> !Reached(changes[j], n);
    }
    assert l in m.labels <==> LabelGiven(changes, n, |changes|, l) || (l in n.labels && !LabelTaken(changes, n, |changes|, l));
    assert LabelTaken(changes, n, |changes|, l) <==> !changes[i].keepsLabel;
  }

  // After the maintenance of a plan whose Definitions are safely apart, every admitted node under a renamed
  // Definition has the new name among its labels, and the old one exactly when the planned Definition lists it.
  lemma OldNameKept(before: map<nat, DataNode>, edges: map<nat, DataEdge>, after: map<nat, DataNode>, plan: Plan, continuity: map<Ref, Ref>,
                    refs: seq<Ref>, changes: seq<Change>, id: nat, b: Ref, q: Ref)
    requires PlanChanges(plan, continuity, refs, changes) && after == RM.NodeFates(before, changes)
    requires SafeData(Data(before, edges), plan, continuity) && SafelyApart(plan, continuity, changes)
    requires id in before && b.name in before[id].labels && RenamedTo(plan, b, q)
    ensures id in after && q.name in after[id].labels
    ensures b.name in after[id].labels <==> b.name in plan.objects[q].value.definition.labels
  {
    var d := Data(before, edges);
    var i := ChangeOfRenamed(plan, continuity, refs, changes, b, q);
    RM.ChangesAreValid(plan, continuity, refs, changes);
    SafeIsAdmitted(d, plan, continuity, id);
    AdmittedIsNodeSafe(plan, continuity, refs, changes, d.nodes[id]);
    ApartReaches(d, plan, continuity, refs, changes, id);
    GoalLabels(changes, d.nodes[id], NodeFate(changes, d.nodes[id]), i);
  }

  // The same for a node under this changed Definition alone, whatever the others do to other nodes.
  lemma OldNameKeptAlone(before: map<nat, DataNode>, edges: map<nat, DataEdge>, after: map<nat, DataNode>, plan: Plan, continuity: map<Ref, Ref>,
                         refs: seq<Ref>, changes: seq<Change>, id: nat, b: Ref, q: Ref)
    requires PlanChanges(plan, continuity, refs, changes) && after == RM.NodeFates(before, changes)
    requires SafeData(Data(before, edges), plan, continuity) && id in before && b.name in before[id].labels && RenamedTo(plan, b, q)
    requires forall i {:trigger changes[i]} :: 0 <= i < |changes| && refs[i] != b && On(changes[i], before[id]) ==> !Active(changes[i])
    requires forall r :: RM.BaseDefinition(plan, r) && r.kind == NodeDefinition ==> r.name != q.name
    ensures id in after && q.name in after[id].labels
    ensures b.name in after[id].labels <==> b.name in plan.objects[q].value.definition.labels
  {
    var d := Data(before, edges);
    var i := ChangeOfRenamed(plan, continuity, refs, changes, b, q);
    RM.ChangesAreValid(plan, continuity, refs, changes);
    SafeIsAdmitted(d, plan, continuity, id);
    AdmittedIsNodeSafe(plan, continuity, refs, changes, d.nodes[id]);
    forall j | 0 <= j < |changes| ensures !Reuses(changes[i], changes[j]) {
      assert RM.IsChange(plan, continuity, refs[j], changes[j]);
    }
    RenamedNode(changes, d.nodes[id], i);
  }

  // ----- what the check refuses

  // No element of a deleted Definition, none that stands under the new name of another.
  lemma NothingUnderGoneNames(d: Data, plan: Plan, continuity: map<Ref, Ref>, b: Ref)
    requires RM.Continues(plan, continuity) && SafeData(d, plan, continuity) && b in plan.base.records && plan.base.records[b].DefinitionRecord?
    ensures (forall q :: q in plan.objects ==> plan.objects[q].baseRef != Some(b)) ==> !AnyElement(d, b)
    ensures forall q :: q in plan.objects && plan.objects[q].baseRef == Some(b) && q != b ==> !AnyElement(d, q)
  {
    assert SafeDefinition(d, plan, continuity, b);
  }

  ghost predicate Deleted(plan: Plan, b: Ref, propertyBase: map<string, string>, name: string)
    requires b in plan.base.records && plan.base.records[b].DefinitionRecord?
  {
    && name != "" && (exists p :: p in plan.base.records[b].definition.properties && p.name == name)
    && forall p :: p in propertyBase ==> propertyBase[p] != name
  }

  ghost predicate OnlyTaken(propertyBase: map<string, string>, name: string) {
    && name in propertyBase && propertyBase[name] != "" && propertyBase[name] != name
    && forall p :: p in propertyBase && propertyBase[p] == name ==> p == name
  }

  // No value of a Property that no planned one continues, and none under a name that is only taken.
  lemma NothingUnderGoneProperties(d: Data, plan: Plan, continuity: map<Ref, Ref>, b: Ref, q: Ref, name: string)
    requires RM.Continues(plan, continuity) && SafeData(d, plan, continuity) && b in plan.base.records && plan.base.records[b].DefinitionRecord?
    requires q in plan.objects && plan.objects[q].baseRef == Some(b)
    ensures var base := plan.objects[q].propertyBase;
            && (Deleted(plan, b, base, name) ==> !AnyWith(d, b, name))
            && (OnlyTaken(base, name) ==> !AnyWith(d, b, name))
  {
    assert continuity[b] == q && SafeDefinition(d, plan, continuity, b);
    var base := plan.objects[q].propertyBase;
    assert MoveAllowed(d, plan, continuity, b, base, name);
  }

  // ----- a kept label

  const Person := Ref(NodeDefinition, "Person")
  const Human := Ref(NodeDefinition, "Human")

  function Labelled(name: string, labels: set<string>): Definition {
    Definition(NodeDefinition, name, None, None, labels, None, None, [], [])
  }

  // Person continues as Human, with these further labels.
  function HumanPlan(labels: set<string>): Plan {
    Plan(Snapshot(map[Person := DefinitionRecord(0, Labelled("Person", {}), map[])], map[]),
         map[Human := PlannedObject(DefinitionValue(Labelled("Human", labels)), Some(Person), map[], true)])
  }

  function OnePerson(): Data {
    Data(map[0 := DataNode({"Person"}, map[])], map[])
  }

  const ToHuman := map[Person := Human]

  lemma HumanPlanned(labels: set<string>, keeps: bool)
    requires keeps == ("Person" in labels)
    ensures ValidPlan(HumanPlan(labels)) && PlanChanges(HumanPlan(labels), ToHuman, [Person], [Change(NodeDefinition, "Person", "Human", map[], keeps)])
    ensures SafeData(OnePerson(), HumanPlan(labels), ToHuman)
  {
    assert "Person" != "Human";
    assert RM.IsChange(HumanPlan(labels), ToHuman, Person, Change(NodeDefinition, "Person", "Human", map[], keeps));
    forall b ensures SafeDefinition(OnePerson(), HumanPlan(labels), ToHuman, b) {
    }
  }

  // Listed among the labels of Human, Person stays on the node; not listed, it goes.
  lemma PersonStays(labels: set<string>)
    ensures var m := NodeFate([Change(NodeDefinition, "Person", "Human", map[], "Person" in labels)], OnePerson().nodes[0]);
            m.labels == if "Person" in labels then {"Person", "Human"} else {"Human"}
  {
    var changes, n := [Change(NodeDefinition, "Person", "Human", map[], "Person" in labels)], OnePerson().nodes[0];
    assert "Person" != "Human";
    assert ValidChanges(changes) && NodeSafe(changes, n) && OnlyUnder(changes, n, 0);
    RenamedNode(changes, n, 0);
  }
}
