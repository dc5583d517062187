// Renames on nodes that are under several Definitions at once, and what the safety check admits of them
// (internal/kernel/compiler_data.go).

module NodeOverlaps {
  import opened Outcomes
  import opened Model
  import opened RenameFacts
  import opened RenameFates

  // What the changed Definitions of a node do to one label or one name.
  predicate LabelGiven(changes: seq<Change>, n: DataNode, k: nat, l: string)
    requires k <= |changes|
  {
    exists i {:trigger changes[i]} :: 0 <= i < k && On(changes[i], n) && changes[i].target == l
  }

  predicate LabelTaken(changes: seq<Change>, n: DataNode, k: nat, l: string)
    requires k <= |changes|
  {
    exists i {:trigger changes[i]} :: 0 <= i < k && On(changes[i], n) && Renamed(changes[i]) && !changes[i].keepsLabel && changes[i].base == l
  }

  predicate NameGiven(changes: seq<Change>, n: DataNode, k: nat, name: string)
    requires k <= |changes|
  {
    exists i {:trigger changes[i]} :: 0 <= i < k && On(changes[i], n) && name in changes[i].renames.Values
  }

  predicate NameLeft(changes: seq<Change>, n: DataNode, k: nat, name: string)
    requires k <= |changes|
  {
    exists i {:trigger changes[i]} :: 0 <= i < k && On(changes[i], n) && name in Leftovers(changes[i].renames)
  }

  lemma GivenMore(changes: seq<Change>, n: DataNode, k: nat, s: string)
    requires k < |changes|
    ensures LabelGiven(changes, n, k + 1, s) <==> LabelGiven(changes, n, k, s) || (On(changes[k], n) && changes[k].target == s)
    ensures NameGiven(changes, n, k + 1, s) <==> NameGiven(changes, n, k, s) || (On(changes[k], n) && s in changes[k].renames.Values)
  {
  }

  lemma TakenMore(changes: seq<Change>, n: DataNode, k: nat, s: string)
    requires k < |changes|
    ensures LabelTaken(changes, n, k + 1, s) <==>
            LabelTaken(changes, n, k, s) || (On(changes[k], n) && Renamed(changes[k]) && !changes[k].keepsLabel && changes[k].base == s)
    ensures NameLeft(changes, n, k + 1, s) <==> NameLeft(changes, n, k, s) || (On(changes[k], n) && s in Leftovers(changes[k].renames))
  {
  }

  // p holds under a what q holds under b.
  predicate SameAt(p: Properties, a: string, q: Properties, b: string) {
    (a in p <==> b in q) && (a in p ==> p[a] == q[b])
  }

  // What the renames of all its Definitions together mean for a node.
  ghost predicate NodeGoal(changes: seq<Change>, n: DataNode, m: DataNode) {
    && (forall l {:trigger l in m.labels} :: l in m.labels <==>
          LabelGiven(changes, n, |changes|, l) || (l in n.labels && !LabelTaken(changes, n, |changes|, l)))
    && (forall i, x {:trigger x in changes[i].renames} :: 0 <= i < |changes| && On(changes[i], n) && x in changes[i].renames ==>
          SameAt(m.properties, changes[i].renames[x], n.properties, x))
    && (forall y {:trigger y in m.properties} :: !NameGiven(changes, n, |changes|, y) ==>
          if NameLeft(changes, n, |changes|, y) then y !in m.properties else SameAt(m.properties, y, n.properties, y))
  }

  // Two Definitions, c handled first, whose Property renames disturb each other on a shared node.
  ghost predicate Interfere(c: Change, d: Change) {
    || (exists x :: x in c.renames && c.renames[x] in d.renames)
    || (exists w :: w in d.renames && d.renames[w] in Leftovers(c.renames))
    || (exists x, w {:trigger c.renames[x], d.renames[w]} :: x in c.renames && w in d.renames && x != w && c.renames[x] == d.renames[w])
  }

  // No Definition that can hold nodes is renamed to the old name of one handled later.
  ghost predicate LabelsUnchained(changes: seq<Change>) {
    forall i, j {:trigger changes[i], changes[j]} ::
      (0 <= i < j < |changes| && changes[i].kind == NodeDefinition && Exposed(changes, i)) ==> !Reuses(changes[i], changes[j])
  }

  // And no two that can hold one node interfere.
  ghost predicate NodesApart(changes: seq<Change>) {
    && LabelsUnchained(changes)
    && forall i, j {:trigger changes[i], changes[j]} ::
         (0 <= i < j < |changes| && changes[i].kind == changes[j].kind == NodeDefinition && Exposed(changes, i) && Exposed(changes, j)) ==>
           !Interfere(changes[i], changes[j])
  }

  // ----- a safe node, step by step

  lemma CoveredExposed(changes: seq<Change>, n: DataNode, i: nat)
    requires NodeSafe(changes, n) && i < |changes| && On(changes[i], n)
    ensures Exposed(changes, i)
  {
  }

  ghost predicate UnchainedNode(changes: seq<Change>, n: DataNode) {
    ValidChanges(changes) && LabelsUnchained(changes) && NodeSafe(changes, n)
  }

  // Labels are only added, and no other Definition starts to cover the node.
  lemma {:induction false} StepLabels(changes: seq<Change>, n: DataNode, k: nat)
    requires UnchainedNode(changes, n) && k <= |changes|
    ensures forall l {:trigger l in NodeSteps(changes, k, n).labels} :: l in NodeSteps(changes, k, n).labels <==> l in n.labels || LabelGiven(changes, n, k, l)
    ensures k < |changes| ==> (On(changes[k], NodeSteps(changes, k, n)) <==> On(changes[k], n))
  {
    if k > 0 {
      var before := NodeSteps(changes, k - 1, n);
      StepLabels(changes, n, k - 1);
      forall l ensures l in NodeSteps(changes, k, n).labels <==> l in n.labels || LabelGiven(changes, n, k, l) {
        GivenMore(changes, n, k - 1, l);
      }
    }
    if k < |changes| && changes[k].kind == NodeDefinition {
      BaseNotGiven(changes, n, k);
    }
  }

  lemma BaseNotGiven(changes: seq<Change>, n: DataNode, k: nat)
    requires UnchainedNode(changes, n) && k < |changes| && changes[k].kind == NodeDefinition
    ensures !LabelGiven(changes, n, k, changes[k].base)
  {
    forall i | 0 <= i < k && On(changes[i], n) ensures changes[i].target != changes[k].base {
      CoveredExposed(changes, n, i);
      assert !Reuses(changes[i], changes[k]);
    }
  }

  ghost predicate ApartOn(changes: seq<Change>, n: DataNode) {
    forall i, j {:trigger changes[i], changes[j]} :: 0 <= i < j < |changes| && On(changes[i], n) && On(changes[j], n) ==> !Interfere(changes[i], changes[j])
  }

  // The properties after k steps.
  ghost predicate NamesAfter(changes: seq<Change>, n: DataNode, k: nat, p: Properties)
    requires k <= |changes|
  {
    && (forall i, x {:trigger x in changes[i].renames} :: 0 <= i < k && On(changes[i], n) && x in changes[i].renames ==>
          SameAt(p, changes[i].renames[x], n.properties, x))
    && (forall y {:trigger y in p} :: !NameGiven(changes, n, k, y) ==> SameAt(p, y, n.properties, y))
  }

  lemma SetUnder(p: Properties, renames: Renames, y: string)
    requires Moving(renames)
    ensures y !in renames.Values ==> SameAt(SnapshotSet(p, renames), y, p, y)
    ensures forall x :: x in renames && renames[x] == y ==> SameAt(SnapshotSet(p, renames), y, p, x)
  {
  }

  lemma SourceUntouched(changes: seq<Change>, n: DataNode, k: nat, p: Properties, x: string)
    requires k < |changes| && ApartOn(changes, n) && NamesAfter(changes, n, k, p) && On(changes[k], n) && x in changes[k].renames
    ensures SameAt(p, x, n.properties, x)
  {
    forall i | 0 <= i < k && On(changes[i], n) ensures x !in changes[i].renames.Values {
      NoChain(changes[i], changes[k], x);
    }
    assert !NameGiven(changes, n, k, x);
    assert x in p || x !in p;
  }

  lemma NoChain(c: Change, d: Change, x: string)
    requires !Interfere(c, d) && x in d.renames
    ensures x !in c.renames.Values
  {
    forall w | w in c.renames ensures c.renames[w] != x {
    }
  }

  lemma NoCollision(c: Change, d: Change, x: string, w: string)
    requires !Interfere(c, d) && x in c.renames && w in d.renames && c.renames[x] == d.renames[w]
    ensures x == w
  {
  }

  lemma OneMoreNames(changes: seq<Change>, n: DataNode, k: nat, p: Properties)
    requires ValidChanges(changes) && k < |changes| && ApartOn(changes, n) && NamesAfter(changes, n, k, p) && On(changes[k], n)
    ensures NamesAfter(changes, n, k + 1, SnapshotSet(p, changes[k].renames))
  {
    var c := changes[k];
    var q := SnapshotSet(p, c.renames);
    forall i, x | 0 <= i < k + 1 && On(changes[i], n) && x in changes[i].renames ensures SameAt(q, changes[i].renames[x], n.properties, x) {
      var y := changes[i].renames[x];
      SetUnder(p, c.renames, y);
      if i < k && y in c.renames.Values {
        var w := SourceOf(c.renames, y);
        NoCollision(changes[i], c, x, w);
        SourceUntouched(changes, n, k, p, w);
      } else if i == k {
        SourceUntouched(changes, n, k, p, x);
      }
    }
    forall y | !NameGiven(changes, n, k + 1, y) ensures SameAt(q, y, n.properties, y) {
      GivenMore(changes, n, k, y);
      SetUnder(p, c.renames, y);
      assert y in p || y !in p;
    }
  }

  // k steps have been taken and p is what they left.
  ghost predicate NamesReached(changes: seq<Change>, n: DataNode, k: nat, p: Properties) {
    k <= |changes| && p == NodeSteps(changes, k, n).properties && NamesAfter(changes, n, k, p)
  }

  ghost predicate ApartNode(changes: seq<Change>, n: DataNode) {
    UnchainedNode(changes, n) && ApartOn(changes, n)
  }

  lemma {:induction false} StepNames(changes: seq<Change>, n: DataNode, k: nat) returns (p: Properties)
    requires ApartNode(changes, n) && k <= |changes|
    ensures NamesReached(changes, n, k, p)
  {
    if k == 0 {
      p := n.properties;
      NamesAtStart(changes, n);
    } else {
      var before := StepNames(changes, n, k - 1);
      p := NextNames(changes, n, k - 1, before);
    }
  }

  lemma NamesAtStart(changes: seq<Change>, n: DataNode)
    ensures NamesReached(changes, n, 0, n.properties)
  {
    forall y ensures SameAt(n.properties, y, n.properties, y) {
    }
  }

  lemma NextNames(changes: seq<Change>, n: DataNode, k: nat, p: Properties) returns (q: Properties)
    requires ApartNode(changes, n) && k < |changes| && NamesReached(changes, n, k, p)
    ensures NamesReached(changes, n, k + 1, q)
  {
    if On(changes[k], n) {
      StepTaken(changes, n, k);
      OneMoreNames(changes, n, k, p);
      q := SnapshotSet(p, changes[k].renames);
    } else {
      StepNotTaken(changes, n, k);
      SameGiven(changes, n, k, p);
      q := p;
    }
  }

  lemma StepTaken(changes: seq<Change>, n: DataNode, k: nat)
    requires UnchainedNode(changes, n) && k < |changes| && On(changes[k], n)
    ensures NodeSteps(changes, k + 1, n).properties == SnapshotSet(NodeSteps(changes, k, n).properties, changes[k].renames)
  {
    StepLabels(changes, n, k);
  }

  lemma StepNotTaken(changes: seq<Change>, n: DataNode, k: nat)
    requires UnchainedNode(changes, n) && k < |changes| && !On(changes[k], n)
    ensures NodeSteps(changes, k + 1, n) == NodeSteps(changes, k, n)
  {
    StepLabels(changes, n, k);
  }

  lemma SameGiven(changes: seq<Change>, n: DataNode, k: nat, p: Properties)
    requires k < |changes| && NamesAfter(changes, n, k, p) && !On(changes[k], n)
    ensures NamesAfter(changes, n, k + 1, p)
  {
    forall y | !NameGiven(changes, n, k + 1, y) ensures SameAt(p, y, n.properties, y) {
      GivenMore(changes, n, k, y);
      assert y in p || y !in p;
    }
  }

  // ----- what is dropped

  // The node's labels while old labels are dropped.
  ghost predicate LabelsWithout(changes: seq<Change>, n: DataNode, k: nat, m: DataNode)
    requires k <= |changes|
  {
    forall l {:trigger l in m.labels} :: l in m.labels <==>
      (l in n.labels || LabelGiven(changes, n, |changes|, l)) && !LabelTaken(changes, n, k, l)
  }

  // A node still has exactly the new names of the Definitions that cover it.
  lemma ReachedAsCovered(changes: seq<Change>, n: DataNode, k: nat, m: DataNode, i: nat)
    requires ValidChanges(changes) && NodeSafe(changes, n) && k <= |changes| && LabelsWithout(changes, n, k, m) && i < |changes|
    ensures Reached(changes[i], m) <==> On(changes[i], n)
  {
    var l := changes[i].target;
    assert l in m.labels <==> (l in n.labels || LabelGiven(changes, n, |changes|, l)) && !LabelTaken(changes, n, k, l);
    assert Renamed(changes[i]) ==> !Reached(changes[i], n);
    if On(changes[i], n) {
      assert LabelGiven(changes, n, |changes|, l);
      forall j | 0 <= j < k && On(changes[j], n) && Renamed(changes[j]) ensures changes[j].base != l {
      }
      assert !LabelTaken(changes, n, k, l);
    } else if changes[i].kind == NodeDefinition {
      forall j | 0 <= j < |changes| && On(changes[j], n) ensures changes[j].target != l {
      }
      assert !LabelGiven(changes, n, |changes|, l);
    }
  }

  lemma {:induction false} DropLabels(changes: seq<Change>, n: DataNode, k: nat, s: DataNode)
    requires ValidChanges(changes) && NodeSafe(changes, n) && k <= |changes| && LabelsWithout(changes, n, 0, s)
    ensures LabelDrops(changes, k, s).properties == s.properties && LabelsWithout(changes, n, k, LabelDrops(changes, k, s))
  {
    if k > 0 {
      var before := LabelDrops(changes, k - 1, s);
      DropLabels(changes, n, k - 1, s);
      ReachedAsCovered(changes, n, k - 1, before, k - 1);
      forall l ensures l in LabelDrops(changes, k, s).labels <==>
          (l in n.labels || LabelGiven(changes, n, |changes|, l)) && !LabelTaken(changes, n, k, l)
      {
        TakenMore(changes, n, k - 1, l);
        assert l in before.labels <==> (l in n.labels || LabelGiven(changes, n, |changes|, l)) && !LabelTaken(changes, n, k - 1, l);
      }
    }
  }

  lemma {:induction false} DropNames(changes: seq<Change>, n: DataNode, k: nat, m: DataNode)
    requires ValidChanges(changes) && NodeSafe(changes, n) && k <= |changes| && LabelsWithout(changes, n, |changes|, m)
    ensures var r := NameDrops(changes, k, m);
            && r.labels == m.labels
            && forall y {:trigger y in r.properties} ::
                 (y in r.properties <==> y in m.properties && !NameLeft(changes, n, k, y)) && (y in r.properties ==> r.properties[y] == m.properties[y])
  {
    if k > 0 {
      var before := NameDrops(changes, k - 1, m);
      DropNames(changes, n, k - 1, m);
      ReachedAsCovered(changes, n, |changes|, m, k - 1);
      var r := NameDrops(changes, k, m);
      forall y ensures (y in r.properties <==> y in m.properties && !NameLeft(changes, n, k, y)) && (y in r.properties ==> r.properties[y] == m.properties[y]) {
        TakenMore(changes, n, k - 1, y);
        assert y in before.properties <==> y in m.properties && !NameLeft(changes, n, k - 1, y);
      }
    }
  }

  // The node after its steps, after the dropped labels and after the dropped names.
  lemma Phases(changes: seq<Change>, n: DataNode) returns (s: DataNode, m: DataNode)
    requires UnchainedNode(changes, n)
    ensures s == NodeSteps(changes, |changes|, n) && m == LabelDrops(changes, |changes|, s) && m.properties == s.properties
    ensures NodeFate(changes, n).labels == m.labels && LabelsWithout(changes, n, |changes|, m)
    ensures var r := NodeFate(changes, n);
            forall y {:trigger y in r.properties} ::
              (y in r.properties <==> y in s.properties && !NameLeft(changes, n, |changes|, y)) && (y in r.properties ==> r.properties[y] == s.properties[y])
  {
    s := NodeSteps(changes, |changes|, n);
    m := LabelDrops(changes, |changes|, s);
    StepLabels(changes, n, |changes|);
    forall l ensures l in s.labels <==> (l in n.labels || LabelGiven(changes, n, |changes|, l)) && !LabelTaken(changes, n, 0, l) {
    }
    DropLabels(changes, n, |changes|, s);
    DropNames(changes, n, |changes|, m);
  }

  // A name a covering Definition gives is left over by none.
  lemma GivenNotLeft(changes: seq<Change>, n: DataNode, i: nat, x: string)
    requires ValidChanges(changes) && ApartOn(changes, n) && i < |changes| && On(changes[i], n) && x in changes[i].renames
    ensures !NameLeft(changes, n, |changes|, changes[i].renames[x])
  {
    var y := changes[i].renames[x];
    forall j | 0 <= j < |changes| && On(changes[j], n) ensures y !in Leftovers(changes[j].renames) {
      if i < j {
        NotLeftByLater(changes[i], changes[j], x);
      } else if j < i {
        NotLeftByEarlier(changes[j], changes[i], x);
      }
    }
  }

  lemma NotLeftByLater(c: Change, d: Change, x: string)
    requires !Interfere(c, d) && x in c.renames
    ensures c.renames[x] !in Leftovers(d.renames)
  {
  }

  lemma NotLeftByEarlier(c: Change, d: Change, w: string)
    requires !Interfere(c, d) && w in d.renames
    ensures d.renames[w] !in Leftovers(c.renames)
  {
  }

  lemma LabelsReachGoal(changes: seq<Change>, n: DataNode, m: DataNode)
    requires ValidChanges(changes) && NodeSafe(changes, n) && LabelsWithout(changes, n, |changes|, m)
    ensures forall l {:trigger l in m.labels} :: l in m.labels <==>
              LabelGiven(changes, n, |changes|, l) || (l in n.labels && !LabelTaken(changes, n, |changes|, l))
  {
    forall l ensures l in m.labels <==> LabelGiven(changes, n, |changes|, l) || (l in n.labels && !LabelTaken(changes, n, |changes|, l)) {
      assert l in m.labels <==> (l in n.labels || LabelGiven(changes, n, |changes|, l)) && !LabelTaken(changes, n, |changes|, l);
      if LabelGiven(changes, n, |changes|, l) {
        var i :| 0 <= i < |changes| && On(changes[i], n) && changes[i].target == l;
        ReachedAsCovered(changes, n, |changes|, m, i);
      }
    }
  }

  // A safe node whose Definitions do not interfere ends as all their renames say.
  lemma ApartNodeReachesGoal(changes: seq<Change>, n: DataNode)
    requires UnchainedNode(changes, n) && ApartOn(changes, n)
    ensures NodeGoal(changes, n, NodeFate(changes, n))
  {
    var s, m := Phases(changes, n);
    var r := NodeFate(changes, n);
    var staged := StepNames(changes, n, |changes|);
    LabelsReachGoal(changes, n, m);
    forall i, x | 0 <= i < |changes| && On(changes[i], n) && x in changes[i].renames ensures SameAt(r.properties, changes[i].renames[x], n.properties, x) {
      GivenNotLeft(changes, n, i, x);
      assert SameAt(s.properties, changes[i].renames[x], n.properties, x);
      assert changes[i].renames[x] in r.properties <==> changes[i].renames[x] in s.properties;
    }
    forall y | !NameGiven(changes, n, |changes|, y)
      ensures if NameLeft(changes, n, |changes|, y) then y !in r.properties else SameAt(r.properties, y, n.properties, y)
    {
      assert y in s.properties || y !in s.properties;
      assert y in r.properties <==> y in s.properties && !NameLeft(changes, n, |changes|, y);
    }
  }

  // ----- where it fails

  // A node under two Definitions with one value.
  function Shared(c: Change, d: Change, name: string): DataNode {
    DataNode({c.base, d.base}, map[name := "value"])
  }

  lemma SharedIsSafe(changes: seq<Change>, i: nat, j: nat, name: string)
    requires i < j < |changes| && changes[i].kind == NodeDefinition && changes[j].kind == NodeDefinition && Exposed(changes, i) && Exposed(changes, j)
    ensures NodeSafe(changes, Shared(changes[i], changes[j], name))
  {
    forall k | 0 <= k < |changes| && Renamed(changes[k]) ensures !Reached(changes[k], Shared(changes[i], changes[j], name)) {
      assert !Reuses(changes[k], changes[i]) && !Reuses(changes[k], changes[j]);
    }
  }

  // It takes the two steps of its Definitions and no other.
  lemma SharedSteps(changes: seq<Change>, i: nat, j: nat, name: string)
    requires ValidChanges(changes) && LabelsUnchained(changes)
    requires i < j < |changes| && changes[i].kind == NodeDefinition && changes[j].kind == NodeDefinition && Exposed(changes, i) && Exposed(changes, j)
    ensures var n := Shared(changes[i], changes[j], name);
            NodeSteps(changes, |changes|, n).properties == SnapshotSet(SnapshotSet(n.properties, changes[i].renames), changes[j].renames)
  {
    var n := Shared(changes[i], changes[j], name);
    SharedIsSafe(changes, i, j, name);
    OnlyTheTwo(changes, i, j, name);
    TwoSteps(changes, n, i, j);
  }

  lemma TwoSteps(changes: seq<Change>, n: DataNode, i: nat, j: nat)
    requires UnchainedNode(changes, n) && i < j < |changes|
    requires forall k :: 0 <= k < |changes| ==> (On(changes[k], n) <==> k == i || k == j)
    ensures NodeSteps(changes, |changes|, n).properties == SnapshotSet(SnapshotSet(n.properties, changes[i].renames), changes[j].renames)
  {
    StayWhileUncovered(changes, n, 0, i);
    StepTaken(changes, n, i);
    StayWhileUncovered(changes, n, i + 1, j);
    StepTaken(changes, n, j);
    StayWhileUncovered(changes, n, j + 1, |changes|);
  }

  lemma OnlyTheTwo(changes: seq<Change>, i: nat, j: nat, name: string)
    requires ValidChanges(changes) && i < j < |changes| && changes[i].kind == NodeDefinition && changes[j].kind == NodeDefinition
    ensures forall k :: 0 <= k < |changes| ==> (On(changes[k], Shared(changes[i], changes[j], name)) <==> k == i || k == j)
  {
  }

  lemma {:induction false} StayWhileUncovered(changes: seq<Change>, n: DataNode, from: nat, k: nat)
    requires UnchainedNode(changes, n) && from <= k <= |changes|
    requires forall t :: from <= t < k ==> !On(changes[t], n)
    ensures NodeSteps(changes, k, n) == NodeSteps(changes, from, n)
  {
    if from < k {
      StayWhileUncovered(changes, n, from, k - 1);
      StepNotTaken(changes, n, k - 1);
    }
  }

  // Of two interfering Definitions, a value that only one of them is to rename, lost.
  lemma InterferenceLoses(changes: seq<Change>, i: nat, j: nat) returns (n: DataNode)
    requires ValidChanges(changes) && LabelsUnchained(changes)
    requires i < j < |changes| && changes[i].kind == NodeDefinition && changes[j].kind == NodeDefinition && Exposed(changes, i) && Exposed(changes, j)
    requires Interfere(changes[i], changes[j])
    ensures NodeSafe(changes, n) && !NodeGoal(changes, n, NodeFate(changes, n))
  {
    var c, d := changes[i], changes[j];
    if x :| x in c.renames && c.renames[x] in d.renames {
      n := ChainLoses(changes, i, j, x);
    } else if w :| w in d.renames && d.renames[w] in Leftovers(c.renames) {
      n := LeftoverLoses(changes, i, j, w);
    } else {
      var x, w :| x in c.renames && w in d.renames && x != w && c.renames[x] == d.renames[w];
      n := CollisionLoses(changes, i, j, x, w);
    }
  }

  // The earlier Definition overwrites what the later one is to rename.
  lemma ChainLoses(changes: seq<Change>, i: nat, j: nat, x: string) returns (n: DataNode)
    requires ValidChanges(changes) && LabelsUnchained(changes)
    requires i < j < |changes| && changes[i].kind == NodeDefinition && changes[j].kind == NodeDefinition && Exposed(changes, i) && Exposed(changes, j)
    requires x in changes[i].renames && changes[i].renames[x] in changes[j].renames
    ensures NodeSafe(changes, n) && !NodeGoal(changes, n, NodeFate(changes, n))
  {
    var y := changes[i].renames[x];
    var z := changes[j].renames[y];
    n := Shared(changes[i], changes[j], y);
    SharedIsSafe(changes, i, j, y);
    SharedSteps(changes, i, j, y);
    OnlyTheTwo(changes, i, j, y);
    var one := SnapshotSet(n.properties, changes[i].renames);
    SetUnder(n.properties, changes[i].renames, y);
    SetUnder(one, changes[j].renames, z);
    var s, m := Phases(changes, n);
    assert z !in s.properties && z !in NodeFate(changes, n).properties;
    assert On(changes[j], n) && y in changes[j].renames;
  }

  // The earlier Definition's old name is removed where the later one has put its value.
  lemma LeftoverLoses(changes: seq<Change>, i: nat, j: nat, w: string) returns (n: DataNode)
    requires ValidChanges(changes) && LabelsUnchained(changes)
    requires i < j < |changes| && changes[i].kind == NodeDefinition && changes[j].kind == NodeDefinition && Exposed(changes, i) && Exposed(changes, j)
    requires w in changes[j].renames && changes[j].renames[w] in Leftovers(changes[i].renames)
    ensures NodeSafe(changes, n) && !NodeGoal(changes, n, NodeFate(changes, n))
  {
    var y := changes[j].renames[w];
    n := Shared(changes[i], changes[j], w);
    SharedIsSafe(changes, i, j, w);
    OnlyTheTwo(changes, i, j, w);
    var s, m := Phases(changes, n);
    assert NameLeft(changes, n, |changes|, y);
    assert y !in NodeFate(changes, n).properties;
    assert On(changes[j], n) && w in changes[j].renames;
  }

  // The later Definition overwrites what the earlier one has renamed.
  lemma CollisionLoses(changes: seq<Change>, i: nat, j: nat, x: string, w: string) returns (n: DataNode)
    requires ValidChanges(changes) && LabelsUnchained(changes)
    requires i < j < |changes| && changes[i].kind == NodeDefinition && changes[j].kind == NodeDefinition && Exposed(changes, i) && Exposed(changes, j)
    requires x in changes[i].renames && w in changes[j].renames && x != w && changes[i].renames[x] == changes[j].renames[w]
    ensures NodeSafe(changes, n) && !NodeGoal(changes, n, NodeFate(changes, n))
  {
    var y := changes[i].renames[x];
    if w in changes[i].renames.Values {
      assert changes[i].renames[SourceOf(changes[i].renames, w)] in changes[j].renames;
      n := ChainLoses(changes, i, j, SourceOf(changes[i].renames, w));
      return;
    }
    n := Shared(changes[i], changes[j], x);
    SharedIsSafe(changes, i, j, x);
    SharedSteps(changes, i, j, x);
    OnlyTheTwo(changes, i, j, x);
    var one := SnapshotSet(n.properties, changes[i].renames);
    SetUnder(n.properties, changes[i].renames, w);
    SetUnder(one, changes[j].renames, y);
    var s, m := Phases(changes, n);
    assert y !in s.properties && y !in NodeFate(changes, n).properties;
    assert On(changes[i], n) && x in changes[i].renames;
  }

  // ----- a label chain

  // A label at the end of the chain: given by a change that is handled, and the old name of none handled later.
  lemma {:induction false} ChainEnd(changes: seq<Change>, n: DataNode, i: nat, j: nat, k: nat) returns (l: nat)
    requires ValidChanges(changes) && i < j < k <= |changes| && changes[i].kind == NodeDefinition && Reuses(changes[i], changes[j]) && On(changes[i], n)
    ensures j <= l < k && changes[l].kind == NodeDefinition && On(changes[l], NodeSteps(changes, l, n))
    ensures changes[l].target in NodeSteps(changes, k, n).labels
    ensures forall t :: l < t < k && changes[t].kind == NodeDefinition ==> changes[t].base != changes[l].target
  {
    if k == j + 1 {
      LabelsGrow(changes, n, 0, i);
      LabelsGrow(changes, n, i + 1, j);
      assert On(changes[i], NodeSteps(changes, i, n));
      assert changes[i].target in NodeSteps(changes, i + 1, n).labels;
      l := j;
    } else {
      l := ChainEnd(changes, n, i, j, k - 1);
      if changes[k - 1].kind == NodeDefinition && changes[k - 1].base == changes[l].target {
        l := k - 1;
      }
    }
  }

  lemma {:induction false} LabelsGrow(changes: seq<Change>, n: DataNode, from: nat, k: nat)
    requires from <= k <= |changes|
    ensures NodeSteps(changes, from, n).labels <= NodeSteps(changes, k, n).labels
  {
    if from < k {
      LabelsGrow(changes, n, from, k - 1);
    }
  }

  // Every label comes from the node or from a step taken.
  lemma {:induction false} LabelFrom(changes: seq<Change>, n: DataNode, k: nat, l: string) returns (t: nat)
    requires k <= |changes| && l in NodeSteps(changes, k, n).labels && l !in n.labels
    ensures t < k && changes[t].target == l && Renamed(changes[t]) && On(changes[t], NodeSteps(changes, t, n))
  {
    if l in NodeSteps(changes, k - 1, n).labels {
      t := LabelFrom(changes, n, k - 1, l);
    } else {
      t := k - 1;
    }
  }

  // The end of the chain is not dropped.
  lemma {:induction false} EndStays(changes: seq<Change>, n: DataNode, l: nat, k: nat)
    requires ValidChanges(changes) && NodeSafe(changes, n) && l < |changes| && k <= |changes| && changes[l].kind == NodeDefinition
    requires changes[l].target in NodeSteps(changes, |changes|, n).labels && changes[l].target !in n.labels
    requires forall t :: l < t < |changes| && changes[t].kind == NodeDefinition ==> changes[t].base != changes[l].target
    ensures changes[l].target in LabelDrops(changes, k, NodeSteps(changes, |changes|, n)).labels
    ensures LabelDrops(changes, k, NodeSteps(changes, |changes|, n)).labels <= NodeSteps(changes, |changes|, n).labels
  {
    if k > 0 {
      EndStays(changes, n, l, k - 1);
      var t := k - 1;
      var c := changes[t];
      var before := LabelDrops(changes, t, NodeSteps(changes, |changes|, n));
      if Renamed(c) && Reached(c, before) {
        assert !Reached(c, n);
        var s := LabelFrom(changes, n, |changes|, c.target);
        NotItsBase(changes, n, t, l);
      }
    }
  }

  // A step is not taken for a label that is yet to be given.
  lemma NotItsBase(changes: seq<Change>, n: DataNode, t: nat, l: nat)
    requires ValidChanges(changes) && t < |changes| && l < |changes| && On(changes[t], NodeSteps(changes, t, n)) && changes[l].kind == NodeDefinition
    requires changes[l].target !in n.labels
    requires forall u :: l < u < |changes| && changes[u].kind == NodeDefinition ==> changes[u].base != changes[l].target
    ensures changes[t].base != changes[l].target
  {
    if t <= l && changes[t].base == changes[l].target {
      var s := LabelFrom(changes, n, t, changes[l].target);
    }
  }

  lemma ChainedLabelLeaks(changes: seq<Change>, i: nat, j: nat) returns (n: DataNode)
    requires ValidChanges(changes) && i < j < |changes| && changes[i].kind == NodeDefinition && Exposed(changes, i) && Reuses(changes[i], changes[j])
    ensures n == DataNode({changes[i].base}, map[]) && NodeSafe(changes, n) && !NodeGoal(changes, n, NodeFate(changes, n))
  {
    n := DataNode({changes[i].base}, map[]);
    forall k | 0 <= k < |changes| && Renamed(changes[k]) ensures !Reached(changes[k], n) {
      assert !Reuses(changes[k], changes[i]);
    }
    var l := ChainEnd(changes, n, i, j, |changes|);
    var last := changes[l].target;
    assert last !in n.labels by {
      assert Renamed(changes[l]) ==> !Reached(changes[l], n);
      assert changes[l].base != changes[i].base;
    }
    EndStays(changes, n, l, |changes|);
    NamesKeepLabels(changes, |changes|, LabelDrops(changes, |changes|, NodeSteps(changes, |changes|, n)));
    assert last in NodeFate(changes, n).labels;
    forall t | 0 <= t < |changes| && On(changes[t], n) ensures changes[t].target != last {
      assert t == i;
    }
    assert !LabelGiven(changes, n, |changes|, last);
  }

  lemma {:induction false} NamesKeepLabels(changes: seq<Change>, k: nat, m: DataNode)
    requires k <= |changes|
    ensures NameDrops(changes, k, m).labels == m.labels
  {
    if k > 0 {
      NamesKeepLabels(changes, k - 1, m);
    }
  }

  // ----- the exact condition

  ghost predicate AllNodesReachGoal(changes: seq<Change>) {
    forall n {:trigger NodeFate(changes, n)} :: NodeSafe(changes, n) ==> NodeGoal(changes, n, NodeFate(changes, n))
  }

  // All nodes that pass the check of labels end as the renames of all their Definitions say exactly when no
  // label is chained into one handled later and no two Definitions that can share a node interfere.
  lemma NodeRenamesExact(changes: seq<Change>)
    requires ValidChanges(changes)
    ensures NodesApart(changes) <==> AllNodesReachGoal(changes)
  {
    if NodesApart(changes) {
      forall n | NodeSafe(changes, n) ensures NodeGoal(changes, n, NodeFate(changes, n)) {
        forall i, j | 0 <= i < j < |changes| && On(changes[i], n) && On(changes[j], n) ensures !Interfere(changes[i], changes[j]) {
          CoveredExposed(changes, n, i);
          CoveredExposed(changes, n, j);
        }
        ApartNodeReachesGoal(changes, n);
      }
    } else if !LabelsUnchained(changes) {
      var i, j :| 0 <= i < j < |changes| && changes[i].kind == NodeDefinition && Exposed(changes, i) && Reuses(changes[i], changes[j]);
      var n := ChainedLabelLeaks(changes, i, j);
    } else {
      var i, j :| 0 <= i < j < |changes| && changes[i].kind == NodeDefinition && changes[j].kind == NodeDefinition
                  && Exposed(changes, i) && Exposed(changes, j) && Interfere(changes[i], changes[j]);
      var n := InterferenceLoses(changes, i, j);
    }
  }
}

// Which Properties of overlapping Definitions a passed safety check protects.
module RenameGaps {
  import opened Outcomes
  import opened Sorting
  import opened Model
  import opened BindingGraph
  import opened DecoderFacts
  import opened CompilerFacts
  import opened RenameFacts
  import opened RenameFates
  import opened RenameSafety
  import opened NodeOverlaps
  import RM = RenameMaintenance

  // ----- the changes of a plan are determined by it

  lemma RenamesUnique(propertyBase: map<string, string>, a: Renames, b: Renames)
    requires RenamesOf(propertyBase, a) && RenamesOf(propertyBase, b)
    ensures a == b
  {
    SourcesAreRenamed(propertyBase, a);
    SourcesAreRenamed(propertyBase, b);
    forall x | x in a ensures a[x] == b[x] {
      assert propertyBase[a[x]] == x && b[propertyBase[a[x]]] == a[x];
    }
  }

  lemma ListedRefs(plan: Plan, continuity: map<Ref, Ref>, refs: seq<Ref>, changes: seq<Change>)
    requires RM.ChangesOf(plan, continuity, refs, changes)
    ensures forall r :: r in refs <==> RM.BaseDefinition(plan, r) && r in continuity
  {
    forall r | r in refs ensures RM.BaseDefinition(plan, r) && r in continuity {
      var i :| 0 <= i < |refs| && refs[i] == r;
      assert RM.IsChange(plan, continuity, refs[i], changes[i]);
    }
  }

  lemma SameElements(a: seq<Ref>, b: seq<Ref>)
    requires Distinct(a) && Distinct(b) && Ordered(a, RefKey) && Ordered(b, RefKey) && forall r :: r in a <==> r in b
    ensures a == b
  {
    forall r ensures multiset(a)[r] == multiset(b)[r] {
      CountsOnce(a, r);
      CountsOnce(b, r);
    }
    assert multiset(a) == multiset(b);
    KeysDetermine(a);
    OrderedUnique(a, b, RefKey);
  }

  lemma KeysDetermine(refs: seq<Ref>)
    ensures KeyDetermines(refs, RefKey)
  {
    forall i, j | 0 <= i < |refs| && 0 <= j < |refs| && RefKey(refs[i]) == RefKey(refs[j]) ensures refs[i] == refs[j] {
      RefKeyInjective(refs[i], refs[j]);
    }
  }

  lemma ChangesUnique(plan: Plan, continuity: map<Ref, Ref>, refs: seq<Ref>, changes: seq<Change>, refs': seq<Ref>, changes': seq<Change>)
    requires RM.ChangesOf(plan, continuity, refs, changes) && RM.ChangesOf(plan, continuity, refs', changes')
    ensures refs == refs' && changes == changes'
  {
    ListedRefs(plan, continuity, refs, changes);
    ListedRefs(plan, continuity, refs', changes');
    SameElements(refs, refs');
    forall i | 0 <= i < |refs| ensures changes[i] == changes'[i] {
      assert RM.IsChange(plan, continuity, refs[i], changes[i]) && RM.IsChange(plan, continuity, refs[i], changes'[i]);
      RenamesUnique(plan.objects[continuity[refs[i]]].propertyBase, changes[i].renames, changes'[i].renames);
    }
  }

  // ----- one Property, renamed by one Definition and kept by another

  // b renames x to y, other keeps x.
  ghost predicate Contested(plan: Plan, continuity: map<Ref, Ref>, b: Ref, other: Ref, x: string, y: string) {
    && b.kind == NodeDefinition && RM.BaseDefinition(plan, b) && b in continuity && continuity[b] in plan.objects
    && Moves(plan.objects[continuity[b]].propertyBase, y) && plan.objects[continuity[b]].propertyBase[y] == x
    && Keeps(plan, continuity, other, b, x)
  }

  // Another base Definition is renamed to r.
  ghost predicate TakenOver(plan: Plan, continuity: map<Ref, Ref>, r: Ref) {
    exists s :: RM.BaseDefinition(plan, s) && s in continuity && continuity[s] == r && s != r
  }

  // No data that passes the check has a node under both that holds x.
  ghost predicate Protected(plan: Plan, continuity: map<Ref, Ref>, b: Ref, other: Ref, x: string) {
    forall d {:trigger SafeData(d, plan, continuity)} :: SafeData(d, plan, continuity) ==> !AnyShared(d, b.name, other.name, x)
  }

  // One node under both Definitions that holds x alone.
  function BothHold(b: Ref, other: Ref, x: string): Data {
    Data(map[0 := DataNode({b.name, other.name}, map[x := "value"])], map[])
  }

  lemma BothHoldAt(b: Ref, other: Ref, x: string)
    requires b.kind == other.kind == NodeDefinition && b != other
    ensures AnyShared(BothHold(b, other, x), b.name, other.name, x)
    ensures forall r :: r != b && r != other ==> !AnyElement(BothHold(b, other, x), r)
    ensures forall r, name :: AnyWith(BothHold(b, other, x), r, name) ==> (r == b || r == other) && name == x
    ensures forall owner, third, name :: AnyShared(BothHold(b, other, x), owner, third, name) ==> name == x
  {
    var d := BothHold(b, other, x);
    assert NodeAt(d, 0, b.name) && NodeAt(d, 0, other.name) && x in d.nodes[0].properties;
    forall r: Ref, id | r.kind == NodeDefinition && NodeAt(d, id, r.name) ensures r == b || r == other {
    }
  }

  lemma RenamingIsSafe(plan: Plan, continuity: map<Ref, Ref>, b: Ref, other: Ref, x: string, y: string)
    requires RM.BasesApart(plan) && Contested(plan, continuity, b, other, x, y) && !TakenOver(plan, continuity, b) && !TakenOver(plan, continuity, other)
    requires y in Sources(plan.objects[continuity[b]].propertyBase)
    ensures SafeDefinition(BothHold(b, other, x), plan, continuity, b)
  {
    var d, propertyBase := BothHold(b, other, x), plan.objects[continuity[b]].propertyBase;
    BothHoldAt(b, other, x);
    assert ContinuedOnce(propertyBase);
    assert continuity[b] != b ==> continuity[b] != other;
    assert propertyBase[y] == x && x in Continuing(propertyBase) && x in Sources(propertyBase);
    forall name ensures MoveAllowed(d, plan, continuity, b, propertyBase, name) {
      assert Moves(propertyBase, name) && name !in Sources(propertyBase) ==> propertyBase[name] != x;
    }
  }

  lemma KeepingIsSafe(plan: Plan, continuity: map<Ref, Ref>, b: Ref, other: Ref, x: string, y: string)
    requires RM.BasesApart(plan) && Contested(plan, continuity, b, other, x, y) && !TakenOver(plan, continuity, b) && !TakenOver(plan, continuity, other)
    ensures SafeDefinition(BothHold(b, other, x), plan, continuity, other)
  {
    var d, propertyBase := BothHold(b, other, x), plan.objects[continuity[other]].propertyBase;
    BothHoldAt(b, other, x);
    assert ContinuedOnce(propertyBase);
    assert x != "" && propertyBase[x] == x && x in Continuing(propertyBase);
    forall name ensures MoveAllowed(d, plan, continuity, other, propertyBase, name) {
      assert Moves(propertyBase, name) ==> propertyBase[name] != x && name != x;
    }
  }

  lemma ThirdIsSafe(plan: Plan, continuity: map<Ref, Ref>, b: Ref, other: Ref, x: string, r: Ref)
    requires b.kind == other.kind == NodeDefinition && b != other && r != b && r != other
    requires !TakenOver(plan, continuity, b) && !TakenOver(plan, continuity, other)
    ensures SafeDefinition(BothHold(b, other, x), plan, continuity, r)
  {
    var d := BothHold(b, other, x);
    BothHoldAt(b, other, x);
    if RM.BaseDefinition(plan, r) && r in continuity && continuity[r] in plan.objects {
      var propertyBase := plan.objects[continuity[r]].propertyBase;
      assert continuity[r] != r ==> continuity[r] != b && continuity[r] != other;
      forall name ensures MoveAllowed(d, plan, continuity, r, propertyBase, name) {
        OtherwiseFree(plan, continuity, b, other, x, r);
      }
    }
  }

  // A third Definition shares no value with any other.
  lemma OtherwiseFree(plan: Plan, continuity: map<Ref, Ref>, b: Ref, other: Ref, x: string, r: Ref)
    requires b.kind == other.kind == NodeDefinition && b != other && r != b && r != other
    ensures forall name {:trigger NoOverlap(BothHold(b, other, x), plan, continuity, r, name)} ::
              r.kind == NodeDefinition ==> NoOverlap(BothHold(b, other, x), plan, continuity, r, name)
  {
    var d := BothHold(b, other, x);
    assert r.kind == NodeDefinition ==> forall id :: !NodeAt(d, id, r.name);
  }

  // A Property that another Definition keeps is protected on the nodes they share exactly when its new
  // name is not itself renamed away, or when a Definition is renamed over one of the two.
  lemma ProtectionExact(plan: Plan, continuity: map<Ref, Ref>, b: Ref, other: Ref, x: string, y: string)
    requires RM.BasesApart(plan) && RM.Continues(plan, continuity) && Contested(plan, continuity, b, other, x, y)
    ensures Protected(plan, continuity, b, other, x) <==>
            || y !in Sources(plan.objects[continuity[b]].propertyBase)
            || TakenOver(plan, continuity, b) || TakenOver(plan, continuity, other)
  {
    if y !in Sources(plan.objects[continuity[b]].propertyBase) {
      forall d | SafeData(d, plan, continuity) ensures !AnyShared(d, b.name, other.name, x) {
        CheckedMove(d, plan, continuity, b, other, x, y);
      }
    } else if TakenOver(plan, continuity, b) || TakenOver(plan, continuity, other) {
      forall d | SafeData(d, plan, continuity) ensures !AnyShared(d, b.name, other.name, x) {
        TakenOverEmpty(d, plan, continuity, b);
        TakenOverEmpty(d, plan, continuity, other);
        assert !AnyElement(d, b) || !AnyElement(d, other);
      }
    } else {
      SafeWitness(plan, continuity, b, other, x, y);
      BothHoldAt(b, other, x);
    }
  }

  lemma SafeWitness(plan: Plan, continuity: map<Ref, Ref>, b: Ref, other: Ref, x: string, y: string)
    requires RM.BasesApart(plan) && Contested(plan, continuity, b, other, x, y) && !TakenOver(plan, continuity, b) && !TakenOver(plan, continuity, other)
    requires y in Sources(plan.objects[continuity[b]].propertyBase)
    ensures SafeData(BothHold(b, other, x), plan, continuity)
  {
    forall r ensures SafeDefinition(BothHold(b, other, x), plan, continuity, r) {
      if r == b {
        RenamingIsSafe(plan, continuity, b, other, x, y);
      } else if r == other {
        KeepingIsSafe(plan, continuity, b, other, x, y);
      } else {
        ThirdIsSafe(plan, continuity, b, other, x, r);
      }
    }
  }

  lemma CheckedMove(d: Data, plan: Plan, continuity: map<Ref, Ref>, b: Ref, other: Ref, x: string, y: string)
    requires Contested(plan, continuity, b, other, x, y) && SafeData(d, plan, continuity)
    requires y !in Sources(plan.objects[continuity[b]].propertyBase)
    ensures !AnyShared(d, b.name, other.name, x)
  {
    var propertyBase := plan.objects[continuity[b]].propertyBase;
    assert SafeDefinition(d, plan, continuity, b);
    assert MoveAllowed(d, plan, continuity, b, propertyBase, y);
    assert NoOverlap(d, plan, continuity, b, x);
  }

  lemma TakenOverEmpty(d: Data, plan: Plan, continuity: map<Ref, Ref>, r: Ref)
    requires RM.Continues(plan, continuity) && SafeData(d, plan, continuity)
    ensures TakenOver(plan, continuity, r) ==> !AnyElement(d, r)
  {
    if s :| RM.BaseDefinition(plan, s) && s in continuity && continuity[s] == r && s != r {
      assert SafeDefinition(d, plan, continuity, s);
    }
  }

  // ----- and what is lost there

  // The kept Property of the node above is lost even where no Definitions interfere.
  lemma UnprotectedIsLost(plan: Plan, continuity: map<Ref, Ref>, refs: seq<Ref>, changes: seq<Change>, b: Ref, other: Ref, x: string, y: string)
    requires RM.BasesApart(plan) && RM.Continues(plan, continuity) && RM.ChangesOf(plan, continuity, refs, changes) && NodesApart(changes)
    requires Contested(plan, continuity, b, other, x, y) && !TakenOver(plan, continuity, b) && !TakenOver(plan, continuity, other)
    requires y in Sources(plan.objects[continuity[b]].propertyBase)
    ensures SafeData(BothHold(b, other, x), plan, continuity)
    ensures x !in NodeFate(changes, BothHold(b, other, x).nodes[0]).properties
  {
    var d := BothHold(b, other, x);
    SafeWitness(plan, continuity, b, other, x, y);
    SharedNodesReachGoal(d, plan, continuity, refs, changes, 0);
    RM.ChangesAreValid(plan, continuity, refs, changes);
    WitnessLoses(plan, continuity, refs, changes, b, other, x, y, NodeFate(changes, d.nodes[0]));
  }

  lemma WitnessLoses(plan: Plan, continuity: map<Ref, Ref>, refs: seq<Ref>, changes: seq<Change>, b: Ref, other: Ref, x: string, y: string, m: DataNode)
    requires RM.BasesApart(plan) && RM.ChangesOf(plan, continuity, refs, changes) && ValidChanges(changes)
    requires Contested(plan, continuity, b, other, x, y) && NodeGoal(changes, BothHold(b, other, x).nodes[0], m)
    ensures x !in m.properties
  {
    var d := BothHold(b, other, x);
    ListedRefs(plan, continuity, refs, changes);
    var i :| 0 <= i < |refs| && refs[i] == b;
    assert RM.IsChange(plan, continuity, refs[i], changes[i]);
    assert x in changes[i].renames;
    forall k | 0 <= k < |changes| && On(changes[k], d.nodes[0]) && k != i ensures x !in changes[k].renames.Values {
      KeptIsNotGiven(plan, continuity, refs, changes, b, other, x, k);
    }
    LostOn(changes, d.nodes[0], i, x, m);
  }

  // Every node that passed the check, under any number of Definitions, ends as all their renames say,
  // given that no two of them interfere.
  lemma SharedNodesReachGoal(d: Data, plan: Plan, continuity: map<Ref, Ref>, refs: seq<Ref>, changes: seq<Change>, id: nat)
    requires RM.BasesApart(plan) && RM.Continues(plan, continuity) && RM.ChangesOf(plan, continuity, refs, changes)
    requires SafeData(d, plan, continuity) && NodesApart(changes) && id in d.nodes
    ensures NodeGoal(changes, d.nodes[id], NodeFate(changes, d.nodes[id]))
  {
    RM.ChangesAreValid(plan, continuity, refs, changes);
    forall k | 0 <= k < |changes| && Renamed(changes[k]) ensures !Reached(changes[k], d.nodes[id]) {
      SafeChange(d, plan, continuity, refs, changes, k);
    }
    NodeRenamesExact(changes);
  }

  lemma KeptIsNotGiven(plan: Plan, continuity: map<Ref, Ref>, refs: seq<Ref>, changes: seq<Change>, b: Ref, other: Ref, x: string, k: nat)
    requires RM.BasesApart(plan) && RM.ChangesOf(plan, continuity, refs, changes) && Keeps(plan, continuity, other, b, x)
    requires k < |changes| && b.kind == NodeDefinition && refs[k] != b && On(changes[k], DataNode({b.name, other.name}, map[x := "value"]))
    ensures x !in changes[k].renames.Values
  {
    assert RM.IsChange(plan, continuity, refs[k], changes[k]);
    assert refs[k] == other;
    var propertyBase := plan.objects[continuity[other]].propertyBase;
    forall w | w in changes[k].renames ensures changes[k].renames[w] != x {
      assert propertyBase[changes[k].renames[w]] == w;
    }
  }

  // A node that holds x alone, renamed away by one of its Definitions, ends without x.
  lemma LostOn(changes: seq<Change>, n: DataNode, i: nat, x: string, m: DataNode)
    requires NodeGoal(changes, n, m) && i < |changes| && On(changes[i], n) && x in changes[i].renames && n.properties.Keys == {x}
    requires forall k :: 0 <= k < |changes| && On(changes[k], n) && x in changes[k].renames.Values ==> Moving(changes[k].renames)
    requires forall k :: 0 <= k < |changes| && On(changes[k], n) && k != i ==> x !in changes[k].renames.Values
    ensures x !in m.properties
  {
    if x in changes[i].renames.Values {
      var w := SourceOf(changes[i].renames, x);
      assert w != x;
      assert SameAt(m.properties, changes[i].renames[w], n.properties, w);
    } else {
      assert !NameGiven(changes, n, |changes|, x);
      assert NameLeft(changes, n, |changes|, x);
      assert x in m.properties || x !in m.properties;
    }
  }
}

// Two plans, with data, that the safety check admits and that lose a value.
module OverlapExamples {
  import opened Outcomes
  import opened Text
  import opened Sorting
  import opened Model
  import opened BindingGraph
  import opened DecoderFacts
  import opened CompilerFacts
  import opened RenameFacts
  import opened RenameFates
  import opened RenameSafety
  import opened NodeOverlaps
  import opened RenameGaps
  import RM = RenameMaintenance

  const A := Ref(NodeDefinition, "A")
  const B := Ref(NodeDefinition, "B")

  function Named(name: string): Property {
    Property(name, None, None, "STRING", false, [], "")
  }

  function WithProperties(name: string, properties: seq<Property>): Definition {
    Definition(NodeDefinition, name, None, None, {}, None, None, properties, [])
  }

  function Planned(ref: Ref, definition: Definition, propertyBase: map<string, string>): PlannedObject {
    PlannedObject(DefinitionValue(definition), Some(ref), propertyBase, true)
  }

  // Both Definitions keep their names; their Properties continue as the two maps say.
  function TwoDefinitions(a: Definition, a': Definition, aBase: map<string, string>, b: Definition, b': Definition, bBase: map<string, string>): Plan {
    Plan(Snapshot(map[A := DefinitionRecord(0, a, map[]), B := DefinitionRecord(1, b, map[])], map[]),
         map[A := Planned(A, a', aBase), B := Planned(B, b', bBase)])
  }

  const Both := map[A := A, B := B]

  function Unrenamed(r: Ref, renames: Renames): Change {
    Change(NodeDefinition, r.name, r.name, renames, false)
  }

  lemma {:induction false} AfterPrefix(prefix: string, s: string, t: string)
    requires LexLe(s, t)
    ensures LexLe(prefix + s, prefix + t)
  {
    if prefix != "" {
      AfterPrefix(prefix[1..], s, t);
      assert (prefix + s)[1..] == prefix[1..] + s && (prefix + t)[1..] == prefix[1..] + t;
    } else {
      assert prefix + s == s && prefix + t == t;
    }
  }

  lemma AThenB()
    ensures Distinct([A, B]) && Ordered([A, B], RefKey)
  {
    AfterPrefix("node:", "A", "B");
    assert A != B;
  }

  lemma TheirChanges(a: Definition, a': Definition, aBase: map<string, string>, aRenames: Renames,
                     b: Definition, b': Definition, bBase: map<string, string>, bRenames: Renames)
    requires RenamesOf(aBase, aRenames) && ContinuedOnce(aBase) && a'.labels == {}
    requires RenamesOf(bBase, bRenames) && ContinuedOnce(bBase) && b'.labels == {}
    ensures var plan := TwoDefinitions(a, a', aBase, b, b', bBase);
            && RM.BasesApart(plan) && RM.Continues(plan, Both)
            && RM.ChangesOf(plan, Both, [A, B], [Unrenamed(A, aRenames), Unrenamed(B, bRenames)])
  {
    AThenB();
    var plan := TwoDefinitions(a, a', aBase, b, b', bBase);
    assert A != B;
    assert RM.IsChange(plan, Both, A, Unrenamed(A, aRenames)) && RM.IsChange(plan, Both, B, Unrenamed(B, bRenames));
  }

  lemma NoneTakenOver(plan: Plan, r: Ref)
    ensures !TakenOver(plan, Both, r)
  {
  }

  // ----- a swap under a Definition that keeps one of the names

  const SwapBase: map<string, string> := map["x" := "y", "y" := "x"]
  const KeepBase: map<string, string> := map["x" := "x"]

  function SwapPlan(): Plan {
    TwoDefinitions(WithProperties("A", [Named("x"), Named("y")]), WithProperties("A", [Named("x"), Named("y")]), SwapBase,
                   WithProperties("B", [Named("x")]), WithProperties("B", [Named("x")]), KeepBase)
  }

  function SwapChanges(): seq<Change> {
    [Unrenamed(A, SwapBase), Unrenamed(B, map[])]
  }

  lemma SwapPlanned()
    ensures RM.BasesApart(SwapPlan()) && RM.Continues(SwapPlan(), Both) && RM.ChangesOf(SwapPlan(), Both, [A, B], SwapChanges())
  {
    assert "x" != "y";
    TheirChanges(WithProperties("A", [Named("x"), Named("y")]), WithProperties("A", [Named("x"), Named("y")]), SwapBase, SwapBase,
                 WithProperties("B", [Named("x")]), WithProperties("B", [Named("x")]), KeepBase, map[]);
  }

  lemma SwapContested()
    ensures Contested(SwapPlan(), Both, A, B, "x", "y") && "y" in Sources(SwapBase)
  {
    assert "x" != "y" && SwapBase["x"] == "y";
    var properties := [Named("x")];
    assert properties[0] in properties;
  }

  lemma NothingAgainst(c: Change, d: Change)
    requires d.renames == map[]
    ensures !Interfere(c, d)
  {
  }

  // The check admits a node under A and B that holds x; afterwards it holds no x, though B keeps x.
  lemma SwapLosesKept()
    ensures SafeData(BothHold(A, B, "x"), SwapPlan(), Both)
    ensures RM.ChangesOf(SwapPlan(), Both, [A, B], SwapChanges())
    ensures "x" !in NodeFate(SwapChanges(), BothHold(A, B, "x").nodes[0]).properties
  {
    SwapPlanned();
    SwapContested();
    NoneTakenOver(SwapPlan(), A);
    NoneTakenOver(SwapPlan(), B);
    NothingAgainst(SwapChanges()[0], SwapChanges()[1]);
    assert NodesApart(SwapChanges());
    UnprotectedIsLost(SwapPlan(), Both, [A, B], SwapChanges(), A, B, "x", "y");
  }

  // ----- two overlapping renames in a row

  const FirstBase: map<string, string> := map["y" := "x"]
  const SecondBase: map<string, string> := map["z" := "y"]

  function LeakPlan(): Plan {
    TwoDefinitions(WithProperties("A", [Named("x")]), WithProperties("A", [Named("y")]), FirstBase,
                   WithProperties("B", [Named("y")]), WithProperties("B", [Named("z")]), SecondBase)
  }

  function LeakChanges(): seq<Change> {
    [Unrenamed(A, map["x" := "y"]), Unrenamed(B, map["y" := "z"])]
  }

  lemma LeakPlanned()
    ensures RM.BasesApart(LeakPlan()) && RM.Continues(LeakPlan(), Both) && RM.ChangesOf(LeakPlan(), Both, [A, B], LeakChanges())
  {
    assert "x" != "y" && "y" != "z";
    TheirChanges(WithProperties("A", [Named("x")]), WithProperties("A", [Named("y")]), FirstBase, map["x" := "y"],
                 WithProperties("B", [Named("y")]), WithProperties("B", [Named("z")]), SecondBase, map["y" := "z"]);
  }

  // A Definition of an unrenamed name whose one Property p becomes q, where the shared node holds neither
  // q nor, unless the other Definition does not keep it, p.
  lemma OneMoveSafe(plan: Plan, b: Ref, other: Ref, x: string, p: string, q: string)
    requires b.kind == other.kind == NodeDefinition && b != other && p != q && p != "" && q != x
    requires forall r :: r in Both ==> Both[r] == r
    requires b in Both && b in plan.objects && plan.objects[b].propertyBase == map[q := p]
    requires RM.BaseDefinition(plan, b) ==> PropertyNames(plan.base.records[b].definition.properties) == {p}
    requires p == x ==> !Keeps(plan, Both, other, b, x)
    requires forall r :: RM.BaseDefinition(plan, r) ==> r == b || r == other
    ensures SafeDefinition(BothHold(b, other, x), plan, Both, b)
  {
    var d, propertyBase := BothHold(b, other, x), plan.objects[b].propertyBase;
    BothHoldAt(b, other, x);
    assert propertyBase[q] == p && p in Continuing(propertyBase);
    forall name ensures MoveAllowed(d, plan, Both, b, propertyBase, name) {
    }
  }

  // The check admits a node that holds x under A and B; the value goes on to z, and y is empty.
  lemma LeakMovesTwice()
    ensures SafeData(BothHold(A, B, "x"), LeakPlan(), Both)
    ensures RM.ChangesOf(LeakPlan(), Both, [A, B], LeakChanges())
    ensures NodeFate(LeakChanges(), BothHold(A, B, "x").nodes[0]).properties == map["z" := "value"]
  {
    LeakPlanned();
    LeakSafe();
    assert "x" != "y" && "y" != "z" && "x" != "z" && "A" != "B";
    OverlapLeaks("A", "B", "x", "y", "z", "value");
  }

  lemma LeakSafe()
    ensures SafeData(BothHold(A, B, "x"), LeakPlan(), Both)
  {
    var plan, d := LeakPlan(), BothHold(A, B, "x");
    NoneTakenOver(plan, A);
    NoneTakenOver(plan, B);
    forall r ensures SafeDefinition(d, plan, Both, r) {
      if r == A {
        LeakSafeA();
      } else if r == B {
        LeakSafeB();
      } else {
        ThirdIsSafe(plan, Both, A, B, "x", r);
      }
    }
  }

  lemma OnlyProperty(name: string)
    ensures PropertyNames([Named(name)]) == {name}
  {
    assert [Named(name)][0] in [Named(name)];
  }

  lemma LeakSafeA()
    ensures SafeDefinition(BothHold(A, B, "x"), LeakPlan(), Both, A)
  {
    OnlyProperty("x");
    assert "x" != "y" && "x" != "z";
    OneMoveSafe(LeakPlan(), A, B, "x", "x", "y");
  }

  lemma LeakSafeB()
    ensures SafeDefinition(BothHold(A, B, "x"), LeakPlan(), Both, B)
  {
    OnlyProperty("y");
    assert "x" != "y" && "x" != "z" && "y" != "z";
    assert BothHold(A, B, "x").nodes[0].labels == {"B", "A"};
    OneMoveSafe(LeakPlan(), B, A, "x", "y", "z");
  }

  // ----- both are plans as the planner makes them

  lemma TwoWellFormed(a: Definition, a': Definition, aBase: map<string, string>, b: Definition, b': Definition, bBase: map<string, string>)
    requires a'.kind == NodeDefinition && a'.name == "A" && b'.kind == NodeDefinition && b'.name == "B"
    requires DistinctProperties(a'.properties) && DistinctProperties(b'.properties)
    ensures WellFormed(CompilerFacts.Planned(TwoDefinitions(a, a', aBase, b, b', bBase))) && BasesKnown(TwoDefinitions(a, a', aBase, b, b', bBase))
  {
    assert A != B;
  }

  lemma TwoSourcesKnown(a: Definition, a': Definition, aBase: map<string, string>, b: Definition, b': Definition, bBase: map<string, string>)
    requires forall name :: name in aBase ==> aBase[name] in PropertyNames(a.properties)
    requires forall name :: name in bBase ==> bBase[name] in PropertyNames(b.properties)
    ensures SourcesKnown(TwoDefinitions(a, a', aBase, b, b', bBase))
  {
    var plan := TwoDefinitions(a, a', aBase, b, b', bBase);
    assert A != B;
    assert ObjectsOf(plan.base)[A] == DefinitionValue(a) && ObjectsOf(plan.base)[B] == DefinitionValue(b);
  }

  lemma TwoClaimsApart(a: Definition, a': Definition, aBase: map<string, string>, b: Definition, b': Definition, bBase: map<string, string>)
    requires ContinuedOnce(aBase) && ContinuedOnce(bBase)
    ensures ClaimsApart(TwoDefinitions(a, a', aBase, b, b', bBase))
  {
    assert A != B;
  }

  lemma TwoValid(a: Definition, a': Definition, aBase: map<string, string>, b: Definition, b': Definition, bBase: map<string, string>)
    requires a'.kind == NodeDefinition && a'.name == "A" && b'.kind == NodeDefinition && b'.name == "B"
    requires DistinctProperties(a'.properties) && DistinctProperties(b'.properties) && ContinuedOnce(aBase) && ContinuedOnce(bBase)
    requires forall name :: name in aBase ==> aBase[name] in PropertyNames(a.properties)
    requires forall name :: name in bBase ==> bBase[name] in PropertyNames(b.properties)
    ensures ValidPlan(TwoDefinitions(a, a', aBase, b, b', bBase))
  {
    TwoWellFormed(a, a', aBase, b, b', bBase);
    TwoSourcesKnown(a, a', aBase, b, b', bBase);
    TwoClaimsApart(a, a', aBase, b, b', bBase);
  }

  lemma BothPlansValid()
    ensures ValidPlan(SwapPlan()) && ValidPlan(LeakPlan())
  {
    SwapValid();
    LeakValid();
  }

  lemma SwapValid()
    ensures ValidPlan(SwapPlan())
  {
    var two, one := [Named("x"), Named("y")], [Named("x")];
    assert two[0] in two && two[1] in two && one[0] in one;
    assert "x" != "y";
    TwoValid(WithProperties("A", two), WithProperties("A", two), SwapBase, WithProperties("B", one), WithProperties("B", one), KeepBase);
  }

  lemma LeakValid()
    ensures ValidPlan(LeakPlan())
  {
    OnlyProperty("x");
    OnlyProperty("y");
    TwoValid(WithProperties("A", [Named("x")]), WithProperties("A", [Named("y")]), FirstBase,
             WithProperties("B", [Named("y")]), WithProperties("B", [Named("z")]), SecondBase);
  }
}

// Two plans, with data, in which one Definition is renamed to the old name of another.
module ChainExamples {
  import opened Outcomes
  import opened Text
  import opened Sorting
  import opened Model
  import opened BindingGraph
  import opened DecoderFacts
  import opened CompilerFacts
  import opened RenameFacts
  import opened RenameFates
  import opened RenameSafety
  import opened NodeOverlaps
  import OverlapExamples
  import RM = RenameMaintenance

  function Plain(kind: Kind, name: string): Definition {
    Definition(kind, name, None, None, {}, None, None, [], [])
  }

  // A becomes B, and B becomes C.
  function ChainPlan(kind: Kind): Plan {
    var a, b, c := Ref(kind, "A"), Ref(kind, "B"), Ref(kind, "C");
    Plan(Snapshot(map[a := DefinitionRecord(0, Plain(kind, "A"), map[]), b := DefinitionRecord(1, Plain(kind, "B"), map[])], map[]),
         map[b := PlannedObject(DefinitionValue(Plain(kind, "B")), Some(a), map[], true),
             c := PlannedObject(DefinitionValue(Plain(kind, "C")), Some(b), map[], true)])
  }

  function Onward(kind: Kind): map<Ref, Ref> {
    map[Ref(kind, "A") := Ref(kind, "B"), Ref(kind, "B") := Ref(kind, "C")]
  }

  function ChainChanges(kind: Kind): seq<Change> {
    [Change(kind, "A", "B", map[], false), Change(kind, "B", "C", map[], false)]
  }

  function ChainRefs(kind: Kind): seq<Ref> {
    [Ref(kind, "A"), Ref(kind, "B")]
  }

  lemma ChainOrdered(kind: Kind)
    requires IsDefinition(kind)
    ensures Distinct(ChainRefs(kind)) && Ordered(ChainRefs(kind), RefKey)
  {
    OverlapExamples.AfterPrefix(if kind == NodeDefinition then "node:" else "relationship:", "A", "B");
    assert "A" != "B";
  }

  lemma ChainPlanned(kind: Kind)
    requires IsDefinition(kind)
    ensures RM.BasesApart(ChainPlan(kind)) && RM.Continues(ChainPlan(kind), Onward(kind))
    ensures RM.ChangesOf(ChainPlan(kind), Onward(kind), ChainRefs(kind), ChainChanges(kind))
  {
    var a, b, c := Ref(kind, "A"), Ref(kind, "B"), Ref(kind, "C");
    assert "A" != "B" && "B" != "C" && "A" != "C";
    ChainOrdered(kind);
    assert RM.IsChange(ChainPlan(kind), Onward(kind), a, ChainChanges(kind)[0]);
    assert RM.IsChange(ChainPlan(kind), Onward(kind), b, ChainChanges(kind)[1]);
  }

  lemma ChainWellFormed(kind: Kind)
    requires IsDefinition(kind)
    ensures WellFormed(Planned(ChainPlan(kind))) && BasesKnown(ChainPlan(kind)) && SourcesKnown(ChainPlan(kind))
  {
    assert "A" != "B" && "B" != "C" && "A" != "C";
  }

  lemma ChainClaims(kind: Kind)
    ensures ClaimsApart(ChainPlan(kind))
  {
    assert "A" != "B" && "B" != "C" && "A" != "C";
  }

  lemma ChainValid(kind: Kind)
    requires IsDefinition(kind)
    ensures ValidPlan(ChainPlan(kind))
  {
    ChainWellFormed(kind);
    ChainClaims(kind);
  }

  // Data with nothing under B or C is admitted.
  lemma ChainSafe(kind: Kind, d: Data)
    requires IsDefinition(kind) && !AnyElement(d, Ref(kind, "B")) && !AnyElement(d, Ref(kind, "C"))
    ensures SafeData(d, ChainPlan(kind), Onward(kind))
  {
    assert "A" != "B" && "B" != "C";
    forall b ensures SafeDefinition(d, ChainPlan(kind), Onward(kind), b) {
    }
  }

  function OneNodeUnderA(): Data {
    Data(map[0 := DataNode({"A"}, map[])], map[])
  }

  function OneEdgeOfA(): Data {
    Data(map[0 := DataNode({}, map[])], map[0 := DataEdge("A", 0, 0, map[])])
  }

  lemma NothingToSet()
    ensures SnapshotSet(map[], map[]) == map[]
  {
    var none: Renames := map[];
    assert none.Values == {};
  }

  lemma NodeTwice()
    ensures NodeFate(ChainChanges(NodeDefinition), DataNode({"A"}, map[])).labels == {"C"}
  {
    var changes, n := ChainChanges(NodeDefinition), DataNode({"A"}, map[]);
    assert "A" != "B" && "B" != "C" && "A" != "C";
    NothingToSet();
    assert NodeSteps(changes, 1, n) == DataNode({"A", "B"}, map[]);
    assert NodeSteps(changes, 2, n) == DataNode({"A", "B", "C"}, map[]);
    var two := DataNode({"A", "B", "C"}, map[]);
    assert LabelDrops(changes, 1, two).labels == {"B", "C"};
    assert LabelDrops(changes, 2, two).labels == {"C"};
    NamesKeepLabels(changes, 2, LabelDrops(changes, 2, two));
  }

  lemma EdgeTwice()
    ensures EdgeFate(ChainChanges(RelationshipDefinition), DataEdge("A", 0, 0, map[])).kind == "C"
  {
    var changes, e := ChainChanges(RelationshipDefinition), DataEdge("A", 0, 0, map[]);
    assert "A" != "B" && "B" != "C";
    assert EdgeSteps(changes, 1, e).kind == "B";
    assert EdgeSteps(changes, 2, e).kind == "C";
    DropsKeepKind(changes, 2, EdgeSteps(changes, 2, e));
  }

  // The check admits a node under A; it ends under C, though A becomes B.
  lemma LabelMovesTwice()
    ensures ValidPlan(ChainPlan(NodeDefinition)) && SafeData(OneNodeUnderA(), ChainPlan(NodeDefinition), Onward(NodeDefinition))
    ensures RM.ChangesOf(ChainPlan(NodeDefinition), Onward(NodeDefinition), ChainRefs(NodeDefinition), ChainChanges(NodeDefinition))
    ensures NodeFate(ChainChanges(NodeDefinition), OneNodeUnderA().nodes[0]).labels == {"C"}
  {
    assert "A" != "B" && "A" != "C";
    ChainPlanned(NodeDefinition);
    ChainValid(NodeDefinition);
    ChainSafe(NodeDefinition, OneNodeUnderA());
    NodeTwice();
  }

  // The check admits a relationship of type A; it ends as one of type C.
  lemma TypeMovesTwice()
    ensures ValidPlan(ChainPlan(RelationshipDefinition)) && SafeData(OneEdgeOfA(), ChainPlan(RelationshipDefinition), Onward(RelationshipDefinition))
    ensures RM.ChangesOf(ChainPlan(RelationshipDefinition), Onward(RelationshipDefinition), ChainRefs(RelationshipDefinition), ChainChanges(RelationshipDefinition))
    ensures EdgeFate(ChainChanges(RelationshipDefinition), OneEdgeOfA().edges[0]).kind == "C"
  {
    assert "A" != "B" && "A" != "C";
    ChainPlanned(RelationshipDefinition);
    ChainValid(RelationshipDefinition);
    ChainSafe(RelationshipDefinition, OneEdgeOfA());
    EdgeTwice();
  }
}
