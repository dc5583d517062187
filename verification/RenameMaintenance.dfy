// The statements a plan issues on Knowledge data: safety checks, rename maintenance, removal of the
// renamed sources (internal/kernel/compiler_data.go, in the order of patch_execute.go).

module RenameMaintenance {
  import opened Outcomes
  import opened Sorting
  import opened Model
  import opened BindingGraph
  import opened CompilerFacts
  import opened RenameFacts
  import opened RenameFates

  // The Knowledge part of a transaction; each method is one of the source's statements.
  class StagedData {
    var nodes: map<nat, DataNode>
    var edges: map<nat, DataEdge>
    var nextId: nat

    ghost predicate Valid()
      reads this
    {
      forall i :: i in edges ==> i < nextId
    }

    constructor (nodes: map<nat, DataNode>, edges: map<nat, DataEdge>, nextId: nat)
      ensures this.nodes == nodes && this.edges == edges && this.nextId == nextId
    {
      this.nodes, this.edges, this.nextId := nodes, edges, nextId;
    }

    // MATCH (n:label) WITH n, n[old] AS alias, ... SET n[new] = alias, ...
    method SetNodeProperties(tag: string, names: seq<string>, renames: Renames)
      requires Valid() && forall m :: m in names ==> m in renames
      modifies this`nodes
      ensures Valid()
      ensures nodes == map id | id in old(nodes) ::
                if tag in old(nodes)[id].labels
                then old(nodes)[id].(properties := AssignAll(old(nodes)[id].properties, names, |names|, renames))
                else old(nodes)[id]
    {
      nodes := map id | id in nodes ::
        if tag in nodes[id].labels
        then nodes[id].(properties := AssignAll(nodes[id].properties, names, |names|, renames))
        else nodes[id];
    }

    // MATCH (n:given) SET n:added
    method AddLabel(given: string, added: string)
      requires Valid()
      modifies this`nodes
      ensures Valid()
      ensures nodes == map id | id in old(nodes) ::
                if given in old(nodes)[id].labels then old(nodes)[id].(labels := old(nodes)[id].labels + {added}) else old(nodes)[id]
    {
      nodes := map id | id in nodes ::
        if given in nodes[id].labels then nodes[id].(labels := nodes[id].labels + {added}) else nodes[id];
    }

    // MATCH (n:given) REMOVE n:removed
    method RemoveLabel(given: string, removed: string)
      requires Valid()
      modifies this`nodes
      ensures Valid()
      ensures nodes == map id | id in old(nodes) ::
                if given in old(nodes)[id].labels then old(nodes)[id].(labels := old(nodes)[id].labels - {removed}) else old(nodes)[id]
    {
      nodes := map id | id in nodes ::
        if given in nodes[id].labels then nodes[id].(labels := nodes[id].labels - {removed}) else nodes[id];
    }

    // MATCH (n:label) REMOVE n[name]
    method RemoveNodeProperty(tag: string, name: string)
      requires Valid()
      modifies this`nodes
      ensures Valid()
      ensures nodes == map id | id in old(nodes) ::
                if tag in old(nodes)[id].labels then old(nodes)[id].(properties := old(nodes)[id].properties - {name}) else old(nodes)[id]
    {
      nodes := map id | id in nodes ::
        if tag in nodes[id].labels then nodes[id].(properties := nodes[id].properties - {name}) else nodes[id];
    }

    // MATCH ()-[r]->() WHERE type(r) = kind WITH r, r[old] AS alias, ... SET r[new] = alias, ...
    method SetEdgeProperties(kind: string, names: seq<string>, renames: Renames)
      requires Valid() && forall m :: m in names ==> m in renames
      modifies this`edges
      ensures Valid()
      ensures edges == map id | id in old(edges) ::
                if old(edges)[id].kind == kind
                then old(edges)[id].(properties := AssignAll(old(edges)[id].properties, names, |names|, renames))
                else old(edges)[id]
    {
      edges := map id | id in edges ::
        if edges[id].kind == kind
        then edges[id].(properties := AssignAll(edges[id].properties, names, |names|, renames))
        else edges[id];
    }

    // MATCH ()-[r]->() WHERE type(r) = kind REMOVE r[name]
    method RemoveEdgeProperty(kind: string, name: string)
      requires Valid()
      modifies this`edges
      ensures Valid()
      ensures edges == map id | id in old(edges) ::
                if old(edges)[id].kind == kind then old(edges)[id].(properties := old(edges)[id].properties - {name}) else old(edges)[id]
    {
      edges := map id | id in edges ::
        if edges[id].kind == kind then edges[id].(properties := edges[id].properties - {name}) else edges[id];
    }

    // CREATE (a)-[replacement:kind]->(b) SET replacement = properties(r) DELETE r, for one r.
    method Replace(id: nat, kind: string) returns (replacement: nat)
      requires Valid() && id in edges
      modifies this`edges, this`nextId
      ensures Valid() && replacement == old(nextId) && nextId == old(nextId) + 1
      ensures edges == (old(edges) - {id})[replacement := old(edges)[id].(kind := kind)]
    {
      replacement := nextId;
      nextId := nextId + 1;
      edges := (edges - {id})[replacement := edges[id].(kind := kind)];
    }
  }

  // ----- relationships are replaced, so their identities change

  // Every relationship present stands for one that was there before, and none is missing.
  ghost predicate StandsFor(edges: map<nat, DataEdge>, origin: map<nat, nat>, meant: map<nat, DataEdge>) {
    && origin.Keys == edges.Keys && origin.Values == meant.Keys
    && (forall a, b :: a in origin && b in origin && origin[a] == origin[b] ==> a == b)
    && (forall i :: i in edges ==> edges[i] == meant[origin[i]])
  }

  function Self(edges: map<nat, DataEdge>): map<nat, nat> {
    map i | i in edges :: i
  }

  lemma StandsForSelf(edges: map<nat, DataEdge>)
    ensures StandsFor(edges, Self(edges), edges)
  {
    var origin := Self(edges);
    assert origin.Values == edges.Keys by {
      forall i | i in edges ensures i in origin.Values {
        assert origin[i] == i;
      }
    }
  }

  lemma StandsForEach(edges: map<nat, DataEdge>, after: map<nat, DataEdge>, origin: map<nat, nat>,
                      meant: map<nat, DataEdge>, next: map<nat, DataEdge>)
    requires StandsFor(edges, origin, meant) && after.Keys == edges.Keys && next.Keys == meant.Keys
    requires forall i :: i in edges ==> after[i] == next[origin[i]]
    ensures StandsFor(after, origin, next)
  {
  }

  lemma ReplacedStands(edges: map<nat, DataEdge>, origin: map<nat, nat>, meant: map<nat, DataEdge>, i: nat, k: nat, kind: string)
    requires StandsFor(edges, origin, meant) && i in edges && k !in edges
    ensures StandsFor((edges - {i})[k := edges[i].(kind := kind)], (origin - {i})[k := origin[i]],
                      meant[origin[i] := meant[origin[i]].(kind := kind)])
  {
    var after, more := (edges - {i})[k := edges[i].(kind := kind)], (origin - {i})[k := origin[i]];
    forall o | o in meant ensures o in more.Values {
      var j :| j in origin && origin[j] == o;
      assert j == i || more[j] == o;
      assert more[k] == origin[i];
    }
    forall o | o in more.Values ensures o in meant {
      var j :| j in more && more[j] == o;
      assert o in origin.Values;
    }
  }

  function Retyped(e: DataEdge, from: string, to: string): DataEdge {
    if e.kind == from then e.(kind := to) else e
  }

  ghost function RetypedAll(meant: map<nat, DataEdge>, from: string, to: string): map<nat, DataEdge> {
    map o | o in meant :: Retyped(meant[o], from, to)
  }

  // Some of the relationships of the type are replaced; todo are the others.
  ghost predicate Retyping(edges: map<nat, DataEdge>, now: map<nat, nat>, so: map<nat, DataEdge>, meant: map<nat, DataEdge>,
                           todo: set<nat>, from: string, to: string) {
    && StandsFor(edges, now, so) && so.Keys == meant.Keys
    && (forall i :: i in todo ==> i in edges && edges[i].kind == from)
    && (forall i :: i in edges && edges[i].kind == from ==> i in todo)
    && (forall o :: o in meant ==> so[o] == meant[o] || so[o] == Retyped(meant[o], from, to))
  }

  lemma RetypingMore(edges: map<nat, DataEdge>, now: map<nat, nat>, so: map<nat, DataEdge>, meant: map<nat, DataEdge>,
                     todo: set<nat>, from: string, to: string, i: nat, k: nat)
    requires Retyping(edges, now, so, meant, todo, from, to) && from != to && i in todo && k !in edges && k !in todo
    ensures i in now && now[i] in so
    ensures Retyping((edges - {i})[k := edges[i].(kind := to)], (now - {i})[k := now[i]], so[now[i] := so[now[i]].(kind := to)],
                     meant, todo - {i}, from, to)
  {
    assert now[i] in now.Values;
    ReplacedStands(edges, now, so, i, k, to);
  }

  lemma RetypingEnd(edges: map<nat, DataEdge>, now: map<nat, nat>, so: map<nat, DataEdge>, meant: map<nat, DataEdge>, from: string, to: string)
    requires Retyping(edges, now, so, meant, {}, from, to)
    ensures StandsFor(edges, now, RetypedAll(meant, from, to))
  {
    forall o | o in meant ensures so[o] == Retyped(meant[o], from, to) {
      assert o in now.Values;
      var i :| i in now && now[i] == o;
      assert edges[i] == so[o] && edges[i].kind != from;
    }
    assert so == RetypedAll(meant, from, to);
  }

  // The relationships of one type, each replaced by one of the new type.
  method RetypeEdges(g: StagedData, from: string, to: string, ghost origin: map<nat, nat>, ghost meant: map<nat, DataEdge>)
      returns (ghost now: map<nat, nat>)
    requires g.Valid() && from != to && StandsFor(g.edges, origin, meant)
    modifies g`edges, g`nextId
    ensures g.Valid() && StandsFor(g.edges, now, RetypedAll(meant, from, to))
  {
    now := origin;
    ghost var so := meant;
    var todo := set i | i in g.edges && g.edges[i].kind == from;
    while todo != {}
      invariant g.Valid() && Retyping(g.edges, now, so, meant, todo, from, to)
      decreases |todo|
    {
      var i :| i in todo;
      RetypingMore(g.edges, now, so, meant, todo, from, to, i, g.nextId);
      todo := todo - {i};
      ghost var o := now[i];
      var replacement := g.Replace(i, to);
      now, so := (now - {i})[replacement := o], so[o := so[o].(kind := to)];
    }
    RetypingEnd(g.edges, now, so, meant, from, to);
  }

  // ----- the changes of a plan

  ghost predicate BasesApart(plan: Plan) {
    && BasesKnown(plan)
    && (forall a, b {:trigger plan.objects[a], plan.objects[b]} :: a in plan.objects && b in plan.objects && a != b ==>
         plan.objects[a].baseRef.None? || plan.objects[a].baseRef != plan.objects[b].baseRef)
    && (forall r {:trigger plan.objects[r]} :: r in plan.objects ==> ContinuedOnce(plan.objects[r].propertyBase))
  }

  // continuityByBaseRef: base Refs to the planned Refs that continue them.
  ghost predicate Continues(plan: Plan, continuity: map<Ref, Ref>) {
    && (forall r :: r in continuity ==> continuity[r] in plan.objects && plan.objects[continuity[r]].baseRef == Some(r))
    && (forall q {:trigger plan.objects[q]} :: q in plan.objects && plan.objects[q].baseRef.Some? ==>
         plan.objects[q].baseRef.value in continuity && continuity[plan.objects[q].baseRef.value] == q)
  }

  method ContinuityByBaseRef(plan: Plan) returns (continuity: map<Ref, Ref>)
    requires BasesApart(plan)
    ensures Continues(plan, continuity)
  {
    continuity := map[];
    var todo := plan.objects.Keys;
    while todo != {}
      invariant todo <= plan.objects.Keys
      invariant forall r :: r in continuity ==>
        continuity[r] in plan.objects && continuity[r] !in todo && plan.objects[continuity[r]].baseRef == Some(r)
      invariant forall q {:trigger plan.objects[q]} :: q in plan.objects && q !in todo && plan.objects[q].baseRef.Some? ==>
        plan.objects[q].baseRef.value in continuity && continuity[plan.objects[q].baseRef.value] == q
      decreases |todo|
    {
      var q :| q in todo;
      todo := todo - {q};
      if plan.objects[q].baseRef.Some? {
        continuity := continuity[plan.objects[q].baseRef.value := q];
      }
    }
  }

  // propertyRenameMap.
  method PropertyRenameMap(propertyBase: map<string, string>) returns (renames: Renames)
    requires ContinuedOnce(propertyBase)
    ensures RenamesOf(propertyBase, renames)
  {
    renames := map[];
    var todo := propertyBase.Keys;
    while todo != {}
      invariant todo <= propertyBase.Keys
      invariant forall oldName :: oldName in renames ==>
        oldName != "" && oldName != renames[oldName] && renames[oldName] in propertyBase - todo && propertyBase[renames[oldName]] == oldName
      invariant forall name :: name in propertyBase && name !in todo && propertyBase[name] != "" && propertyBase[name] != name ==>
        propertyBase[name] in renames && renames[propertyBase[name]] == name
      decreases |todo|
    {
      var name :| name in todo;
      todo := todo - {name};
      var oldName := propertyBase[name];
      if oldName != "" && oldName != name {
        renames := renames[oldName := name];
      }
    }
  }

  predicate BaseDefinition(plan: Plan, r: Ref) {
    r in plan.base.records && plan.base.records[r].DefinitionRecord?
  }

  predicate KeepsLabel(plan: Plan, q: Ref, name: string) {
    q in plan.objects && plan.objects[q].value.DefinitionValue? && name in plan.objects[q].value.definition.labels
  }

  // What the plan does to the base Definition r.
  ghost predicate IsChange(plan: Plan, continuity: map<Ref, Ref>, r: Ref, c: Change) {
    && BaseDefinition(plan, r) && r in continuity && continuity[r] in plan.objects
    && c.kind == r.kind && c.base == r.name && c.target == continuity[r].name
    && RenamesOf(plan.objects[continuity[r]].propertyBase, c.renames)
    && c.keepsLabel == KeepsLabel(plan, continuity[r], r.name)
  }

  // The surviving base Definitions, each once, in the order of their Refs.
  ghost predicate ChangesOf(plan: Plan, continuity: map<Ref, Ref>, refs: seq<Ref>, changes: seq<Change>) {
    && Distinct(refs) && Ordered(refs, RefKey) && |changes| == |refs|
    && (forall i {:trigger changes[i]} :: 0 <= i < |refs| ==> IsChange(plan, continuity, refs[i], changes[i]))
    && (forall r :: BaseDefinition(plan, r) && r in continuity ==> r in refs)
  }

  // What every phase below walks: sortedBaseDefinitionRefs with its continuity entries.
  method CollectChanges(plan: Plan) returns (refs: seq<Ref>, changes: seq<Change>, continuity: map<Ref, Ref>)
    requires BasesApart(plan)
    ensures Continues(plan, continuity) && ChangesOf(plan, continuity, refs, changes)
  {
    continuity := ContinuityByBaseRef(plan);
    refs := SortedList((set r | r in plan.base.records && plan.base.records[r].DefinitionRecord? && r in continuity), RefKey);
    changes := [];
    while |changes| < |refs|
      invariant |changes| <= |refs|
      invariant forall i {:trigger changes[i]} :: 0 <= i < |changes| ==> IsChange(plan, continuity, refs[i], changes[i])
    {
      var r := refs[|changes|];
      assert r in refs;
      var q := continuity[r];
      var renames := PropertyRenameMap(plan.objects[q].propertyBase);
      changes := changes + [Change(r.kind, r.name, q.name, renames, KeepsLabel(plan, q, r.name))];
    }
  }

  lemma ChangesAreValid(plan: Plan, continuity: map<Ref, Ref>, refs: seq<Ref>, changes: seq<Change>)
    requires BasesApart(plan) && Continues(plan, continuity) && ChangesOf(plan, continuity, refs, changes)
    ensures ValidChanges(changes)
  {
    forall i | 0 <= i < |changes| ensures Moving(changes[i].renames) {
      assert IsChange(plan, continuity, refs[i], changes[i]);
      RenamesMove(plan.objects[continuity[refs[i]]].propertyBase, changes[i].renames);
    }
    forall i, j | 0 <= i < j < |changes| && changes[i].kind == changes[j].kind
      ensures changes[i].base != changes[j].base && changes[i].target != changes[j].target
    {
      assert IsChange(plan, continuity, refs[i], changes[i]) && IsChange(plan, continuity, refs[j], changes[j]);
      assert refs[i] != refs[j];
      assert plan.objects[continuity[refs[i]]].baseRef != plan.objects[continuity[refs[j]]].baseRef;
    }
  }

  // ----- the phases

  ghost function StepNodes(nodes: map<nat, DataNode>, changes: seq<Change>, k: nat): map<nat, DataNode>
    requires k <= |changes|
  {
    map id | id in nodes :: NodeSteps(changes, k, nodes[id])
  }

  ghost function StepEdges(edges: map<nat, DataEdge>, changes: seq<Change>, k: nat): map<nat, DataEdge>
    requires k <= |changes|
  {
    map id | id in edges :: EdgeSteps(changes, k, edges[id])
  }

  ghost function StepNodesOnce(nodes: map<nat, DataNode>, c: Change): map<nat, DataNode> {
    map id | id in nodes :: NodeStep(c, nodes[id])
  }

  ghost function StepEdgesOnce(edges: map<nat, DataEdge>, c: Change): map<nat, DataEdge> {
    map id | id in edges :: EdgeStep(c, edges[id])
  }

  lemma StepMore(nodes: map<nat, DataNode>, edges: map<nat, DataEdge>, changes: seq<Change>, k: nat)
    requires k < |changes|
    ensures StepNodes(nodes, changes, k + 1) == StepNodesOnce(StepNodes(nodes, changes, k), changes[k])
    ensures StepEdges(edges, changes, k + 1) == StepEdgesOnce(StepEdges(edges, changes, k), changes[k])
  {
  }

  lemma StepNone(nodes: map<nat, DataNode>, edges: map<nat, DataEdge>, changes: seq<Change>)
    ensures StepNodes(nodes, changes, 0) == nodes && StepEdges(edges, changes, 0) == edges
  {
  }

  // The Property half of a change on one node and on one relationship.
  ghost function WithNames(c: Change, n: DataNode): DataNode {
    if On(c, n) then n.(properties := SnapshotSet(n.properties, c.renames)) else n
  }

  ghost function EdgeWithNames(c: Change, e: DataEdge): DataEdge {
    if From(c, e) then e.(properties := SnapshotSet(e.properties, c.renames)) else e
  }

  lemma NoRenames(p: Properties, renames: Renames)
    requires renames.Keys == {}
    ensures SnapshotSet(p, renames) == p
  {
    assert renames.Values == {};
  }

  // propertySnapshotRenameCypher, unless there is nothing to rename.
  method RenameProperties(g: StagedData, c: Change)
    requires g.Valid() && Moving(c.renames)
    modifies g`nodes, g`edges
    ensures g.Valid()
    ensures g.nodes == map id | id in old(g.nodes) :: WithNames(c, old(g.nodes)[id])
    ensures g.edges == map id | id in old(g.edges) :: EdgeWithNames(c, old(g.edges)[id])
  {
    var names := SortedList(c.renames.Keys, Itself);
    if |names| != 0 {
      forall p: Properties ensures AssignAll(p, names, |names|, c.renames) == SnapshotSet(p, c.renames) {
        AssignmentsMeet(p, names, c.renames);
      }
      if c.kind == NodeDefinition {
        g.SetNodeProperties(c.base, names, c.renames);
      } else if c.kind == RelationshipDefinition {
        g.SetEdgeProperties(c.base, names, c.renames);
      }
    } else {
      assert c.renames.Keys == {};
      forall p: Properties ensures SnapshotSet(p, c.renames) == p {
        NoRenames(p, c.renames);
      }
    }
  }

  // definitionRenameCypher, unless the name stays.
  method RenameDefinition(g: StagedData, c: Change, ghost origin: map<nat, nat>, ghost meant: map<nat, DataEdge>)
      returns (ghost now: map<nat, nat>)
    requires g.Valid() && StandsFor(g.edges, origin, meant)
    modifies g
    ensures g.Valid()
    ensures g.nodes == map id | id in old(g.nodes) ::
              if Renamed(c) && On(c, old(g.nodes)[id]) then old(g.nodes)[id].(labels := old(g.nodes)[id].labels + {c.target}) else old(g.nodes)[id]
    ensures StandsFor(g.edges, now, if c.kind == RelationshipDefinition then RetypedAll(meant, c.base, c.target) else meant)
  {
    now := origin;
    assert c.base == c.target ==> RetypedAll(meant, c.base, c.target) == meant;
    if c.base != c.target {
      if c.kind == NodeDefinition {
        g.AddLabel(c.base, c.target);
      } else if c.kind == RelationshipDefinition {
        now := RetypeEdges(g, c.base, c.target, origin, meant);
      }
    }
  }

  lemma StepHalves(c: Change, meant: map<nat, DataEdge>)
    ensures var so := map o | o in meant :: EdgeWithNames(c, meant[o]);
            StepEdgesOnce(meant, c) == if c.kind == RelationshipDefinition then RetypedAll(so, c.base, c.target) else so
  {
  }

  // One round of applyKnowledgeRenameMaintenance.
  method ApplyChange(g: StagedData, c: Change, ghost origin: map<nat, nat>, ghost meant: map<nat, DataEdge>)
      returns (ghost now: map<nat, nat>)
    requires g.Valid() && Moving(c.renames) && StandsFor(g.edges, origin, meant)
    modifies g
    ensures g.Valid() && g.nodes == StepNodesOnce(old(g.nodes), c)
    ensures StandsFor(g.edges, now, StepEdgesOnce(meant, c))
  {
    ghost var so := map o | o in meant :: EdgeWithNames(c, meant[o]);
    ghost var edges := g.edges;
    RenameProperties(g, c);
    StandsForEach(edges, g.edges, origin, meant, so);
    now := RenameDefinition(g, c, origin, so);
    StepHalves(c, meant);
  }

  // applyKnowledgeRenameMaintenance.
  method ApplyKnowledgeRenameMaintenance(g: StagedData, changes: seq<Change>) returns (ghost origin: map<nat, nat>)
    requires g.Valid() && ValidChanges(changes)
    modifies g
    ensures g.Valid() && g.nodes == StepNodes(old(g.nodes), changes, |changes|)
    ensures StandsFor(g.edges, origin, StepEdges(old(g.edges), changes, |changes|))
  {
    ghost var nodes, edges := g.nodes, g.edges;
    origin := Self(edges);
    StandsForSelf(edges);
    StepNone(nodes, edges, changes);
    var k := 0;
    while k < |changes|
      invariant 0 <= k <= |changes| && g.Valid()
      invariant g.nodes == StepNodes(nodes, changes, k) && StandsFor(g.edges, origin, StepEdges(edges, changes, k))
    {
      StepMore(nodes, edges, changes, k);
      origin := ApplyChange(g, changes[k], origin, StepEdges(edges, changes, k));
      k := k + 1;
    }
  }

  ghost function WithoutLabels(nodes: map<nat, DataNode>, changes: seq<Change>, k: nat): map<nat, DataNode>
    requires k <= |changes|
  {
    map id | id in nodes :: LabelDrops(changes, k, nodes[id])
  }

  ghost function WithoutNames(nodes: map<nat, DataNode>, changes: seq<Change>, k: nat): map<nat, DataNode>
    requires k <= |changes|
  {
    map id | id in nodes :: NameDrops(changes, k, nodes[id])
  }

  ghost function EdgesWithoutNames(edges: map<nat, DataEdge>, changes: seq<Change>, k: nat): map<nat, DataEdge>
    requires k <= |changes|
  {
    map id | id in edges :: EdgeDrops(changes, k, edges[id])
  }

  // removeRenamedSourceDefinitionLabels.
  method RemoveRenamedSourceDefinitionLabels(g: StagedData, changes: seq<Change>)
    requires g.Valid()
    modifies g`nodes
    ensures g.Valid() && g.nodes == WithoutLabels(old(g.nodes), changes, |changes|)
  {
    var k := 0;
    while k < |changes|
      invariant 0 <= k <= |changes| && g.Valid()
      invariant g.nodes == WithoutLabels(old(g.nodes), changes, k)
    {
      var c := changes[k];
      if c.kind == NodeDefinition && c.target != c.base && !c.keepsLabel {
        g.RemoveLabel(c.target, c.base);
      }
      k := k + 1;
    }
  }

  method RemoveNames(g: StagedData, c: Change, names: seq<string>)
    requires g.Valid()
    modifies g`nodes, g`edges
    ensures g.Valid()
    ensures g.nodes == map id | id in old(g.nodes) ::
              if Reached(c, old(g.nodes)[id])
              then old(g.nodes)[id].(properties := old(g.nodes)[id].properties - Set(names)) else old(g.nodes)[id]
    ensures g.edges == map id | id in old(g.edges) ::
              if Into(c, old(g.edges)[id])
              then old(g.edges)[id].(properties := old(g.edges)[id].properties - Set(names)) else old(g.edges)[id]
  {
    var k := 0;
    forall p: Properties ensures p - Set(names[..0]) == p {
      assert Set(names[..0]) == {};
    }
    while k < |names|
      invariant 0 <= k <= |names| && g.Valid()
      invariant g.nodes == map id | id in old(g.nodes) ::
        if Reached(c, old(g.nodes)[id])
        then old(g.nodes)[id].(properties := old(g.nodes)[id].properties - Set(names[..k])) else old(g.nodes)[id]
      invariant g.edges == map id | id in old(g.edges) ::
        if Into(c, old(g.edges)[id])
        then old(g.edges)[id].(properties := old(g.edges)[id].properties - Set(names[..k])) else old(g.edges)[id]
    {
      forall p: Properties ensures p - Set(names[..k + 1]) == p - Set(names[..k]) - {names[k]} {
        SetMore(names, k);
      }
      if c.kind == NodeDefinition {
        g.RemoveNodeProperty(c.target, names[k]);
      } else if c.kind == RelationshipDefinition {
        g.RemoveEdgeProperty(c.target, names[k]);
      }
      k := k + 1;
    }
    assert names[..k] == names;
  }

  function Set(names: seq<string>): set<string> {
    set n | n in names
  }

  lemma SetMore(names: seq<string>, k: nat)
    requires k < |names|
    ensures Set(names[..k + 1]) == Set(names[..k]) + {names[k]}
  {
    assert names[..k + 1] == names[..k] + [names[k]];
  }

  // removeRenamedSourceProperties.
  method RemoveRenamedSourceProperties(g: StagedData, changes: seq<Change>)
    requires g.Valid()
    modifies g`nodes, g`edges
    ensures g.Valid()
    ensures g.nodes == WithoutNames(old(g.nodes), changes, |changes|)
    ensures g.edges == EdgesWithoutNames(old(g.edges), changes, |changes|)
  {
    var k := 0;
    while k < |changes|
      invariant 0 <= k <= |changes| && g.Valid()
      invariant g.nodes == WithoutNames(old(g.nodes), changes, k)
      invariant g.edges == EdgesWithoutNames(old(g.edges), changes, k)
    {
      var names := SortedList(Leftovers(changes[k].renames), Itself);
      assert Set(names) == Leftovers(changes[k].renames);
      RemoveNames(g, changes[k], names);
      k := k + 1;
    }
  }

  // The changes are those of the plan.
  ghost predicate Planned(plan: Plan, changes: seq<Change>) {
    exists continuity, refs :: Continues(plan, continuity) && ChangesOf(plan, continuity, refs, changes)
  }

  ghost function NodeFates(nodes: map<nat, DataNode>, changes: seq<Change>): map<nat, DataNode> {
    map id | id in nodes :: NodeFate(changes, nodes[id])
  }

  ghost function EdgeFates(edges: map<nat, DataEdge>, changes: seq<Change>): map<nat, DataEdge> {
    map id | id in edges :: EdgeFate(changes, edges[id])
  }

  lemma FatesMet(nodes: map<nat, DataNode>, edges: map<nat, DataEdge>, changes: seq<Change>)
    ensures WithoutNames(WithoutLabels(StepNodes(nodes, changes, |changes|), changes, |changes|), changes, |changes|) == NodeFates(nodes, changes)
    ensures EdgesWithoutNames(StepEdges(edges, changes, |changes|), changes, |changes|) == EdgeFates(edges, changes)
  {
  }

  lemma DropsStand(edges: map<nat, DataEdge>, origin: map<nat, nat>, meant: map<nat, DataEdge>, changes: seq<Change>)
    requires StandsFor(edges, origin, meant)
    ensures StandsFor(EdgesWithoutNames(edges, changes, |changes|), origin, EdgesWithoutNames(meant, changes, |changes|))
  {
    forall i | i in edges ensures origin[i] in meant {
      assert origin[i] in origin.Values;
    }
  }

  // All three phases: every node and relationship meets its fate, and none appears or disappears.
  method MaintainKnowledge(g: StagedData, plan: Plan) returns (ghost changes: seq<Change>, ghost origin: map<nat, nat>)
    requires g.Valid() && BasesApart(plan)
    modifies g
    ensures g.Valid() && ValidChanges(changes) && Planned(plan, changes)
    ensures g.nodes == NodeFates(old(g.nodes), changes)
    ensures StandsFor(g.edges, origin, EdgeFates(old(g.edges), changes))
  {
    ghost var nodes, edges := g.nodes, g.edges;
    var refs, collected, continuity := CollectChanges(plan);
    changes := collected;
    ChangesAreValid(plan, continuity, refs, changes);
    origin := ApplyKnowledgeRenameMaintenance(g, collected);
    RemoveRenamedSourceDefinitionLabels(g, collected);
    DropsStand(g.edges, origin, StepEdges(edges, changes, |changes|), changes);
    RemoveRenamedSourceProperties(g, collected);
    FatesMet(nodes, edges, changes);
  }
}

// validateStagedDataSafety: what must not be in the data before anything is renamed or deleted.
module RenameSafety {
  import opened Outcomes
  import opened Model
  import opened BindingGraph
  import opened CompilerFacts
  import opened RenameFacts
  import opened RenameFates
  import RM = RenameMaintenance

  // The Knowledge data a check reads.
  datatype Data = Data(nodes: map<nat, DataNode>, edges: map<nat, DataEdge>)

  predicate NodeAt(d: Data, id: nat, name: string) {
    id in d.nodes && name in d.nodes[id].labels
  }

  predicate EdgeAt(d: Data, id: nat, name: string) {
    id in d.edges && d.edges[id].kind == name
  }

  ghost predicate AnyElement(d: Data, r: Ref) {
    || (r.kind == NodeDefinition && exists id :: NodeAt(d, id, r.name))
    || (r.kind == RelationshipDefinition && exists id :: EdgeAt(d, id, r.name))
  }

  ghost predicate AnyWith(d: Data, r: Ref, property: string) {
    || (r.kind == NodeDefinition && exists id :: NodeAt(d, id, r.name) && property in d.nodes[id].properties)
    || (r.kind == RelationshipDefinition && exists id :: EdgeAt(d, id, r.name) && property in d.edges[id].properties)
  }

  ghost predicate AnyShared(d: Data, owner: string, other: string, property: string) {
    exists id :: NodeAt(d, id, owner) && NodeAt(d, id, other) && property in d.nodes[id].properties
  }

  // The base names that continue, and those that move.
  function Continuing(propertyBase: map<string, string>): set<string> {
    set name | name in propertyBase && propertyBase[name] != "" :: propertyBase[name]
  }

  function Sources(propertyBase: map<string, string>): set<string> {
    set name | name in propertyBase && propertyBase[name] != "" && propertyBase[name] != name :: propertyBase[name]
  }

  predicate Moves(propertyBase: map<string, string>, name: string) {
    name in propertyBase && propertyBase[name] != "" && propertyBase[name] != name
  }

  // Another surviving node Definition that keeps a Property of this name.
  predicate Keeps(plan: Plan, continuity: map<Ref, Ref>, other: Ref, owner: Ref, property: string) {
    && other != owner && other.kind == NodeDefinition && RM.BaseDefinition(plan, other)
    && property in PropertyNames(plan.base.records[other].definition.properties)
    && other in continuity && continuity[other] in plan.objects
    && var propertyBase := plan.objects[continuity[other]].propertyBase;
    property in propertyBase && propertyBase[property] == property
  }

  ghost predicate NoOverlap(d: Data, plan: Plan, continuity: map<Ref, Ref>, owner: Ref, property: string) {
    forall other {:trigger Keeps(plan, continuity, other, owner, property)} ::
      Keeps(plan, continuity, other, owner, property) ==> !AnyShared(d, owner.name, other.name, property)
  }

  ghost predicate MoveAllowed(d: Data, plan: Plan, continuity: map<Ref, Ref>, b: Ref, propertyBase: map<string, string>, name: string) {
    Moves(propertyBase, name) && name !in Sources(propertyBase) ==>
      && !AnyWith(d, b, name)
      && (b.kind == NodeDefinition ==> NoOverlap(d, plan, continuity, b, propertyBase[name]))
  }

  ghost predicate SafeDefinition(d: Data, plan: Plan, continuity: map<Ref, Ref>, b: Ref) {
    RM.BaseDefinition(plan, b) ==>
      if b !in continuity then !AnyElement(d, b)
      else continuity[b] in plan.objects ==>
        var propertyBase := plan.objects[continuity[b]].propertyBase;
        && (continuity[b] != b ==> !AnyElement(d, continuity[b]))
        && (forall property ::
             property in PropertyNames(plan.base.records[b].definition.properties) - Continuing(propertyBase) ==> !AnyWith(d, b, property))
        && (forall name {:trigger MoveAllowed(d, plan, continuity, b, propertyBase, name)} :: MoveAllowed(d, plan, continuity, b, propertyBase, name))
  }

  ghost predicate SafeData(d: Data, plan: Plan, continuity: map<Ref, Ref>) {
    forall b {:trigger SafeDefinition(d, plan, continuity, b)} :: SafeDefinition(d, plan, continuity, b)
  }

  lemma Witnessed(matched: set<nat>)
    ensures |matched| != 0 <==> exists id :: id in matched
  {
    if matched != {} {
      var id :| id in matched;
    }
  }

  // countDefinitionElements.
  method CountDefinitionElements(d: Data, r: Ref) returns (count: Result<nat>)
    ensures count.Success? <==> IsDefinition(r.kind)
    ensures count.Success? ==> (count.value != 0 <==> AnyElement(d, r))
  {
    if r.kind == NodeDefinition {
      var matched := set id | id in d.nodes && NodeAt(d, id, r.name);
      if id :| NodeAt(d, id, r.name) {
        assert id in matched;
      }
      Witnessed(matched);
      return Success(|matched|);
    } else if r.kind == RelationshipDefinition {
      var matched := set id | id in d.edges && EdgeAt(d, id, r.name);
      if id :| EdgeAt(d, id, r.name) {
        assert id in matched;
      }
      Witnessed(matched);
      return Success(|matched|);
    }
    return Failure(TypeError);
  }

  // countPropertyValues and countPropertyTargetValues.
  method CountPropertyValues(d: Data, r: Ref, property: string) returns (count: Result<nat>)
    ensures count.Success? <==> IsDefinition(r.kind)
    ensures count.Success? ==> (count.value != 0 <==> AnyWith(d, r, property))
  {
    if r.kind == NodeDefinition {
      var matched := set id | id in d.nodes && NodeAt(d, id, r.name) && property in d.nodes[id].properties;
      if id :| NodeAt(d, id, r.name) && property in d.nodes[id].properties {
        assert id in matched;
      }
      Witnessed(matched);
      return Success(|matched|);
    } else if r.kind == RelationshipDefinition {
      var matched := set id | id in d.edges && EdgeAt(d, id, r.name) && property in d.edges[id].properties;
      if id :| EdgeAt(d, id, r.name) && property in d.edges[id].properties {
        assert id in matched;
      }
      Witnessed(matched);
      return Success(|matched|);
    }
    return Failure(TypeError);
  }

  // validateNodePropertyRenameOverlap.
  method ValidateNodePropertyRenameOverlap(d: Data, plan: Plan, continuity: map<Ref, Ref>, owner: Ref, property: string) returns (ok: bool)
    ensures ok <==> NoOverlap(d, plan, continuity, owner, property)
  {
    var todo := plan.base.records.Keys;
    while todo != {}
      invariant todo <= plan.base.records.Keys
      invariant forall other {:trigger Keeps(plan, continuity, other, owner, property)} ::
        other !in todo && Keeps(plan, continuity, other, owner, property) ==> !AnyShared(d, owner.name, other.name, property)
      decreases |todo|
    {
      var other :| other in todo;
      todo := todo - {other};
      if Keeps(plan, continuity, other, owner, property) {
        var shared := set id | id in d.nodes && NodeAt(d, id, owner.name) && NodeAt(d, id, other.name) && property in d.nodes[id].properties;
        if id :| NodeAt(d, id, owner.name) && NodeAt(d, id, other.name) && property in d.nodes[id].properties {
          assert id in shared;
        }
        Witnessed(shared);
        if |shared| != 0 {
          return false;
        }
      }
    }
    return true;
  }

  method CheckDeletedProperties(d: Data, b: Ref, names: set<string>) returns (ok: bool)
    requires IsDefinition(b.kind)
    ensures ok <==> forall property :: property in names ==> !AnyWith(d, b, property)
  {
    var todo := names;
    while todo != {}
      invariant todo <= names
      invariant forall property :: property in names && property !in todo ==> !AnyWith(d, b, property)
      decreases |todo|
    {
      var property :| property in todo;
      todo := todo - {property};
      var count := CountPropertyValues(d, b, property);
      if count.value != 0 {
        return false;
      }
    }
    return true;
  }

  method CheckMoves(d: Data, plan: Plan, continuity: map<Ref, Ref>, b: Ref, propertyBase: map<string, string>) returns (ok: bool)
    requires IsDefinition(b.kind)
    ensures ok <==> forall name {:trigger MoveAllowed(d, plan, continuity, b, propertyBase, name)} :: MoveAllowed(d, plan, continuity, b, propertyBase, name)
  {
    var sources := Sources(propertyBase);
    var todo := propertyBase.Keys;
    while todo != {}
      invariant todo <= propertyBase.Keys
      invariant forall name {:trigger MoveAllowed(d, plan, continuity, b, propertyBase, name)} :: name !in todo ==> MoveAllowed(d, plan, continuity, b, propertyBase, name)
      decreases |todo|
    {
      var name :| name in todo;
      todo := todo - {name};
      if Moves(propertyBase, name) && name !in sources {
        var count := CountPropertyValues(d, b, name);
        if count.value != 0 {
          assert !MoveAllowed(d, plan, continuity, b, propertyBase, name);
          return false;
        }
        if b.kind == NodeDefinition {
          var free := ValidateNodePropertyRenameOverlap(d, plan, continuity, b, propertyBase[name]);
          if !free {
            assert !MoveAllowed(d, plan, continuity, b, propertyBase, name);
            return false;
          }
        }
      }
    }
    return true;
  }

  method CheckDefinition(d: Data, plan: Plan, continuity: map<Ref, Ref>, b: Ref) returns (ok: bool)
    requires RM.Continues(plan, continuity) && BasesKnown(plan) && RM.BaseDefinition(plan, b) && IsDefinition(b.kind)
    ensures ok <==> SafeDefinition(d, plan, continuity, b)
  {
    if b !in continuity {
      var count := CountDefinitionElements(d, b);
      return count.value == 0;
    }
    var target := continuity[b];
    var propertyBase := plan.objects[target].propertyBase;
    if target != b {
      var count := CountDefinitionElements(d, target);
      if count.value != 0 {
        return false;
      }
    }
    var gone := CheckDeletedProperties(d, b, PropertyNames(plan.base.records[b].definition.properties) - Continuing(propertyBase));
    if !gone {
      return false;
    }
    ok := CheckMoves(d, plan, continuity, b, propertyBase);
  }

  method ValidateStagedDataSafety(d: Data, plan: Plan, continuity: map<Ref, Ref>) returns (r: Result<()>)
    requires RM.Continues(plan, continuity) && BasesKnown(plan) && WellNamed(ObjectsOf(plan.base))
    ensures r.Success? <==> SafeData(d, plan, continuity)
    ensures r.Failure? ==> r.code == ObjectConflict
  {
    var todo := plan.base.records.Keys;
    while todo != {}
      invariant todo <= plan.base.records.Keys
      invariant forall b {:trigger SafeDefinition(d, plan, continuity, b)} :: b !in todo ==> SafeDefinition(d, plan, continuity, b)
      decreases |todo|
    {
      var b :| b in todo;
      todo := todo - {b};
      if RM.BaseDefinition(plan, b) {
        assert b in ObjectsOf(plan.base);
        var ok := CheckDefinition(d, plan, continuity, b);
        if !ok {
          return Failure(ObjectConflict);
        }
      }
    }
    return Success(());
  }

  // ----- what a passed check gives

  lemma SourcesAreRenamed(propertyBase: map<string, string>, renames: Renames)
    requires RenamesOf(propertyBase, renames)
    ensures Sources(propertyBase) == renames.Keys
  {
    forall oldName | oldName in renames ensures oldName in Sources(propertyBase) {
      assert Moves(propertyBase, renames[oldName]);
    }
  }

  lemma SafeChange(d: Data, plan: Plan, continuity: map<Ref, Ref>, refs: seq<Ref>, changes: seq<Change>, i: nat)
    requires RM.BasesApart(plan) && RM.Continues(plan, continuity) && RM.ChangesOf(plan, continuity, refs, changes)
    requires SafeData(d, plan, continuity) && i < |changes|
    ensures forall id :: id in d.nodes && Renamed(changes[i]) ==> !Reached(changes[i], d.nodes[id])
    ensures forall id :: id in d.nodes && On(changes[i], d.nodes[id]) ==> TargetsFree(d.nodes[id].properties, changes[i].renames)
    ensures forall id :: id in d.edges && Renamed(changes[i]) ==> !Into(changes[i], d.edges[id])
    ensures forall id :: id in d.edges && From(changes[i], d.edges[id]) ==> TargetsFree(d.edges[id].properties, changes[i].renames)
  {
    var b, c := refs[i], changes[i];
    assert RM.IsChange(plan, continuity, b, c) && SafeDefinition(d, plan, continuity, b);
    var q := continuity[b];
    var propertyBase := plan.objects[q].propertyBase;
    SourcesAreRenamed(propertyBase, c.renames);
    assert q.kind == b.kind;
    assert Renamed(c) ==> !AnyElement(d, q);
    forall id | id in d.nodes && Renamed(c) ensures !Reached(c, d.nodes[id]) {
      assert NodeAt(d, id, q.name) <==> q.name in d.nodes[id].labels;
    }
    forall id | id in d.edges && Renamed(c) ensures !Into(c, d.edges[id]) {
      assert EdgeAt(d, id, q.name) <==> d.edges[id].kind == q.name;
    }
    forall oldName | oldName in c.renames && c.renames[oldName] !in c.renames
      ensures !AnyWith(d, b, c.renames[oldName])
    {
      assert Moves(propertyBase, c.renames[oldName]);
      assert MoveAllowed(d, plan, continuity, b, propertyBase, c.renames[oldName]);
    }
    forall id | id in d.nodes && On(c, d.nodes[id]) ensures TargetsFree(d.nodes[id].properties, c.renames) {
      assert NodeAt(d, id, b.name);
    }
    forall id | id in d.edges && From(c, d.edges[id]) ensures TargetsFree(d.edges[id].properties, c.renames) {
      assert EdgeAt(d, id, b.name);
    }
  }

  // Once the check has passed, a relationship of a surviving type keeps every value, each under the
  // name the plan gives it, unless its new type is the old name of a Definition handled later.
  lemma NoEdgeValueLost(d: Data, plan: Plan, continuity: map<Ref, Ref>, refs: seq<Ref>, changes: seq<Change>, id: nat, i: nat)
    requires RM.BasesApart(plan) && RM.Continues(plan, continuity) && RM.ChangesOf(plan, continuity, refs, changes)
    requires SafeData(d, plan, continuity) && id in d.edges && i < |changes| && From(changes[i], d.edges[id])
    requires Unchained(changes)
    ensures var f := EdgeFate(changes, d.edges[id]);
            && f.kind == changes[i].target && f.start == d.edges[id].start && f.end == d.edges[id].end
            && KeepsAll(d.edges[id].properties, changes[i].renames, f.properties)
  {
    RM.ChangesAreValid(plan, continuity, refs, changes);
    forall k | 0 <= k < |changes| && Renamed(changes[k]) ensures !Into(changes[k], d.edges[id]) {
      SafeChange(d, plan, continuity, refs, changes, k);
    }
    SafeEdgeReachesGoal(changes, d.edges[id]);
    SafeChange(d, plan, continuity, refs, changes, i);
    NothingLost(d.edges[id].properties, changes[i].renames, EdgeFate(changes, d.edges[id]).properties);
  }

  // Relationships of other types, and of deleted ones (the check admits none), stay as they are.
  lemma OtherEdgesStay(d: Data, plan: Plan, continuity: map<Ref, Ref>, refs: seq<Ref>, changes: seq<Change>, id: nat)
    requires RM.BasesApart(plan) && RM.Continues(plan, continuity) && RM.ChangesOf(plan, continuity, refs, changes)
    requires SafeData(d, plan, continuity) && id in d.edges && forall i :: 0 <= i < |changes| ==> !From(changes[i], d.edges[id])
    ensures EdgeFate(changes, d.edges[id]) == d.edges[id]
  {
    forall k | 0 <= k < |changes| && Renamed(changes[k]) ensures !Into(changes[k], d.edges[id]) {
      SafeChange(d, plan, continuity, refs, changes, k);
    }
    OtherEdge(changes, d.edges[id]);
  }

  // The same for nodes under one changed Definition.
  lemma NoNodeValueLost(d: Data, plan: Plan, continuity: map<Ref, Ref>, refs: seq<Ref>, changes: seq<Change>, id: nat, i: nat)
    requires RM.BasesApart(plan) && RM.Continues(plan, continuity) && RM.ChangesOf(plan, continuity, refs, changes)
    requires SafeData(d, plan, continuity) && id in d.nodes && OnlyUnder(changes, d.nodes[id], i)
    requires forall j :: i < j < |changes| ==> !Reuses(changes[i], changes[j])
    ensures var m := NodeFate(changes, d.nodes[id]);
            && m.labels == LabelsAfter(changes[i], d.nodes[id].labels)
            && KeepsAll(d.nodes[id].properties, changes[i].renames, m.properties)
  {
    RM.ChangesAreValid(plan, continuity, refs, changes);
    forall k | 0 <= k < |changes| && Renamed(changes[k]) ensures !Reached(changes[k], d.nodes[id]) {
      SafeChange(d, plan, continuity, refs, changes, k);
    }
    RenamedNode(changes, d.nodes[id], i);
    SafeChange(d, plan, continuity, refs, changes, i);
    NothingLost(d.nodes[id].properties, changes[i].renames, NodeFate(changes, d.nodes[id]).properties);
  }
}
